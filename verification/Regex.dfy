/** The regular expressions of the search filter: case-insensitive, matched anywhere in the text. Case folding is a
    parameter; two characters match when they fold alike. */
module Regex {
  datatype Regex =
    | Lit(c: char)
    | AnyChar
    | OneOf(cs: string)
    | Cat(first: Regex, second: Regex)
    | Alt(left: Regex, right: Regex)
    | Star(body: Regex)

  function Plus(r: Regex): Regex { Cat(r, Star(r)) }

  function Word(w: string): Regex
    requires w != ""
  {
    if |w| == 1 then Lit(w[0]) else Cat(Lit(w[0]), Word(w[1..]))
  }

  function AnyWord(ws: seq<string>): Regex
    requires ws != [] && "" !in ws
  {
    if |ws| == 1 then Word(ws[0]) else Alt(Word(ws[0]), AnyWord(ws[1..]))
  }

  /** The expression matches the whole text. */
  predicate Matches(fold: char -> char, r: Regex, s: string)
    decreases r, |s|
  {
    match r
    case Lit(c) => |s| == 1 && fold(s[0]) == fold(c)
    case AnyChar => |s| == 1 && s[0] != '\n'
    case OneOf(cs) => |s| == 1 && exists c :: c in cs && fold(s[0]) == fold(c)
    case Cat(a, b) => exists i :: 0 <= i <= |s| && Matches(fold, a, s[..i]) && Matches(fold, b, s[i..])
    case Alt(a, b) => Matches(fold, a, s) || Matches(fold, b, s)
    case Star(a) => s == "" || exists i :: 1 <= i <= |s| && Matches(fold, a, s[..i]) && Matches(fold, r, s[i..])
  }

  /** The expression matches somewhere: MatchString. */
  predicate Found(fold: char -> char, r: Regex, s: string) {
    exists i, j :: 0 <= i <= j <= |s| && Matches(fold, r, s[i..j])
  }

  /** The text and the word, equally long, fold alike. */
  predicate FoldsTo(fold: char -> char, s: string, w: string) {
    |s| == |w| && forall k :: 0 <= k < |s| ==> fold(s[k]) == fold(w[k])
  }

  predicate OccursAt(fold: char -> char, s: string, w: string, i: nat) {
    i + |w| <= |s| && FoldsTo(fold, s[i..i + |w|], w)
  }

  /** The text contains the word, up to case. */
  predicate Contains(fold: char -> char, s: string, w: string) {
    exists i :: 0 <= i <= |s| && OccursAt(fold, s, w, i)
  }

  lemma {:induction false} WordMatches(fold: char -> char, w: string, s: string)
    requires w != ""
    ensures Matches(fold, Word(w), s) <==> FoldsTo(fold, s, w)
  {
    if |w| > 1 {
      if Matches(fold, Word(w), s) {
        var i :| 0 <= i <= |s| && Matches(fold, Lit(w[0]), s[..i]) && Matches(fold, Word(w[1..]), s[i..]);
        WordMatches(fold, w[1..], s[i..]);
        assert i == 1;
        forall k | 0 <= k < |s|
          ensures fold(s[k]) == fold(w[k])
        {
          assert k > 0 ==> s[k] == s[1..][k - 1] && w[k] == w[1..][k - 1];
        }
      }
      if FoldsTo(fold, s, w) {
        WordMatches(fold, w[1..], s[1..]);
        assert Matches(fold, Lit(w[0]), s[..1]);
        assert Matches(fold, Word(w[1..]), s[1..]);
      }
    }
  }

  lemma {:induction false} AnyWordMatches(fold: char -> char, ws: seq<string>, s: string)
    requires ws != [] && "" !in ws
    ensures Matches(fold, AnyWord(ws), s) <==> exists w :: w in ws && FoldsTo(fold, s, w)
  {
    WordMatches(fold, ws[0], s);
    if |ws| > 1 {
      AnyWordMatches(fold, ws[1..], s);
      assert forall w :: w in ws <==> w == ws[0] || w in ws[1..];
    }
  }

  lemma AnyWordFound(fold: char -> char, ws: seq<string>, s: string)
    requires ws != [] && "" !in ws
    ensures Found(fold, AnyWord(ws), s) <==> exists w :: w in ws && Contains(fold, s, w)
  {
    if Found(fold, AnyWord(ws), s) {
      var i, j :| 0 <= i <= j <= |s| && Matches(fold, AnyWord(ws), s[i..j]);
      AnyWordMatches(fold, ws, s[i..j]);
      var w :| w in ws && FoldsTo(fold, s[i..j], w);
      assert s[i..i + |w|] == s[i..j];
      assert OccursAt(fold, s, w, i);
    }
    if w :| w in ws && Contains(fold, s, w) {
      var i :| 0 <= i <= |s| && OccursAt(fold, s, w, i);
      AnyWordMatches(fold, ws, s[i..i + |w|]);
    }
  }

  /******* What every match must contain *******/

  /** No text without (a character folding like) c matches the expression. */
  predicate MustContain(r: Regex, c: char) {
    match r
    case Lit(d) => d == c
    case AnyChar => false
    case OneOf(cs) => forall d :: d in cs ==> d == c
    case Cat(a, b) => MustContain(a, c) || MustContain(b, c)
    case Alt(a, b) => MustContain(a, c) && MustContain(b, c)
    case Star(_) => false
  }

  lemma {:induction false} MustContainSound(fold: char -> char, r: Regex, c: char, s: string) returns (k: nat)
    requires MustContain(r, c) && Matches(fold, r, s)
    ensures k < |s| && fold(s[k]) == fold(c)
    decreases r
  {
    match r
    case Lit(_) => k := 0;
    case OneOf(_) => k := 0;
    case Cat(a, b) =>
      var i :| 0 <= i <= |s| && Matches(fold, a, s[..i]) && Matches(fold, b, s[i..]);
      if MustContain(a, c) {
        k := MustContainSound(fold, a, c, s[..i]);
      } else {
        var m := MustContainSound(fold, b, c, s[i..]);
        k := i + m;
      }
    case Alt(a, b) =>
      if Matches(fold, a, s) {
        k := MustContainSound(fold, a, c, s);
      } else {
        k := MustContainSound(fold, b, c, s);
      }
  }

  lemma FoundMustContain(fold: char -> char, r: Regex, c: char, s: string) returns (k: nat)
    requires MustContain(r, c) && Found(fold, r, s)
    ensures k < |s| && fold(s[k]) == fold(c)
  {
    var i, j :| 0 <= i <= j <= |s| && Matches(fold, r, s[i..j]);
    var m := MustContainSound(fold, r, c, s[i..j]);
    k := i + m;
  }
}
