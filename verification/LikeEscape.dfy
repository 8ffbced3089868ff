/** The search pattern: escaping LIKE's wildcards in a query, and what the resulting pattern matches. LIKE is that of
    section 9.7.1 of the PostgreSQL documentation with its default escape character; ILIKE compares characters by
    how they fold. (A pattern that ends in a lone escape character is an error there; here it matches nothing.) */
module LikeEscape {
  import opened Options
  import opened Regex
  import opened SearchFilter

  /** strings.ReplaceAll for a single character. */
  function ReplaceAll(s: string, what: char, with: string): string {
    if s == "" then "" else (if s[0] == what then with else [s[0]]) + ReplaceAll(s[1..], what, with)
  }

  function SanitizeSearchString(query: string): string {
    if query == "" then "" else ReplaceAll(ReplaceAll(query, '%', "\\%"), '_', "\\_")
  }

  function SearchPattern(query: string): string { "%" + SanitizeSearchString(query) + "%" }

  predicate ILike(fold: char -> char, text: string, pattern: string)
    decreases |pattern| + |text|
  {
    if pattern == "" then text == ""
    else if pattern[0] == '%' then
      ILike(fold, text, pattern[1..]) || (text != "" && ILike(fold, text[1..], pattern))
    else if pattern[0] == '_' then
      text != "" && ILike(fold, text[1..], pattern[1..])
    else if pattern[0] == '\\' then
      |pattern| > 1 && text != "" && fold(text[0]) == fold(pattern[1]) && ILike(fold, text[1..], pattern[2..])
    else
      text != "" && fold(text[0]) == fold(pattern[0]) && ILike(fold, text[1..], pattern[1..])
  }

  /******* One pass *******/

  function EscapeChar(c: char): string { if c == '%' || c == '_' then ['\\', c] else [c] }

  function Escape(q: string): string { if q == "" then "" else EscapeChar(q[0]) + Escape(q[1..]) }

  lemma {:induction false} ReplaceDistributes(s: string, t: string, what: char, with: string)
    ensures ReplaceAll(s + t, what, with) == ReplaceAll(s, what, with) + ReplaceAll(t, what, with)
  {
    if s == "" {
      assert s + t == t;
    } else {
      assert (s + t)[1..] == s[1..] + t;
      ReplaceDistributes(s[1..], t, what, with);
    }
  }

  /** The second replacement does not touch what the first one put in: the two passes are one escape of each
      character. */
  lemma {:induction false} TwoPassesAreOne(q: string)
    ensures SanitizeSearchString(q) == Escape(q)
  {
    if q != "" {
      TwoPassesAreOne(q[1..]);
      var first := if q[0] == '%' then "\\%" else [q[0]];
      ReplaceDistributes(first, ReplaceAll(q[1..], '%', "\\%"), '_', "\\_");
      FirstEscaped(q[0]);
    }
  }

  lemma FirstEscaped(c: char)
    ensures ReplaceAll(if c == '%' then "\\%" else [c], '_', "\\_") == EscapeChar(c)
  {
    assert ReplaceAll("", '_', "\\_") == "";
    if c == '%' {
      assert "\\%"[1..] == "%" && "%"[1..] == "";
      assert ReplaceAll("%", '_', "\\_") == "%";
    } else {
      assert [c][1..] == "";
    }
  }

  /******* What the pattern matches *******/

  /** A leading % lets the rest match anywhere. */
  lemma {:induction false} PercentSkips(fold: char -> char, text: string, rest: string)
    ensures ILike(fold, text, "%" + rest) <==> exists i :: 0 <= i <= |text| && ILike(fold, text[i..], rest)
  {
    assert ("%" + rest)[1..] == rest;
    assert text[0..] == text;
    if text != "" {
      PercentSkips(fold, text[1..], rest);
      if i :| 0 <= i <= |text| && ILike(fold, text[i..], rest) {
        assert i > 0 ==> text[1..][i - 1..] == text[i..];
      }
      if i :| 0 <= i <= |text[1..]| && ILike(fold, text[1..][i..], rest) {
        assert text[1..][i..] == text[i + 1..];
      }
    }
  }

  lemma {:induction false} PercentMatchesAll(fold: char -> char, text: string)
    ensures ILike(fold, text, "%")
  {
    assert "%"[1..] == "";
    if text != "" {
      PercentMatchesAll(fold, text[1..]);
    }
  }

  /** Escaped, a query without backslashes matches just itself, up to case. */
  lemma {:induction false} EscapedIsLiteral(fold: char -> char, text: string, q: string)
    requires '\\' !in q
    ensures ILike(fold, text, Escape(q) + "%") <==> |q| <= |text| && FoldsTo(fold, text[..|q|], q)
  {
    if q == "" {
      assert Escape(q) + "%" == "%";
      PercentMatchesAll(fold, text);
    } else {
      var rest := Escape(q[1..]) + "%";
      EscapedStep(fold, text, q[0], rest);
      assert Escape(q) + "%" == EscapeChar(q[0]) + rest;
      if text != "" {
        EscapedIsLiteral(fold, text[1..], q[1..]);
        if |q| <= |text| {
          FoldsToCons(fold, text[..|q|], q);
          assert text[..|q|][1..] == text[1..][..|q| - 1];
        }
      }
    }
  }

  lemma FoldsToCons(fold: char -> char, s: string, w: string)
    requires |s| == |w| > 0
    ensures FoldsTo(fold, s, w) <==> fold(s[0]) == fold(w[0]) && FoldsTo(fold, s[1..], w[1..])
  {
    if fold(s[0]) == fold(w[0]) && FoldsTo(fold, s[1..], w[1..]) {
      forall k | 0 <= k < |s|
        ensures fold(s[k]) == fold(w[k])
      {
        assert k > 0 ==> s[k] == s[1..][k - 1] && w[k] == w[1..][k - 1];
      }
    }
  }

  lemma EscapedStep(fold: char -> char, text: string, c: char, rest: string)
    requires c != '\\'
    ensures ILike(fold, text, EscapeChar(c) + rest)
       <==> text != "" && fold(text[0]) == fold(c) && ILike(fold, text[1..], rest)
  {
    var pattern := EscapeChar(c) + rest;
    if c == '%' || c == '_' {
      assert pattern[2..] == rest;
    } else {
      assert pattern[1..] == rest;
    }
  }

  /** For a query without backslashes the search pattern means "contains this text, up to case". */
  lemma PatternMeansContains(fold: char -> char, text: string, q: string)
    requires '\\' !in q
    ensures ILike(fold, text, SearchPattern(q)) <==> Contains(fold, text, q)
  {
    TwoPassesAreOne(q);
    var rest := Escape(q) + "%";
    assert SearchPattern(q) == "%" + rest;
    PercentSkips(fold, text, rest);
    forall i: nat | i <= |text|
      ensures ILike(fold, text[i..], rest) <==> OccursAt(fold, text, q, i)
    {
      EscapedIsLiteral(fold, text[i..], q);
      assert i + |q| <= |text| ==> text[i..][..|q|] == text[i..i + |q|];
    }
  }

  /** So does the pattern of every query the validator lets through. */
  lemma AcceptedSearchMeansContains(u: Unicode, query: string, text: string)
    requires Faithful(u) && Validate(u, query).Ok?
    ensures var q := Validate(u, query).value;
            ILike(u.fold, text, SearchPattern(q)) <==> Contains(u.fold, text, q)
  {
    var q := Validate(u, query).value;
    assert '\\' !in q by {
      hide Dangerous, Utf8Length;
      assert !IsValidSearchChar(u, '\\');
    }
    PatternMeansContains(u.fold, text, q);
  }

  /******* With backslashes *******/

  /** A text that the escaped query matches although it does not hold the query. */
  function Impostor(q: string): string {
    if q == "" then ""
    else if q[0] != '\\' then [q[0]] + Impostor(q[1..])
    else if |q| == 1 then "%"
    else if q[1] == '%' then "\\" + Impostor(q[2..])
    else if q[1] == '_' then "\\a" + Impostor(q[2..])
    else [q[1]] + Impostor(q[2..])
  }

  lemma PairMatches(fold: char -> char, x: char, text: string, rest: string)
    requires ILike(fold, text, rest)
    ensures ILike(fold, [x] + text, ['\\', x] + rest)
  {
    assert ([x] + text)[1..] == text && (['\\', x] + rest)[2..] == rest;
  }

  lemma WildcardsMatch(fold: char -> char, x: char, text: string, rest: string)
    requires ILike(fold, text, rest)
    ensures ILike(fold, text, "%" + rest) && ILike(fold, [x] + text, "_" + rest)
  {
    assert ([x] + text)[1..] == text && ("%" + rest)[1..] == rest && ("_" + rest)[1..] == rest;
  }

  /** How a backslash in the query swallows the escape, or the character, after it. */
  lemma BackslashSwallows(fold: char -> char, c: char, t: string, rest: string)
    requires ILike(fold, t, rest)
    ensures c == '%' ==> ILike(fold, "\\" + t, "\\" + EscapeChar(c) + rest)
    ensures c == '_' ==> ILike(fold, "\\a" + t, "\\" + EscapeChar(c) + rest)
    ensures c != '%' && c != '_' ==> ILike(fold, [c] + t, "\\" + EscapeChar(c) + rest)
  {
    WildcardsMatch(fold, 'a', t, rest);
    hide ILike;
    if c == '%' {
      PairMatches(fold, '\\', t, "%" + rest);
      assert "\\" + EscapeChar(c) + rest == "\\\\" + ("%" + rest);
    } else if c == '_' {
      PairMatches(fold, '\\', "a" + t, "_" + rest);
      assert "\\" + EscapeChar(c) + rest == "\\\\" + ("_" + rest) && "\\a" + t == "\\" + ("a" + t);
    } else {
      PairMatches(fold, c, t, rest);
      assert "\\" + EscapeChar(c) + rest == ['\\', c] + rest;
    }
  }

  lemma EscapeTwo(q: string)
    requires |q| > 1 && q[0] == '\\'
    ensures Escape(q) + "%" == "\\" + EscapeChar(q[1]) + (Escape(q[2..]) + "%")
  {
    assert q[1..][1..] == q[2..];
  }

  lemma {:induction false} ImpostorMatches(fold: char -> char, q: string)
    ensures ILike(fold, Impostor(q), Escape(q) + "%")
  {
    if q == "" {
      assert Escape(q) + "%" == "%";
      PercentMatchesAll(fold, "");
    } else if q[0] != '\\' {
      hide ILike;
      ImpostorMatches(fold, q[1..]);
      EscapedStep(fold, Impostor(q), q[0], Escape(q[1..]) + "%");
      assert Escape(q) + "%" == EscapeChar(q[0]) + (Escape(q[1..]) + "%");
      assert Impostor(q)[1..] == Impostor(q[1..]);
    } else if |q| == 1 {
      assert Escape(q) + "%" == "\\%" + "" && Impostor(q) == "%" + "";
      PairMatches(fold, '%', "", "");
    } else {
      hide ILike, Escape;
      ImpostorMatches(fold, q[2..]);
      EscapeTwo(q);
      BackslashSwallows(fold, q[1], Impostor(q[2..]), Escape(q[2..]) + "%");
    }
  }

  lemma {:induction false} ImpostorNoLonger(q: string)
    ensures |Impostor(q)| <= |q|
  {
    if q != "" && q[0] != '\\' {
      ImpostorNoLonger(q[1..]);
    } else if |q| > 1 {
      ImpostorNoLonger(q[2..]);
    }
  }

  /** Four characters that no case table confuses. */
  ghost predicate TellsApart(fold: char -> char) {
    fold('a') != fold('_') && fold('%') != fold('\\')
  }

  lemma {:induction false} ImpostorDiffers(fold: char -> char, q: string)
    requires TellsApart(fold) && '\\' in q
    ensures !FoldsTo(fold, Impostor(q), q)
  {
    ImpostorNoLonger(q);
    if q[0] != '\\' {
      ImpostorDiffers(fold, q[1..]);
      if |Impostor(q)| == |q| {
        FoldsToCons(fold, Impostor(q), q);
        assert Impostor(q)[1..] == Impostor(q[1..]);
      }
    } else if |q| == 1 {
      assert Impostor(q)[0] == '%';
    } else {
      ImpostorNoLonger(q[2..]);
      if q[1] == '_' {
        assert Impostor(q)[1] == 'a';
      }
    }
  }

  /** The exact condition: the search pattern means "contains this text" for all texts if and only if the query has
      no backslash. */
  lemma SanitizeSoundIffNoBackslash(fold: char -> char, q: string)
    requires TellsApart(fold)
    ensures '\\' !in q
       <==> forall text :: ILike(fold, text, SearchPattern(q)) <==> Contains(fold, text, q)
  {
    if '\\' !in q {
      forall text: string
        ensures ILike(fold, text, SearchPattern(q)) <==> Contains(fold, text, q)
      {
        PatternMeansContains(fold, text, q);
      }
    } else {
      ImpostorFound(fold, q);
    }
  }

  lemma ImpostorFound(fold: char -> char, q: string)
    requires TellsApart(fold) && '\\' in q
    ensures ILike(fold, Impostor(q), SearchPattern(q)) && !Contains(fold, Impostor(q), q)
  {
    var text := Impostor(q);
    TwoPassesAreOne(q);
    assert SearchPattern(q) == "%" + (Escape(q) + "%");
    ImpostorMatches(fold, q);
    assert text[0..] == text;
    PercentSkips(fold, text, Escape(q) + "%");
    ImpostorNoLonger(q);
    ImpostorDiffers(fold, q);
    assert |text| == |q| ==> text[0..|q|] == text;
  }
}
