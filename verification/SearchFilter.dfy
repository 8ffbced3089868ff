/** ValidateSearchQuery: which search queries are let through. Unicode's character classes and case tables are
    parameters; strings are sequences of code points, and their length is counted in UTF-8 bytes as Go does. */
module SearchFilter {
  import opened Options
  import opened Regex

  datatype Unicode = Unicode(isSpace: char -> bool, isLetterOrNumber: char -> bool,
                             lower: char -> char, fold: char -> char)

  const MAX_LENGTH: int := 100
  const PUNCTUATION: string := " -_.@+#*%"
  const FORBIDDEN: string := "=/<:-#"

  /** What is used of the tables: backslash and the forbidden punctuation are neither letters nor numbers, and no other
      character is a case variant of the punctuation. */
  ghost predicate Faithful(u: Unicode) {
    && (forall c :: c in FORBIDDEN || c == '\\' ==> !u.isLetterOrNumber(c))
    && (forall c, d :: d in FORBIDDEN ==> (u.fold(u.lower(c)) == u.fold(d) <==> c == d))
  }

  /** The ASCII part of the tables, as an example that meets these conditions. */
  function Ascii(): Unicode {
    var lower := (c: char) => if 'A' <= c <= 'Z' then (c as int + 32) as char else c;
    Unicode(c => c == ' ' || '\t' <= c <= '\r',
            c => '0' <= c <= '9' || 'a' <= c <= 'z' || 'A' <= c <= 'Z',
            lower, lower)
  }

  lemma AsciiIsFaithful()
    ensures Faithful(Ascii())
  {
  }

  datatype Rejection = TooLong | InvalidCharacters

  /** len(query) */
  function Utf8Length(s: string): (n: nat)
    ensures n >= |s|
  {
    if s == "" then 0 else Utf8Length(s[1..]) + CharLength(s[0])
  }

  function CharLength(c: char): (n: nat)
    ensures 1 <= n <= 4
  {
    var code := c as int;
    if code < 0x80 then 1 else if code < 0x800 then 2 else if code < 0x1_0000 then 3 else 4
  }

  function TrimLeft(u: Unicode, s: string): string {
    if s != "" && u.isSpace(s[0]) then TrimLeft(u, s[1..]) else s
  }

  function TrimRight(u: Unicode, s: string): string {
    if s != "" && u.isSpace(s[|s| - 1]) then TrimRight(u, s[..|s| - 1]) else s
  }

  function TrimSpace(u: Unicode, s: string): string { TrimRight(u, TrimLeft(u, s)) }

  function ToLower(u: Unicode, s: string): (t: string)
    ensures |t| == |s| && forall i :: 0 <= i < |s| ==> t[i] == u.lower(s[i])
  {
    seq(|s|, i requires 0 <= i < |s| => u.lower(s[i]))
  }

  predicate IsValidSearchChar(u: Unicode, c: char) { u.isLetterOrNumber(c) || c in PUNCTUATION }

  /******* The pattern table *******/

  const SQL_WORDS: seq<string> :=
    ["union", "select", "insert", "update", "delete", "drop", "create", "alter", "exec", "execute"]
  const DELAY_WORDS: seq<string> := ["waitfor", "delay", "benchmark", "sleep"]
  const COMMENT_MARKS: seq<string> := ["--", "#", "/*", "*/"]
  const SCRIPT_MARKS: seq<string> := ["<script", "</script", "javascript:", "vbscript:", "onload=", "onerror="]
  const WHITE: Regex := OneOf(" \t\n\r\U{0C}")
  const NUMBER: Regex := Plus(OneOf("0123456789"))
  const OR_AND: Regex := AnyWord(["or", "and"])
  const QUOTED: Regex := Cat(OneOf("'\""), Cat(Star(AnyChar), OneOf("'\"")))
  const EQUALS: Regex := Cat(Star(WHITE), Cat(Lit('='), Star(WHITE)))
  const NUMERIC_TAUTOLOGY: Regex := Cat(OR_AND, Cat(Plus(WHITE), Cat(NUMBER, Cat(EQUALS, NUMBER))))
  const QUOTED_TAUTOLOGY: Regex := Cat(OR_AND, Cat(Plus(WHITE), Cat(QUOTED, Cat(EQUALS, QUOTED))))

  function DangerousPatterns(): seq<Regex> {
    [AnyWord(SQL_WORDS), NUMERIC_TAUTOLOGY, QUOTED_TAUTOLOGY, AnyWord(COMMENT_MARKS), AnyWord(DELAY_WORDS),
     AnyWord(SCRIPT_MARKS)]
  }

  /******* Validation *******/

  predicate Dangerous(u: Unicode, s: string) {
    exists p :: p in DangerousPatterns() && Found(u.fold, p, s)
  }

  predicate AllCharsValid(u: Unicode, s: string) {
    forall c :: c in s ==> IsValidSearchChar(u, c)
  }

  function Validate(u: Unicode, query: string): Result<string, Rejection> {
    if query == "" then Ok("")
    else if Utf8Length(query) > MAX_LENGTH then Err(TooLong)
    else
      var trimmed := TrimSpace(u, query);
      if Dangerous(u, ToLower(u, trimmed)) || !AllCharsValid(u, trimmed) then Err(InvalidCharacters)
      else Ok(trimmed)
  }

  method ValidateSearchQuery(u: Unicode, input: string) returns (r: Result<string, Rejection>)
    ensures r == Validate(u, input)
  {
    hide Found, Utf8Length, TrimSpace, DangerousPatterns;
    var query := input;
    if query == "" {
      return Ok("");
    }
    if Utf8Length(query) > MAX_LENGTH {
      return Err(TooLong);
    }
    query := TrimSpace(u, query);
    var lowerQuery := ToLower(u, query);
    var patterns := DangerousPatterns();
    for i := 0 to |patterns|
      invariant forall j :: 0 <= j < i ==> !Found(u.fold, patterns[j], lowerQuery)
    {
      if Found(u.fold, patterns[i], lowerQuery) {
        return Err(InvalidCharacters);
      }
    }
    for i := 0 to |query|
      invariant forall j :: 0 <= j < i ==> IsValidSearchChar(u, query[j])
    {
      if !IsValidSearchChar(u, query[i]) {
        return Err(InvalidCharacters);
      }
    }
    return Ok(query);
  }

  /******* Normal form *******/

  predicate ContainsWord(u: Unicode, s: string, w: string) { Contains(u.fold, ToLower(u, s), w) }

  predicate DoubleDash(s: string) {
    exists i :: 0 <= i < |s| - 1 && s[i] == '-' && s[i + 1] == '-'
  }

  /** What it takes to pass: allowed characters, none of the SQL and delay keywords, no "--" and no '#'. */
  predicate Clean(u: Unicode, s: string) {
    && AllCharsValid(u, s)
    && (forall w :: w in SQL_WORDS + DELAY_WORDS ==> !ContainsWord(u, s, w))
    && !DoubleDash(s)
    && '#' !in s
  }

  lemma LowerFoldsTo(u: Unicode, s: string, k: nat, c: char)
    requires Faithful(u) && c in FORBIDDEN
    requires k < |s| && u.fold(ToLower(u, s)[k]) == u.fold(c)
    ensures s[k] == c
  {
    assert ToLower(u, s)[k] == u.lower(s[k]);
  }

  /** An occurrence of a mark shows its characters in the text itself. */
  lemma MarkShows(u: Unicode, s: string, w: string, k: nat)
    requires Faithful(u) && k < |w| && w[k] in FORBIDDEN && ContainsWord(u, s, w)
    ensures w[k] in s
  {
    var t := ToLower(u, s);
    var i :| 0 <= i <= |t| && OccursAt(u.fold, t, w, i);
    assert t[i..i + |w|][k] == t[i + k];
    LowerFoldsTo(u, s, i + k, w[k]);
  }

  lemma DoubleDashFound(u: Unicode, s: string)
    requires Faithful(u)
    ensures ContainsWord(u, s, "--") <==> DoubleDash(s)
  {
    var t := ToLower(u, s);
    if ContainsWord(u, s, "--") {
      var i :| 0 <= i <= |t| && OccursAt(u.fold, t, "--", i);
      assert t[i..i + 2][0] == t[i] && t[i..i + 2][1] == t[i + 1];
      LowerFoldsTo(u, s, i, '-');
      LowerFoldsTo(u, s, i + 1, '-');
    }
    if DoubleDash(s) {
      var i :| 0 <= i < |s| - 1 && s[i] == '-' && s[i + 1] == '-';
      assert OccursAt(u.fold, t, "--", i);
    }
  }

  lemma HashFound(u: Unicode, s: string)
    requires Faithful(u)
    ensures ContainsWord(u, s, "#") <==> '#' in s
  {
    if ContainsWord(u, s, "#") {
      MarkShows(u, s, "#", 0);
    }
    if i :| 0 <= i < |s| && s[i] == '#' {
      assert OccursAt(u.fold, ToLower(u, s), "#", i);
    }
  }

  /** The comment marks with a slash cannot occur among allowed characters; the other two can. */
  lemma CommentsFound(u: Unicode, s: string)
    requires Faithful(u) && AllCharsValid(u, s)
    ensures Found(u.fold, AnyWord(COMMENT_MARKS), ToLower(u, s)) <==> DoubleDash(s) || '#' in s
  {
    hide FoldsTo, OccursAt, Contains;
    AnyWordFound(u.fold, COMMENT_MARKS, ToLower(u, s));
    DoubleDashFound(u, s);
    HashFound(u, s);
    if ContainsWord(u, s, "/*") {
      MarkShows(u, s, "/*", 0);
    }
    if ContainsWord(u, s, "*/") {
      MarkShows(u, s, "*/", 1);
    }
    assert COMMENT_MARKS[0] == "--" && COMMENT_MARKS[1] == "#";
  }

  /** Characters of the marks that the character filter does not allow. */
  const NEVER_ALLOWED: string := "=/<:"

  lemma NeverAllowedAbsent(u: Unicode, s: string, c: char)
    requires Faithful(u) && AllCharsValid(u, s) && c in NEVER_ALLOWED
    ensures c in FORBIDDEN && c !in s
  {
    assert c !in PUNCTUATION;
  }

  /** Each script mark holds such a character; the result says where. */
  lemma ScriptMarkHasOne(w: string) returns (k: nat)
    requires w in SCRIPT_MARKS
    ensures k < |w| && w[k] in NEVER_ALLOWED
  {
    k := if w[0] == '<' then 0 else |w| - 1;
  }

  lemma ScriptsNeverFound(u: Unicode, s: string)
    requires Faithful(u) && AllCharsValid(u, s)
    ensures !Found(u.fold, AnyWord(SCRIPT_MARKS), ToLower(u, s))
  {
    hide FoldsTo, OccursAt, Contains, Found, AnyWord, Faithful, AllCharsValid;
    AnyWordFound(u.fold, SCRIPT_MARKS, ToLower(u, s));
    if w :| w in SCRIPT_MARKS && ContainsWord(u, s, w) {
      var k := ScriptMarkHasOne(w);
      NeverAllowedAbsent(u, s, w[k]);
      MarkShows(u, s, w, k);
    }
  }

  lemma PatternNeverFound(u: Unicode, s: string, r: Regex)
    requires Faithful(u) && AllCharsValid(u, s) && MustContain(r, '=')
    ensures !Found(u.fold, r, ToLower(u, s))
  {
    if Found(u.fold, r, ToLower(u, s)) {
      var k := FoundMustContain(u.fold, r, '=', ToLower(u, s));
      LowerFoldsTo(u, s, k, '=');
      NeverAllowedAbsent(u, s, '=');
    }
  }

  /** Both tautology patterns need an equals sign. */
  lemma TautologiesNeverFound(u: Unicode, s: string)
    requires Faithful(u) && AllCharsValid(u, s)
    ensures !Found(u.fold, NUMERIC_TAUTOLOGY, ToLower(u, s)) && !Found(u.fold, QUOTED_TAUTOLOGY, ToLower(u, s))
  {
    assert MustContain(EQUALS, '=');
    PatternNeverFound(u, s, NUMERIC_TAUTOLOGY);
    PatternNeverFound(u, s, QUOTED_TAUTOLOGY);
  }

  lemma DangerousIff(u: Unicode, s: string)
    requires Faithful(u) && AllCharsValid(u, s)
    ensures Dangerous(u, ToLower(u, s)) <==> !Clean(u, s)
  {
    hide Found, Contains, MustContain, Matches, AnyWord, Faithful, AllCharsValid;
    var t := ToLower(u, s);
    AnyWordFound(u.fold, SQL_WORDS, t);
    AnyWordFound(u.fold, DELAY_WORDS, t);
    CommentsFound(u, s);
    ScriptsNeverFound(u, s);
    TautologiesNeverFound(u, s);
    var ps := DangerousPatterns();
    assert ps[0] == AnyWord(SQL_WORDS) && ps[3] == AnyWord(COMMENT_MARKS) && ps[4] == AnyWord(DELAY_WORDS);
    assert forall w :: w in SQL_WORDS + DELAY_WORDS <==> w in SQL_WORDS || w in DELAY_WORDS;
  }

  /** The queries accepted are exactly those of at most 100 bytes whose trimmed text is clean; what is passed on is
      the trimmed text. */
  lemma NormalForm(u: Unicode, query: string)
    requires Faithful(u)
    ensures Validate(u, query).Ok? <==> Utf8Length(query) <= 100 && Clean(u, TrimSpace(u, query))
    ensures Validate(u, query).Ok? ==> Validate(u, query).value == TrimSpace(u, query)
    ensures Validate(u, query) == Err(TooLong) <==> Utf8Length(query) > 100
  {
    var trimmed := TrimSpace(u, query);
    hide Clean, Dangerous, Utf8Length;
    if AllCharsValid(u, trimmed) {
      DangerousIff(u, trimmed);
    } else {
      UncleanChars(u, trimmed);
    }
    if query == "" {
      EmptyIsClean(u);
    }
  }

  lemma UncleanChars(u: Unicode, s: string)
    requires !AllCharsValid(u, s)
    ensures !Clean(u, s)
  {
  }

  lemma EmptyIsClean(u: Unicode)
    ensures Clean(u, "") && Utf8Length("") == 0
  {
    forall w | w in SQL_WORDS + DELAY_WORDS
      ensures !ContainsWord(u, "", w)
    {
      assert w != "";
    }
  }

  /******* Validating twice *******/

  lemma {:induction false} TrimLeftStops(u: Unicode, s: string)
    ensures var t := TrimLeft(u, s);
            && (t != "" ==> !u.isSpace(t[0]))
            && Utf8Length(t) <= Utf8Length(s)
  {
    if s != "" && u.isSpace(s[0]) {
      TrimLeftStops(u, s[1..]);
    }
  }

  lemma {:induction false} TrimRightStops(u: Unicode, s: string)
    ensures var t := TrimRight(u, s);
            && t <= s
            && (t != "" ==> !u.isSpace(t[|t| - 1]))
            && Utf8Length(t) <= Utf8Length(s)
  {
    if s != "" && u.isSpace(s[|s| - 1]) {
      TrimRightStops(u, s[..|s| - 1]);
      Utf8OfInit(s);
    }
  }

  lemma {:induction false} Utf8OfInit(s: string)
    requires s != ""
    ensures Utf8Length(s[..|s| - 1]) <= Utf8Length(s)
  {
    if |s| > 1 {
      Utf8OfInit(s[1..]);
      assert s[..|s| - 1][1..] == s[1..][..|s| - 2];
    }
  }

  lemma TrimTwice(u: Unicode, s: string)
    ensures var t := TrimSpace(u, s);
            TrimSpace(u, t) == t && Utf8Length(t) <= Utf8Length(s)
  {
    var l := TrimLeft(u, s);
    TrimLeftStops(u, s);
    TrimRightStops(u, l);
    var t := TrimSpace(u, s);
    assert t != "" ==> t[0] == l[0];
    assert TrimLeft(u, t) == t;
  }

  ghost predicate AllSpace(u: Unicode, s: string) {
    forall c :: c in s ==> u.isSpace(c)
  }

  ghost predicate NoSpaceAtEnds(u: Unicode, s: string) {
    s != "" ==> !u.isSpace(s[0]) && !u.isSpace(s[|s| - 1])
  }

  /** Trimming takes white space off both ends, all of it, and nothing else. */
  lemma TrimmedParts(u: Unicode, s: string) returns (left: string, right: string)
    ensures s == left + TrimSpace(u, s) + right
    ensures AllSpace(u, left) && AllSpace(u, right) && NoSpaceAtEnds(u, TrimSpace(u, s))
  {
    left := TrimmedLeft(u, s);
    TrimLeftStops(u, s);
    var rest := TrimLeft(u, s);
    right := TrimmedRight(u, rest);
    TrimRightStops(u, rest);
    assert s == left + (TrimSpace(u, s) + right);
    assert TrimSpace(u, s) != "" ==> TrimSpace(u, s)[0] == rest[0];
  }

  lemma {:induction false} TrimmedLeft(u: Unicode, s: string) returns (left: string)
    ensures s == left + TrimLeft(u, s) && AllSpace(u, left)
  {
    if s != "" && u.isSpace(s[0]) {
      left := TrimmedLeft(u, s[1..]);
      left := [s[0]] + left;
    } else {
      left := "";
    }
  }

  lemma {:induction false} TrimmedRight(u: Unicode, s: string) returns (right: string)
    ensures s == TrimRight(u, s) + right && AllSpace(u, right)
  {
    if s != "" && u.isSpace(s[|s| - 1]) {
      right := TrimmedRight(u, s[..|s| - 1]);
      right := right + [s[|s| - 1]];
    } else {
      right := "";
    }
  }

  /** That determines the result: of every text that is `mid` between white space, trimming leaves `mid`. */
  lemma TrimUnique(u: Unicode, left: string, mid: string, right: string)
    requires AllSpace(u, left) && AllSpace(u, right) && NoSpaceAtEnds(u, mid)
    ensures TrimSpace(u, left + mid + right) == mid
  {
    assert left + mid + right == left + (mid + right);
    TrimLeftOver(u, left, mid + right);
    if mid == "" {
      assert mid + right == right + "";
      TrimLeftOver(u, right, "");
    } else {
      assert TrimLeft(u, mid + right) == mid + right;
      TrimRightOver(u, mid, right);
      assert TrimRight(u, mid) == mid;
    }
  }

  lemma {:induction false} TrimLeftOver(u: Unicode, left: string, s: string)
    requires AllSpace(u, left)
    ensures TrimLeft(u, left + s) == TrimLeft(u, s)
  {
    if left == "" {
      assert left + s == s;
    } else {
      assert (left + s)[1..] == left[1..] + s;
      TrimLeftOver(u, left[1..], s);
    }
  }

  lemma {:induction false} TrimRightOver(u: Unicode, s: string, right: string)
    requires AllSpace(u, right)
    ensures TrimRight(u, s + right) == TrimRight(u, s)
  {
    if right == "" {
      assert s + right == s;
    } else {
      var n := |right| - 1;
      assert (s + right)[..|s| + n] == s + right[..n];
      TrimRightOver(u, s, right[..n]);
    }
  }

  /** A clean query of at most 100 bytes without white space at its ends is passed on as it is. */
  lemma CleanPassesUnchanged(u: Unicode, query: string)
    requires Faithful(u) && Utf8Length(query) <= 100 && Clean(u, query) && NoSpaceAtEnds(u, query)
    ensures Validate(u, query) == Ok(query)
  {
    TrimUnique(u, "", query, "");
    assert "" + query + "" == query;
    NormalForm(u, query);
  }

  /******* Lengths in bytes *******/

  /** UTF-8 gives a character of n bytes 7 payload bits for n = 1, and 5n + 1 above. */
  function Payload(n: nat): nat { if n == 1 then 7 else 5 * n + 1 }

  function Power2(n: nat): nat { if n == 0 then 1 else 2 * Power2(n - 1) }

  /** A character takes the fewest bytes it fits in. */
  lemma CharLengthIsUtf8(c: char, n: nat)
    requires 1 <= n <= 4
    ensures CharLength(c) <= n <==> c as int < Power2(Payload(n))
  {
    assert Power2(7) == 0x80;
    assert Power2(11) == 16 * Power2(7);
    assert Power2(16) == 32 * Power2(11);
    assert Power2(21) == 32 * Power2(16);
  }

  /** Lengths add up, starting from that of single characters. */
  lemma {:induction false} Utf8LengthAdds(s: string, t: string)
    ensures Utf8Length(s + t) == Utf8Length(s) + Utf8Length(t)
    ensures forall c: char :: Utf8Length([c]) == CharLength(c)
  {
    if s == "" {
      assert s + t == t;
    } else {
      assert (s + t)[1..] == s[1..] + t;
      Utf8LengthAdds(s[1..], t);
    }
  }

  /** What validation passes on, it accepts again and leaves as it is. */
  lemma ValidationIdempotent(u: Unicode, query: string)
    requires Faithful(u) && Validate(u, query).Ok?
    ensures Validate(u, Validate(u, query).value) == Validate(u, query)
  {
    var t := TrimSpace(u, query);
    NormalForm(u, query);
    TrimTwice(u, query);
    NormalForm(u, t);
  }

  /** The character filter lets '#' through, but the pattern table never does. */
  lemma HashNeverAccepted(u: Unicode, query: string)
    requires Faithful(u) && Validate(u, query).Ok?
    ensures IsValidSearchChar(u, '#') && '#' !in Validate(u, query).value
  {
    NormalForm(u, query);
  }
}
