/** The Redis keys of the user cache, the gRPC rate limiter and the Gin rate limiter, which share one server. */
module Keys {
  const DIGITS: string := "0123456789"

  /** A non-negative number printed in decimal. */
  function Digits(n: nat): (s: string)
    ensures |s| > 0 && forall c :: c in s ==> c in DIGITS
  {
    if n < 10 then [DIGITS[n]] else Digits(n / 10) + [DIGITS[n % 10]]
  }

  /** The verb %d. */
  function Decimal(id: int): string {
    if id < 0 then "-" + Digits(-id) else Digits(id)
  }

  function CacheKey(id: int): string { "user:" + Decimal(id) }

  const BUCKET_PREFIX: string := "ratelimit:tb:"

  function GrpcKey(fullMethod: string, ip: string): string { BUCKET_PREFIX + fullMethod + ":" + ip }

  function GinKey(verb: string, path: string, ip: string): string {
    BUCKET_PREFIX + verb + ":" + path + ":" + ip
  }

  predicate IsCacheKey(key: string) { "user:" <= key }

  /** gRPC's full methods start with a slash. */
  predicate IsGrpcKey(key: string) { BUCKET_PREFIX + "/" <= key }

  /** An HTTP method is a token (section 5.6.2 of RFC 9110), so no slash follows the prefix. */
  predicate IsGinKey(key: string) { BUCKET_PREFIX <= key && !IsGrpcKey(key) }

  lemma KeyExamples()
    ensures CacheKey(42) == "user:42" && CacheKey(-7) == "user:-7"
    ensures GrpcKey("/U/Get", "::1") == "ratelimit:tb:/U/Get:::1"
    ensures GinKey("GET", "/v1", "::1") == "ratelimit:tb:GET:/v1:::1"
  {
    DecimalExamples();
    hide Decimal;
  }

  lemma DecimalExamples()
    ensures Decimal(42) == "42" && Decimal(-7) == "-7"
  {
    assert Digits(4) == "4" && Digits(42) == Digits(4) + "2" && Digits(7) == "7";
  }

  /******* Injectivity *******/

  function ParseDigits(s: string): int {
    if s == "" then 0 else ParseDigits(s[..|s| - 1]) * 10 + (s[|s| - 1] as int - '0' as int)
  }

  lemma {:induction false} ParsePrinted(n: nat)
    ensures ParseDigits(Digits(n)) == n
  {
    assert forall i: nat :: i < 10 ==> DIGITS[i] as int - '0' as int == i;
    if n >= 10 {
      ParsePrinted(n / 10);
      assert Digits(n)[..|Digits(n)| - 1] == Digits(n / 10);
    } else {
      assert Digits(n)[..0] == "";
    }
  }

  lemma SignShown(id: int)
    ensures |Decimal(id)| > 0 && (Decimal(id)[0] == '-' <==> id < 0)
  {
    assert forall n: nat :: Digits(n)[0] in DIGITS;
  }

  lemma DecimalInjective(a: int, b: int)
    requires Decimal(a) == Decimal(b)
    ensures a == b
  {
    SignShown(a);
    SignShown(b);
    ParsePrinted(if a < 0 then -a else a);
    ParsePrinted(if b < 0 then -b else b);
    if a < 0 {
      assert Digits(-a) == Decimal(a)[1..] == Decimal(b)[1..] == Digits(-b);
    }
  }

  /** Different ids never share a cache entry. */
  lemma CacheKeyInjective(a: int, b: int)
    requires CacheKey(a) == CacheKey(b)
    ensures a == b
  {
    assert Decimal(a) == CacheKey(a)[5..] == CacheKey(b)[5..] == Decimal(b);
    DecimalInjective(a, b);
  }

  lemma FirstColon(m: string, rest: string, k: nat)
    requires ':' !in m && k <= |m|
    ensures (m + ":" + rest)[k] == ':' <==> k == |m|
  {
    assert k < |m| ==> (m + ":" + rest)[k] == m[k];
  }

  lemma ColonSplits(m: string, rest: string, n: string, rest': string)
    requires ':' !in m && ':' !in n && m + ":" + rest == n + ":" + rest'
    ensures m == n && rest == rest'
  {
    var whole := m + ":" + rest;
    var shorter := if |m| < |n| then |m| else |n|;
    FirstColon(m, rest, shorter);
    FirstColon(n, rest', shorter);
    assert m == whole[..|m|] && n == whole[..|n|];
    assert rest == whole[|m| + 1..] && rest' == whole[|n| + 1..];
  }

  /** Two gRPC calls share a bucket only if they come from one client to one method. */
  lemma GrpcKeyInjective(m: string, ip: string, n: string, ip': string)
    requires ':' !in m && ':' !in n && GrpcKey(m, ip) == GrpcKey(n, ip')
    ensures m == n && ip == ip'
  {
    assert m + ":" + ip == GrpcKey(m, ip)[|BUCKET_PREFIX|..];
    assert n + ":" + ip' == GrpcKey(n, ip')[|BUCKET_PREFIX|..];
    ColonSplits(m, ip, n, ip');
  }

  /** The condition on the method matters: with a colon in it, two different calls meet on one bucket. */
  lemma ColonInMethodCollides()
    ensures GrpcKey("/a", "b:c") == GrpcKey("/a:b", "c")
  {
  }

  /** The first part of an address with colons has moved to the end of the path. */
  ghost predicate PartMoved(path: string, ip: string, path': string, ip': string) {
    exists part: string :: Moves(part, path, ip, path', ip')
  }

  predicate Moves(part: string, path: string, ip: string, path': string, ip': string) {
    path' == path + ":" + part && ip == part + ":" + ip'
  }

  lemma MovedGivesSame(path: string, ip: string, path': string, ip': string)
    requires PartMoved(path, ip, path', ip')
    ensures path + ":" + ip == path' + ":" + ip'
  {
    var part: string :| Moves(part, path, ip, path', ip');
    assert path + ":" + (part + ":" + ip') == (path + ":" + part) + ":" + ip';
  }

  lemma SameGivesMoved(path: string, ip: string, path': string, ip': string)
    requires path + ":" + ip == path' + ":" + ip' && |path| < |path'|
    ensures PartMoved(path, ip, path', ip')
  {
    var whole := path + ":" + ip;
    var part := path'[|path| + 1..];
    assert path' == whole[..|path'|] == path + ":" + part;
    assert ip == whole[|path| + 1..] == part + ":" + ip';
    assert Moves(part, path, ip, path', ip');
  }

  /** Two Gin calls share a bucket exactly when they have the same method, and the same path and address or a part of
      one address, up to a colon, at the end of the other path. */
  lemma GinKeySharedIff(verb: string, path: string, ip: string, verb': string, path': string, ip': string)
    requires ':' !in verb && ':' !in verb'
    ensures GinKey(verb, path, ip) == GinKey(verb', path', ip')
       <==> verb == verb' && ((path == path' && ip == ip') || PartMoved(path, ip, path', ip')
                                                           || PartMoved(path', ip', path, ip))
  {
    hide PartMoved;
    var rest, rest' := path + ":" + ip, path' + ":" + ip';
    assert GinKey(verb, path, ip) == BUCKET_PREFIX + (verb + ":" + rest);
    assert GinKey(verb', path', ip') == BUCKET_PREFIX + (verb' + ":" + rest');
    assert GinKey(verb, path, ip)[|BUCKET_PREFIX|..] == verb + ":" + rest;
    assert GinKey(verb', path', ip')[|BUCKET_PREFIX|..] == verb' + ":" + rest';
    if GinKey(verb, path, ip) == GinKey(verb', path', ip') {
      ColonSplits(verb, rest, verb', rest');
      SameRest(path, ip, path', ip');
    }
    if PartMoved(path, ip, path', ip') {
      MovedGivesSame(path, ip, path', ip');
    }
    if PartMoved(path', ip', path, ip) {
      MovedGivesSame(path', ip', path, ip);
    }
  }

  lemma SameRest(path: string, ip: string, path': string, ip': string)
    requires path + ":" + ip == path' + ":" + ip'
    ensures (path == path' && ip == ip') || PartMoved(path, ip, path', ip') || PartMoved(path', ip', path, ip)
  {
    hide PartMoved;
    if |path| < |path'| {
      SameGivesMoved(path, ip, path', ip');
    } else if |path'| < |path| {
      SameGivesMoved(path', ip', path, ip);
    } else {
      var whole := path + ":" + ip;
      assert path == whole[..|path|] == path' && ip == whole[|path| + 1..] == ip';
    }
  }

  /** So addresses without a colon keep their buckets apart. */
  lemma GinKeyInjective(verb: string, path: string, ip: string, verb': string, path': string, ip': string)
    requires ':' !in verb && ':' !in verb' && ':' !in ip && ':' !in ip'
    requires GinKey(verb, path, ip) == GinKey(verb', path', ip')
    ensures verb == verb' && path == path' && ip == ip'
  {
    GinKeySharedIff(verb, path, ip, verb', path', ip');
    hide GinKey;
    assert !PartMoved(path, ip, path', ip') && !PartMoved(path', ip', path, ip);
  }

  /** Two addresses of version 6 that do not. */
  lemma GinKeysCollide()
    ensures GinKey("GET", "/v1/users", "2001:db8::1") == GinKey("GET", "/v1/users:2001", "db8::1")
  {
  }

  /******* Separation *******/

  /** Every key a component makes up is of its own kind, and no key is of two kinds. */
  lemma KindsOfKeys(id: int, fullMethod: string, ip: string, verb: string, path: string)
    requires fullMethod != "" && fullMethod[0] == '/'
    requires verb != "" ==> verb[0] != '/'
    ensures IsCacheKey(CacheKey(id)) && IsGrpcKey(GrpcKey(fullMethod, ip)) && IsGinKey(GinKey(verb, path, ip))
    ensures forall key: string :: !(IsCacheKey(key) && IsGrpcKey(key))
                               && !(IsCacheKey(key) && IsGinKey(key))
                               && !(IsGrpcKey(key) && IsGinKey(key))
  {
    assert GrpcKey(fullMethod, ip)[|BUCKET_PREFIX|] == '/';
    assert GinKey(verb, path, ip)[|BUCKET_PREFIX|] != '/';
    forall key: string
      ensures !(IsCacheKey(key) && BUCKET_PREFIX <= key)
    {
      assert IsCacheKey(key) ==> key[0] == 'u';
      assert BUCKET_PREFIX <= key ==> key[0] == 'r';
    }
  }
}
