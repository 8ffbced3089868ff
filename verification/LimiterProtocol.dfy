/** Unboundedly many gRPC calls on one limiter: TIME and EVAL are separate steps, any call may be overtaken
    between them, and either may fail. */
module LimiterProtocol {
  import opened Options
  import opened TokenBucket
  import opened BucketExpiry
  import opened Redis
  import opened RateLimiter
  import opened Outages
  import Keys

  /** Before TIME, before EVAL, and done. `asked` is the server's clock at TIME, None if that failed; the call itself
      only learns the whole seconds. */
  datatype Call =
    | AskingTime(key: string)
    | AskingScript(key: string, asked: Option<real>)
    | Finished(key: string)

  function Seconds(asked: Option<real>): Option<int> {
    if asked.Some? then Some(asked.value.Floor) else None
  }

  /** An execution of the script on the server. */
  datatype Execution = Execution(key: string, request: Request, asked: Option<real>, allowed: bool)

  /** What a call came to: whether its handler ran, and whether the script's answer was missing. */
  datatype Answer = Answer(key: string, handled: bool, failed: bool)

  datatype State = State(clock: real, store: Store, calls: seq<Call>,
                         executions: seq<Execution>, answers: seq<Answer>)

  const START: State := State(0.0, map[], [], [], [])

  datatype Event =
    | Advance(to: real)
    | Arrive(fullMethod: string, ip: string)
    | TimeReply(call: nat, ok: bool)
    | ScriptReply(call: nat, link: Link)

  predicate Enabled(s: State, e: Event) {
    match e
    case Advance(to) => s.clock <= to
    case Arrive(_, _) => true
    case TimeReply(c, _) => c < |s.calls| && s.calls[c].AskingTime?
    case ScriptReply(c, _) => c < |s.calls| && s.calls[c].AskingScript?
  }

  function Next(p: Params, s: State, e: Event): State
    requires Enabled(s, e)
  {
    match e
    case Advance(to) => s.(clock := to)
    case Arrive(m, ip) => s.(calls := s.calls + [AskingTime(Keys.GrpcKey(m, ip))])
    case TimeReply(c, ok) =>
      s.(calls := s.calls[c := AskingScript(s.calls[c].key, if ok then Some(s.clock) else None)])
    case ScriptReply(c, link) =>
      var call := s.calls[c];
      var (store, handled) := Limit(s.store, call.key, p, Seconds(call.asked), link, s.clock);
      var request := Request(s.clock, Stamp(Seconds(call.asked)));
      var reply := RunScript(s.store, call.key, p, request).1;
      var executed := !link.Unreachable? && reply.Some?;
      s.(store := store,
         calls := s.calls[c := Finished(call.key)],
         executions := s.executions + if executed then [Execution(call.key, request, call.asked, reply.value)] else [],
         answers := s.answers + [Answer(call.key, handled, link != Replied || reply.None?)])
  }

  predicate ValidRun(p: Params, s: State, es: seq<Event>)
    decreases |es|
  {
    es == [] || (Enabled(s, es[0]) && ValidRun(p, Next(p, s, es[0]), es[1..]))
  }

  function Exec(p: Params, s: State, es: seq<Event>): State
    requires ValidRun(p, s, es)
    decreases |es|
  {
    if es == [] then s else Exec(p, Next(p, s, es[0]), es[1..])
  }

  /******* One key *******/

  function RequestsOn(xs: seq<Execution>, key: string): (reqs: seq<Request>)
    ensures |reqs| <= |xs|
  {
    if xs == [] then []
    else
      var x := xs[|xs| - 1];
      RequestsOn(xs[..|xs| - 1], key) + if x.key == key then [x.request] else []
  }

  function VerdictsOn(xs: seq<Execution>, key: string): (verdicts: seq<bool>)
    ensures |verdicts| == |RequestsOn(xs, key)|
  {
    if xs == [] then []
    else
      var x := xs[|xs| - 1];
      VerdictsOn(xs[..|xs| - 1], key) + if x.key == key then [x.allowed] else []
  }

  function HandledOn(answers: seq<Answer>, key: string): nat {
    if answers == [] then 0
    else
      var a := answers[|answers| - 1];
      HandledOn(answers[..|answers| - 1], key) + if a.key == key && a.handled then 1 else 0
  }

  function FailedOn(answers: seq<Answer>, key: string): nat {
    if answers == [] then 0
    else
      var a := answers[|answers| - 1];
      FailedOn(answers[..|answers| - 1], key) + if a.key == key && a.failed then 1 else 0
  }

  /** The state, as one key sees it, is that of a run of the bucket on the requests that reached the key. */
  ghost predicate KeyInvariant(p: Params, s: State, key: string) {
    var reqs := RequestsOn(s.executions, key);
    && (reqs == [] ==> key !in s.store)
    && (reqs != [] ==>
          var slot := SlotAt(p, reqs, |reqs|).value;
          key in s.store && s.store[key] == Entry(BucketHash(slot.bucket), slot.expiresAt))
    && InOrder(reqs)
    && (reqs != [] ==> reqs[|reqs| - 1].at <= s.clock)
    && forall i: nat :: i < |reqs| ==> (VerdictsOn(s.executions, key)[i] <==> AllowedWithExpiry(p, reqs, i))
  }

  lemma {:induction false} SlotOfPrefix(p: Params, reqs: seq<Request>, r: Request, n: nat)
    requires n <= |reqs|
    ensures SlotAt(p, reqs + [r], n) == SlotAt(p, reqs, n)
  {
    if n > 0 {
      SlotOfPrefix(p, reqs, r, n - 1);
    }
  }

  lemma AppendExecution(xs: seq<Execution>, x: Execution, key: string)
    ensures RequestsOn(xs + [x], key) == if x.key == key then RequestsOn(xs, key) + [x.request] else RequestsOn(xs, key)
    ensures VerdictsOn(xs + [x], key) == if x.key == key then VerdictsOn(xs, key) + [x.allowed] else VerdictsOn(xs, key)
  {
    assert (xs + [x])[..|xs|] == xs;
  }

  lemma AppendAnswer(answers: seq<Answer>, a: Answer, key: string)
    ensures HandledOn(answers + [a], key) == HandledOn(answers, key) + if a.key == key && a.handled then 1 else 0
    ensures FailedOn(answers + [a], key) == FailedOn(answers, key) + if a.key == key && a.failed then 1 else 0
  {
    assert (answers + [a])[..|answers|] == answers;
  }

  /** An execution on the key is the next request of its bucket's run. */
  lemma ExecutionExtendsRun(p: Params, s: State, key: string, x: Execution, after: State)
    requires KeyInvariant(p, s, key) && x.key == key && x.request.at == s.clock == after.clock
    requires RunScript(s.store, key, p, x.request) == (after.store, Some(x.allowed))
    requires after.executions == s.executions + [x]
    ensures KeyInvariant(p, after, key)
  {
    hide Eval, RequestsOn, VerdictsOn;
    var reqs, r := RequestsOn(s.executions, key), x.request;
    AppendExecution(s.executions, x, key);
    SlotOfPrefix(p, reqs, r, |reqs|);
    assert RunScript(s.store, key, p, r).1.value == Execute(p, SlotAt(p, reqs, |reqs|), r).allowed;
    forall i: nat | i < |reqs| + 1
      ensures VerdictsOn(after.executions, key)[i] <==> AllowedWithExpiry(p, reqs + [r], i)
    {
      SlotOfPrefix(p, reqs, r, i);
    }
  }

  /** An execution on another key leaves this one alone. */
  lemma OtherKeyUntouched(p: Params, s: State, key: string, after: State)
    requires KeyInvariant(p, s, key) && s.clock <= after.clock
    requires key in s.store <==> key in after.store
    requires key in s.store ==> after.store[key] == s.store[key]
    requires || after.executions == s.executions
             || exists x: Execution :: x.key != key && after.executions == s.executions + [x]
    ensures KeyInvariant(p, after, key)
  {
    hide AllowedWithExpiry, SlotAt, RequestsOn, VerdictsOn;
    if after.executions != s.executions {
      var x: Execution :| x.key != key && after.executions == s.executions + [x];
      AppendExecution(s.executions, x, key);
    }
  }

  lemma StepKeepsInvariant(p: Params, s: State, e: Event, key: string)
    requires KeyInvariant(p, s, key) && Enabled(s, e)
    ensures KeyInvariant(p, Next(p, s, e), key)
  {
    hide Eval, KeyInvariant;
    var after := Next(p, s, e);
    if e.ScriptReply? && !e.link.Unreachable? {
      var call := s.calls[e.call];
      var r := Request(s.clock, Stamp(Seconds(call.asked)));
      var (store, reply) := RunScript(s.store, call.key, p, r);
      if reply.Some? {
        var x := Execution(call.key, r, call.asked, reply.value);
        assert after.executions == s.executions + [x];
        if call.key == key {
          ExecutionExtendsRun(p, s, key, x, after);
        } else {
          OtherKeyUntouched(p, s, key, after);
        }
      } else {
        OtherKeyUntouched(p, s, key, after);
      }
    } else {
      OtherKeyUntouched(p, s, key, after);
    }
  }

  lemma {:induction false} RunKeepsInvariant(p: Params, s: State, es: seq<Event>, key: string)
    requires KeyInvariant(p, s, key) && ValidRun(p, s, es)
    ensures KeyInvariant(p, Exec(p, s, es), key)
    decreases |es|
  {
    hide KeyInvariant;
    if es != [] {
      StepKeepsInvariant(p, s, es[0], key);
      RunKeepsInvariant(p, Next(p, s, es[0]), es[1..], key);
    }
  }

  /** In every run, whatever the calls on other keys do, the decisions taken on one key are those of a single
      bucket fed with the requests on that key. */
  lemma KeyRunsAlone(p: Params, es: seq<Event>, key: string, i: nat)
    requires ValidRun(p, START, es)
    requires i < |RequestsOn(Exec(p, START, es).executions, key)|
    ensures VerdictsOn(Exec(p, START, es).executions, key)[i]
       <==> AllowedWithExpiry(p, RequestsOn(Exec(p, START, es).executions, key), i)
    ensures InOrder(RequestsOn(Exec(p, START, es).executions, key))
  {
    RunKeepsInvariant(p, START, es, key);
  }

  /******* Handler calls *******/

  function CountTrue(bs: seq<bool>, lo: nat, hi: nat): nat
    requires lo <= hi <= |bs|
  {
    if lo == hi then 0 else CountTrue(bs, lo, hi - 1) + if bs[hi - 1] then 1 else 0
  }

  function GrantedOn(xs: seq<Execution>, key: string): nat {
    var bs := VerdictsOn(xs, key);
    CountTrue(bs, 0, |bs|)
  }

  lemma {:induction false} CountSplits(bs: seq<bool>, mid: nat, hi: nat)
    requires mid <= hi <= |bs|
    ensures CountTrue(bs, 0, hi) == CountTrue(bs, 0, mid) + CountTrue(bs, mid, hi)
  {
    if mid < hi {
      CountSplits(bs, mid, hi - 1);
    }
  }

  lemma {:induction false} CountOfPrefix(bs: seq<bool>, cs: seq<bool>, n: nat)
    requires n <= |bs| && bs <= cs
    ensures CountTrue(bs, 0, n) == CountTrue(cs, 0, n)
  {
    if n > 0 {
      CountOfPrefix(bs, cs, n - 1);
    }
  }

  lemma GrantedAppend(xs: seq<Execution>, x: Execution, key: string)
    ensures GrantedOn(xs + [x], key) == GrantedOn(xs, key) + if x.key == key && x.allowed then 1 else 0
    ensures VerdictsOn(xs, key) <= VerdictsOn(xs + [x], key)
  {
    AppendExecution(xs, x, key);
    hide VerdictsOn;
    CountOfPrefix(VerdictsOn(xs, key), VerdictsOn(xs + [x], key), |VerdictsOn(xs, key)|);
  }

  /** Between two states of a run a handler ran on every granted token and on every missing answer, and on nothing
      else; the history only grows. */
  ghost predicate HandlersBalance(s: State, t: State, key: string) {
    var handled := HandledOn(t.answers, key) - HandledOn(s.answers, key);
    var granted := GrantedOn(t.executions, key) - GrantedOn(s.executions, key);
    var failed := FailedOn(t.answers, key) - FailedOn(s.answers, key);
    && VerdictsOn(s.executions, key) <= VerdictsOn(t.executions, key)
    && granted <= handled <= granted + failed
    && failed <= handled
  }

  lemma StepAccount(p: Params, s: State, e: Event, key: string)
    requires Enabled(s, e)
    ensures HandlersBalance(s, Next(p, s, e), key)
  {
    hide RunScript, VerdictsOn, HandledOn, FailedOn, GrantedOn;
    var t := Next(p, s, e);
    if e.ScriptReply? {
      AppendAnswer(s.answers, t.answers[|s.answers|], key);
      if |t.executions| > |s.executions| {
        GrantedAppend(s.executions, t.executions[|s.executions|], key);
      } else {
        assert t.executions == s.executions;
      }
    }
  }

  lemma {:induction false} RunAccount(p: Params, s: State, es: seq<Event>, key: string)
    requires ValidRun(p, s, es)
    ensures HandlersBalance(s, Exec(p, s, es), key)
    decreases |es|
  {
    hide GrantedOn, HandledOn, FailedOn, VerdictsOn, Next;
    if es != [] {
      StepAccount(p, s, es[0], key);
      RunAccount(p, Next(p, s, es[0]), es[1..], key);
    }
  }

  /** The limiter fails open and refuses nothing it granted: on every key, the handler calls are at least the granted
      tokens and at least the missing answers, and at most both together. */
  lemma FailsOpen(p: Params, es: seq<Event>, key: string)
    requires ValidRun(p, START, es)
    ensures var s := Exec(p, START, es);
            var granted, failed := GrantedOn(s.executions, key), FailedOn(s.answers, key);
            && granted <= HandledOn(s.answers, key) <= granted + failed
            && failed <= HandledOn(s.answers, key)
  {
    RunAccount(p, START, es, key);
  }

  lemma {:induction false} VerdictsAreAdmissions(p: Params, reqs: seq<Request>, bs: seq<bool>, lo: nat, hi: nat)
    requires lo <= hi <= |reqs| == |bs|
    requires forall i: nat :: i < |reqs| ==> (bs[i] <==> AllowedWithExpiry(p, reqs, i))
    ensures CountTrue(bs, lo, hi) == AdmittedWithExpiry(p, reqs, lo, hi)
  {
    hide AllowedWithExpiry;
    if lo < hi {
      VerdictsAreAdmissions(p, reqs, bs, lo, hi - 1);
    }
  }

  /******* From TIME to EVAL *******/

  /** Stamps are the seconds of the TIME that was asked, and TIME was asked before EVAL. */
  ghost predicate TimesKnown(s: State) {
    && s.clock >= 0.0
    && (forall c :: 0 <= c < |s.calls| && s.calls[c].AskingScript? && s.calls[c].asked.Some? ==>
          0.0 <= s.calls[c].asked.value <= s.clock)
    && (forall i :: 0 <= i < |s.executions| ==> TimeKnown(s.executions[i]))
  }

  ghost predicate TimeKnown(x: Execution) {
    && x.request.stamp == Stamp(Seconds(x.asked))
    && (x.asked.Some? ==> 0.0 <= x.asked.value <= x.request.at)
  }

  lemma StepKeepsTimes(p: Params, s: State, e: Event)
    requires TimesKnown(s) && Enabled(s, e)
    ensures TimesKnown(Next(p, s, e))
  {
    hide Limit, RunScript, Stamp, Seconds;
  }

  lemma {:induction false} RunKeepsTimes(p: Params, s: State, es: seq<Event>)
    requires TimesKnown(s) && ValidRun(p, s, es)
    ensures TimesKnown(Exec(p, s, es))
    decreases |es|
  {
    hide TimesKnown;
    if es != [] {
      StepKeepsTimes(p, s, es[0]);
      RunKeepsTimes(p, Next(p, s, es[0]), es[1..]);
    }
  }

  /** On this key EVAL ran no more than `delay` seconds after an answered TIME. */
  ghost predicate Prompt(xs: seq<Execution>, key: string, delay: real) {
    forall i :: 0 <= i < |xs| && xs[i].key == key && xs[i].asked.Some? ==>
      xs[i].request.at - xs[i].asked.value <= delay
  }

  lemma {:induction false} RequestsComeFrom(xs: seq<Execution>, key: string, i: nat) returns (j: nat)
    requires i < |RequestsOn(xs, key)|
    ensures j < |xs| && xs[j].key == key && xs[j].request == RequestsOn(xs, key)[i]
  {
    var n := |xs| - 1;
    if i < |RequestsOn(xs[..n], key)| {
      j := RequestsComeFrom(xs[..n], key, i);
    } else {
      j := n;
    }
  }

  /** The requests that reach a key are what the window bound asks of them. */
  lemma RequestsRegular(xs: seq<Execution>, key: string, delay: real)
    requires InOrder(RequestsOn(xs, key)) && Prompt(xs, key, delay)
    requires forall i :: 0 <= i < |xs| ==> TimeKnown(xs[i])
    ensures Regular(RequestsOn(xs, key), delay)
  {
    hide RequestsOn, OnTime, Untimed;
    var reqs := RequestsOn(xs, key);
    forall i | 0 <= i < |reqs|
      ensures Untimed(reqs[i]) || (reqs[i].stamp >= 0.0 && OnTime(reqs[i], delay))
    {
      var j := RequestsComeFrom(xs, key, i);
      StampOnTime(xs[j], delay);
    }
  }

  lemma StampOnTime(x: Execution, delay: real)
    requires TimeKnown(x) && (x.asked.Some? ==> x.request.at - x.asked.value <= delay)
    ensures Untimed(x.request) || (x.request.stamp >= 0.0 && OnTime(x.request, delay))
  {
    hide OnTime;
    if x.asked.Some? {
      RoundedDownOnTime(x.request.at, x.asked.value, delay);
    }
  }

  /** Between any two points of any run, the handler calls on one key exceed the missing answers on that key by at most
      a full bucket, one more for each TIME that failed and each expiry the refill does not make up for, and the refill
      over the forward movement from each answered TIME to the next. Where nothing failed or expired that movement is
      the span of the stamps and their backward movement. */
  lemma PerKeyBound(p: Params, before: seq<Event>, during: seq<Event>, key: string, delay: real)
    requires p.Sane() && ValidRun(p, START, before)
    requires ValidRun(p, Exec(p, START, before), during)
    requires Prompt(Exec(p, Exec(p, START, before), during).executions, key, delay)
    ensures var s := Exec(p, START, before);
            var t := Exec(p, s, during);
            var lo, reqs := |RequestsOn(s.executions, key)|, RequestsOn(t.executions, key);
            var hi := |reqs|;
            var extra := ExtraHandled(s, t, key);
            && lo <= hi
            && (lo == hi ==> extra <= 0)
            && (lo < hi ==>
                  && extra as real <= Bursts(1 + FreeBuckets(p, delay, reqs, lo, hi), p.capacity)
                                      + Refill(p.rate, Travel(reqs, lo, hi))
                  && (FreeBuckets(p, delay, reqs, lo, hi) == 0 ==>
                        extra as real <= p.capacity + Refill(p.rate, reqs[hi - 1].stamp - reqs[lo].stamp
                                                                     + Backward(Stamps(reqs), lo, hi))))
  {
    hide GrantedOn, HandledOn, FailedOn, RequestsOn, Exec, ValidRun, Bursts, FreeBuckets, Travel, Refill, Regular,
         KeyInvariant, HandlersBalance, TimesKnown, Prompt;
    var s := Exec(p, START, before);
    var t := Exec(p, s, during);
    KeyHistory(p, before, during, key, delay);
    var reqs := RequestsOn(t.executions, key);
    var lo := |RequestsOn(s.executions, key)|;
    if lo < |reqs| {
      WindowBound(p, delay, reqs, lo, |reqs|);
      if FreeBuckets(p, delay, reqs, lo, |reqs|) == 0 {
        OneBurstMore(0, p.capacity);
        NoFreeBuckets(p, delay, reqs, lo, |reqs|);
        TravelIsForward(reqs, lo, |reqs|);
      }
    }
  }

  /** Handler calls beyond the missing answers. */
  function ExtraHandled(s: State, t: State, key: string): int {
    HandledOn(t.answers, key) - HandledOn(s.answers, key) - (FailedOn(t.answers, key) - FailedOn(s.answers, key))
  }

  lemma NoFreeBuckets(p: Params, delay: real, reqs: seq<Request>, lo: nat, hi: nat)
    requires lo < hi <= |reqs| && FreeBuckets(p, delay, reqs, lo, hi) == 0
    ensures FailedTimes(reqs, lo, hi) == 0
  {
    hide FailedTimes, Expiries;
  }

  /** What the invariants say about a key between two points of a run. */
  lemma KeyHistory(p: Params, before: seq<Event>, during: seq<Event>, key: string, delay: real)
    requires ValidRun(p, START, before) && ValidRun(p, Exec(p, START, before), during)
    requires Prompt(Exec(p, Exec(p, START, before), during).executions, key, delay)
    ensures var s := Exec(p, START, before);
            var t := Exec(p, s, during);
            var lo, reqs := |RequestsOn(s.executions, key)|, RequestsOn(t.executions, key);
            && lo <= |reqs|
            && Regular(reqs, delay)
            && ExtraHandled(s, t, key) <= AdmittedWithExpiry(p, reqs, lo, |reqs|)
  {
    hide GrantedOn, HandledOn, FailedOn, RequestsOn, SlotAt, AllowedWithExpiry, Exec, ValidRun, Regular, Prompt,
         AdmittedWithExpiry;
    var s := Exec(p, START, before);
    var t := Exec(p, s, during);
    StartInvariant(p, key);
    RunKeepsInvariant(p, START, before, key);
    RunKeepsInvariant(p, s, during, key);
    RunKeepsTimes(p, START, before);
    RunKeepsTimes(p, s, during);
    RunAccount(p, s, during, key);
    var reqs, bs := RequestsOn(t.executions, key), VerdictsOn(t.executions, key);
    RequestsRegular(t.executions, key, delay);
    GrantedBetween(s, t, key);
    VerdictsAreAdmissions(p, reqs, bs, |RequestsOn(s.executions, key)|, |bs|);
  }

  lemma StartInvariant(p: Params, key: string)
    ensures KeyInvariant(p, START, key)
  {
  }

  lemma GrantedBetween(s: State, t: State, key: string)
    requires VerdictsOn(s.executions, key) <= VerdictsOn(t.executions, key)
    ensures var bs := VerdictsOn(t.executions, key);
            GrantedOn(t.executions, key) - GrantedOn(s.executions, key)
            == CountTrue(bs, |VerdictsOn(s.executions, key)|, |bs|)
  {
    var bs, cs := VerdictsOn(s.executions, key), VerdictsOn(t.executions, key);
    CountOfPrefix(bs, cs, |bs|);
    CountSplits(cs, |bs|, |cs|);
  }

  /** A call that nobody overtakes takes three steps of the protocol, and they do what the interceptor does. */
  lemma InterceptorIsThreeSteps(p: Params, s: State, m: string, ip: string, ok: bool, link: Link)
    ensures var c := |s.calls|;
            var es := [Arrive(m, ip), TimeReply(c, ok), ScriptReply(c, link)];
            && ValidRun(p, s, es)
            && var t := Exec(p, s, es);
               var time := if ok then Some(s.clock.Floor) else None;
               && |t.answers| == |s.answers| + 1
               && (t.store, t.answers[|s.answers|].handled)
                  == Limit(s.store, Keys.GrpcKey(m, ip), p, time, link, s.clock)
  {
    hide RunScript;
    var c := |s.calls|;
    var s1 := Next(p, s, Arrive(m, ip));
    var s2 := Next(p, s1, TimeReply(c, ok));
    var s3 := Next(p, s2, ScriptReply(c, link));
    assert ValidRun(p, s3, []) && Exec(p, s3, []) == s3;
    assert ValidRun(p, s2, [ScriptReply(c, link)]) && Exec(p, s2, [ScriptReply(c, link)]) == s3;
    var es := [TimeReply(c, ok), ScriptReply(c, link)];
    assert es[1..] == [ScriptReply(c, link)];
    assert ValidRun(p, s1, es) && Exec(p, s1, es) == s3;
    assert ([Arrive(m, ip)] + es)[1..] == es;
    assert [Arrive(m, ip), TimeReply(c, ok), ScriptReply(c, link)] == [Arrive(m, ip)] + es;
  }

  /******* A late EVAL *******/

  lemma Prepend(p: Params, s: State, e: Event, es: seq<Event>)
    requires Enabled(s, e) && ValidRun(p, Next(p, s, e), es)
    ensures ValidRun(p, s, [e] + es) && Exec(p, s, [e] + es) == Exec(p, Next(p, s, e), es)
  {
    assert ([e] + es)[1..] == es;
  }

  /** Two calls ask for the time at once; the first goes on, the second takes more than a minute. */
  function LateCall(m: string, ip: string): seq<Event> {
    [Arrive(m, ip)] + ([Arrive(m, ip)] + ([TimeReply(0, true)] + ([TimeReply(1, true)] +
    ([ScriptReply(0, Replied)] + ([Advance(61.0)] + ([ScriptReply(1, Replied)] + []))))))
  }

  function BothAsked(key: string): State {
    State(0.0, map[], [AskingScript(key, Some(0.0)), AskingScript(key, Some(0.0))], [], [])
  }

  function FirstDone(key: string, clock: real): State {
    State(clock, map[key := Entry(BucketHash(Bucket(0.0, 0.0)), KEEP_SECONDS)],
          [Finished(key), AskingScript(key, Some(0.0))],
          [Execution(key, Request(0.0, 0.0), Some(0.0), true)], [Answer(key, true, false)])
  }

  function LateDone(key: string): State {
    FirstDone(key, 61.0).(store := map[key := Entry(BucketHash(Bucket(0.0, 0.0)), 61.0 + KEEP_SECONDS)],
                          calls := [Finished(key), Finished(key)],
                          executions := [Execution(key, Request(0.0, 0.0), Some(0.0), true),
                                         Execution(key, Request(61.0, 0.0), Some(0.0), true)],
                          answers := [Answer(key, true, false), Answer(key, true, false)])
  }

  lemma BothAsk(p: Params, m: string, ip: string, rest: seq<Event>)
    requires ValidRun(p, BothAsked(Keys.GrpcKey(m, ip)), rest)
    ensures var es := [Arrive(m, ip)] + ([Arrive(m, ip)] + ([TimeReply(0, true)] + ([TimeReply(1, true)] + rest)));
            ValidRun(p, START, es) && Exec(p, START, es) == Exec(p, BothAsked(Keys.GrpcKey(m, ip)), rest)
  {
    hide Limit, RunScript, Keys.GrpcKey;
    var key := Keys.GrpcKey(m, ip);
    var s1 := START.(calls := [AskingTime(key)]);
    var s2 := START.(calls := [AskingTime(key), AskingTime(key)]);
    var s3 := START.(calls := [AskingScript(key, Some(0.0)), AskingTime(key)]);
    assert Next(p, START, Arrive(m, ip)) == s1;
    assert Next(p, s1, Arrive(m, ip)) == s2;
    assert Next(p, s2, TimeReply(0, true)) == s3;
    assert Next(p, s3, TimeReply(1, true)) == BothAsked(key);
    hide Next, ValidRun, Exec;
    var es := rest;
    Prepend(p, s3, TimeReply(1, true), es);    es := [TimeReply(1, true)] + es;
    Prepend(p, s2, TimeReply(0, true), es);    es := [TimeReply(0, true)] + es;
    Prepend(p, s1, Arrive(m, ip), es);         es := [Arrive(m, ip)] + es;
    Prepend(p, START, Arrive(m, ip), es);
  }

  /** Both find a full bucket, the second because the key expired. */
  lemma FullBucketAnswers(p: Params, store: Store, key: string, at: real)
    requires p.capacity == 1.0 && Live(store, key, at).None?
    ensures RunScript(store, key, p, Request(at, 0.0))
         == (store[key := Entry(BucketHash(Bucket(0.0, 0.0)), at + KEEP_SECONDS)], Some(true))
  {
    StepLater(p, 0.0, 0.0, 0.0);
    hide Eval;
  }

  lemma BothGo(p: Params, key: string)
    requires p.capacity == 1.0
    ensures var es := [ScriptReply(0, Replied)] + ([Advance(61.0)] + ([ScriptReply(1, Replied)] + []));
            ValidRun(p, BothAsked(key), es) && Exec(p, BothAsked(key), es) == LateDone(key)
  {
    hide RunScript;
    var s1, s2, t := FirstDone(key, 0.0), FirstDone(key, 61.0), LateDone(key);
    FullBucketAnswers(p, map[], key, 0.0);
    FullBucketAnswers(p, s2.store, key, 61.0);
    assert Stamp(Seconds(Some(0.0))) == 0.0;
    assert Next(p, BothAsked(key), ScriptReply(0, Replied)) == s1;
    assert Next(p, s1, Advance(61.0)) == s2;
    assert Next(p, s2, ScriptReply(1, Replied)) == t;
    var es: seq<Event> := [];
    assert ValidRun(p, t, es) && Exec(p, t, es) == t;
    hide Next, ValidRun, Exec;
    Prepend(p, s2, ScriptReply(1, Replied), es);    es := [ScriptReply(1, Replied)] + es;
    Prepend(p, s1, Advance(61.0), es);              es := [Advance(61.0)] + es;
    Prepend(p, BothAsked(key), ScriptReply(0, Replied), es);
  }

  /** An EVAL that is late by more than a minute gets through however high the rate: with a capacity of one both calls
      are handled although their stamps are equal, so an expiry counts unless the delay is bounded. */
  lemma LateCallExceedsWindow(p: Params, m: string, ip: string) returns (es: seq<Event>)
    requires p.Sane() && p.capacity == 1.0
    ensures ValidRun(p, START, es)
    ensures var t, key := Exec(p, START, es), Keys.GrpcKey(m, ip);
            var ts := Stamps(RequestsOn(t.executions, key));
            && ts == [0.0, 0.0]
            && FailedOn(t.answers, key) == 0
            && HandledOn(t.answers, key) as real > p.capacity + Refill(p.rate, ts[1] - ts[0])
  {
    var key := Keys.GrpcKey(m, ip);
    es := LateCall(m, ip);
    BothGo(p, key);
    hide RunScript, Limit, Next, Enabled, Keys.GrpcKey;
    BothAsk(p, m, ip, [ScriptReply(0, Replied)] + ([Advance(61.0)] + ([ScriptReply(1, Replied)] + [])));
    hide Exec, ValidRun, Refill;
    NoTimeNoRefill(p.rate);
    LateDoneCounts(key);
  }

  lemma LateDoneCounts(key: string)
    ensures var t := LateDone(key);
            && Stamps(RequestsOn(t.executions, key)) == [0.0, 0.0]
            && FailedOn(t.answers, key) == 0 && HandledOn(t.answers, key) == 2
  {
    hide RequestsOn, FailedOn, HandledOn, Stamps;
    var t := LateDone(key);
    TwoRequests(t.executions[0], t.executions[1]);
    TwoAnswers(t.answers[0], t.answers[1]);
    assert t.executions == [t.executions[0], t.executions[1]] && t.answers == [t.answers[0], t.answers[1]];
  }

  lemma TwoRequests(x: Execution, y: Execution)
    requires x.key == y.key
    ensures Stamps(RequestsOn([x, y], x.key)) == [x.request.stamp, y.request.stamp]
  {
    assert RequestsOn([], x.key) == [];
    hide RequestsOn;
    AppendExecution([], x, x.key);
    AppendExecution([x], y, x.key);
    assert [] + [x] == [x] && [x] + [y] == [x, y];
  }

  lemma TwoAnswers(a: Answer, b: Answer)
    requires a.key == b.key && a.handled && b.handled && !a.failed && !b.failed
    ensures FailedOn([a, b], a.key) == 0 && HandledOn([a, b], a.key) == 2
  {
    assert FailedOn([], a.key) == 0 && HandledOn([], a.key) == 0;
    hide FailedOn, HandledOn;
    AppendAnswer([], a, a.key);
    AppendAnswer([a], b, a.key);
    assert [] + [a] == [a] && [a] + [b] == [a, b];
  }
}
