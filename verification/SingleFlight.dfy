/** Single-flight in the protocol: at most one load per id and instance, one result for all who share a load, and
    no call is left waiting. */
module SingleFlight {
  import opened Options
  import opened CacheProtocol

  /** A flight that has not landed is the one its group knows, and its leader waits for it. */
  ghost predicate FlightKnown(s: State, n: nat)
    requires FlightIn(s, n)
  {
    var f := s.flights[n];
    !f.stage.Landed? ==>
      && (f.instance, f.id) in s.group && s.group[(f.instance, f.id)] == n
      && CallIn(s, f.leader) && s.calls[f.leader] == Waiting(f.instance, f.id, n)
  }

  ghost predicate GroupEntryLives(s: State, key: (nat, int))
    requires key in s.group
  {
    var n := s.group[key];
    FlightIn(s, n) && !s.flights[n].stage.Landed? && (s.flights[n].instance, s.flights[n].id) == key
  }

  /** A waiting call waits for a load of the id it asked for, in its own instance; a call that shared a load came back
      with its result. */
  ghost predicate CallServed(s: State, c: nat)
    requires CallIn(s, c)
  {
    match s.calls[c]
    case Waiting(instance, id, n) => FlightIn(s, n) && s.flights[n].instance == instance && s.flights[n].id == id
    case Returned(id, result, _, _, Some(n)) =>
      FlightIn(s, n) && s.flights[n].stage == Landed(result) && s.flights[n].id == id
    case _ => true
  }

  ghost predicate Ordered(s: State) {
    && (forall n: nat :: FlightIn(s, n) ==> FlightKnown(s, n))
    && (forall key :: key in s.group ==> GroupEntryLives(s, key))
    && (forall c: nat :: CallIn(s, c) ==> CallServed(s, c))
  }

  lemma FlightsStayKnown(p: Params, s: State, e: Event, n: nat)
    requires Ordered(s) && Enabled(p, s, e) && FlightIn(Next(p, s, e), n)
    ensures FlightKnown(Next(p, s, e), n)
  {
    hide Hit, CurrentRow;
    if FlightIn(s, n) {
      assert FlightKnown(s, n);
      if e.Land? {
        assert FlightKnown(s, e.flight);
      }
    }
  }

  lemma GroupEntriesStayAlive(p: Params, s: State, e: Event, key: (nat, int))
    requires Ordered(s) && Enabled(p, s, e) && key in Next(p, s, e).group
    ensures GroupEntryLives(Next(p, s, e), key)
  {
    hide Hit, CurrentRow, Ordered;
    if key in s.group {
      assert GroupEntryLives(s, key) && (e.Land? ==> FlightKnown(s, e.flight)) by {
        EntryAndFlight(p, s, e, key);
      }
      if e.Land? {
        assert s.group[key] != e.flight;
      }
    }
  }

  lemma EntryAndFlight(p: Params, s: State, e: Event, key: (nat, int))
    requires Ordered(s) && Enabled(p, s, e) && key in s.group
    ensures GroupEntryLives(s, key) && (e.Land? ==> FlightKnown(s, e.flight))
  {
    hide FlightKnown, GroupEntryLives, CallServed;
  }

  lemma CallsStayServed(p: Params, s: State, e: Event, c: nat)
    requires Ordered(s) && Enabled(p, s, e) && CallIn(Next(p, s, e), c)
    ensures CallServed(Next(p, s, e), c)
  {
    hide Hit, CurrentRow;
    if CallIn(s, c) {
      assert CallServed(s, c);
      if e.Join? && e.call == c {
        var key := (s.calls[c].instance, s.calls[c].id);
        assert key in s.group ==> GroupEntryLives(s, key);
      }
    }
  }

  lemma StepKeepsOrder(p: Params, s: State, e: Event)
    requires Ordered(s) && Enabled(p, s, e)
    ensures Ordered(Next(p, s, e))
  {
    var t := Next(p, s, e);
    hide Next, Enabled, FlightKnown, GroupEntryLives, CallServed;
    forall n: nat | FlightIn(t, n)
      ensures FlightKnown(t, n)
    {
      FlightsStayKnown(p, s, e, n);
    }
    forall key | key in t.group
      ensures GroupEntryLives(t, key)
    {
      GroupEntriesStayAlive(p, s, e, key);
    }
    forall c: nat | CallIn(t, c)
      ensures CallServed(t, c)
    {
      CallsStayServed(p, s, e, c);
    }
  }

  lemma {:induction false} RunKeepsOrder(p: Params, s: State, es: seq<Event>)
    requires Ordered(s) && ValidRun(p, s, es)
    ensures Ordered(Exec(p, s, es))
    decreases |es|
  {
    hide Ordered;
    if es != [] {
      StepKeepsOrder(p, s, es[0]);
      RunKeepsOrder(p, Next(p, s, es[0]), es[1..]);
    }
  }

  /** In every reachable state at most one load per id is under way in an instance. */
  lemma OneLoadPerId(p: Params, es: seq<Event>, n: nat, m: nat)
    requires ValidRun(p, START, es)
    requires var s := Exec(p, START, es);
             && FlightIn(s, n) && FlightIn(s, m)
             && !s.flights[n].stage.Landed? && !s.flights[m].stage.Landed?
             && s.flights[n].instance == s.flights[m].instance && s.flights[n].id == s.flights[m].id
    ensures n == m
  {
    RunKeepsOrder(p, START, es);
    var s := Exec(p, START, es);
    assert FlightKnown(s, n) && FlightKnown(s, m);
  }

  /** All calls that shared a load asked for one and the same id, and came back with one and the same result. */
  lemma SharersAgree(p: Params, es: seq<Event>, c: nat, d: nat)
    requires ValidRun(p, START, es)
    requires var s := Exec(p, START, es);
             && CallIn(s, c) && CallIn(s, d) && s.calls[c].Returned? && s.calls[d].Returned?
             && s.calls[c].shared.Some? && s.calls[c].shared == s.calls[d].shared
    ensures var s := Exec(p, START, es);
            && s.calls[c].result == s.calls[d].result
            && c < |Asked(es)| && d < |Asked(es)| && Asked(es)[c] == Asked(es)[d]
  {
    RunKeepsOrder(p, START, es);
    CallsKeepIds(p, es, c);
    CallsKeepIds(p, es, d);
    var s := Exec(p, START, es);
    hide Exec, ValidRun, Asked;
    assert CallServed(s, c) && CallServed(s, d);
  }

  /******* Progress *******/

  /** The steps that carry on with what has begun. */
  predicate Works(e: Event) {
    e.OuterGet? || e.Join? || e.InnerGet? || e.DbRead? || e.CacheSet? || e.Land? || e.Return? || e.Invalidate?
  }

  predicate StagesRight(s: State) {
    forall n :: 0 <= n < |s.flights| && s.flights[n].stage.Storing? ==> s.flights[n].stage.read.row.Some?
  }

  /** The next step of a flight that has not landed. */
  function NextOfFlight(s: State, n: nat): Event
    requires FlightIn(s, n) && !s.flights[n].stage.Landed?
  {
    match s.flights[n].stage
    case Checking => InnerGet(n, true)
    case Reading => DbRead(n, true)
    case Storing(_) => CacheSet(n, true)
    case Ready(_) => Land(n)
  }

  /** While any call is outstanding, some step can be taken. */
  lemma SomeStepEnabled(p: Params, es: seq<Event>, c: nat) returns (e: Event)
    requires ValidRun(p, START, es)
    requires CallIn(Exec(p, START, es), c) && !Exec(p, START, es).calls[c].Returned?
    ensures Works(e) && Enabled(p, Exec(p, START, es), e)
  {
    RunKeepsOrder(p, START, es);
    RunKeepsStages(p, START, es);
    var s := Exec(p, START, es);
    assert CallServed(s, c);
    match s.calls[c]
    case Asking(_, _) => e := OuterGet(c, true);
    case Joining(_, _) => e := Join(c);
    case Waiting(_, _, n) => e := if s.flights[n].stage.Landed? then Return(c) else NextOfFlight(s, n);
  }

  /** A run can go on with a step of what has begun as long as a call has not returned or a DEL has not been sent, and
      no longer. */
  lemma StuckIffAllDone(p: Params, es: seq<Event>)
    requires ValidRun(p, START, es)
    ensures (forall e :: Works(e) ==> !Enabled(p, Exec(p, START, es), e)) <==> AllDone(Exec(p, START, es))
  {
    var s := Exec(p, START, es);
    hide Exec, ValidRun, Enabled;
    if AllDone(s) {
      forall e | Works(e)
        ensures !Enabled(p, s, e)
      {
        NothingLeft(p, es, e);
      }
    } else if c: nat :| CallIn(s, c) && !s.calls[c].Returned? {
      var e := SomeStepEnabled(p, es, c);
    } else {
      var w: nat :| w < |s.writers| && s.writers[w].Pending?;
      DelEnabled(p, s, w);
    }
  }

  /** Every call has returned, and every writer has sent its DEL. */
  ghost predicate AllDone(s: State) {
    && (forall c: nat :: CallIn(s, c) ==> s.calls[c].Returned?)
    && (forall w: nat :: w < |s.writers| ==> !s.writers[w].Pending?)
  }

  lemma DelEnabled(p: Params, s: State, w: nat)
    requires w < |s.writers| && s.writers[w].Pending?
    ensures Works(Invalidate(w, true)) && Enabled(p, s, Invalidate(w, true))
  {
  }

  lemma NothingLeft(p: Params, es: seq<Event>, e: Event)
    requires ValidRun(p, START, es) && AllDone(Exec(p, START, es)) && Works(e)
    ensures !Enabled(p, Exec(p, START, es), e)
  {
    RunKeepsOrder(p, START, es);
    var s := Exec(p, START, es);
    hide Exec, ValidRun;
    forall n: nat | FlightIn(s, n)
      ensures s.flights[n].stage.Landed?
    {
      assert FlightKnown(s, n);
    }
  }

  lemma {:induction false} RunKeepsStages(p: Params, s: State, es: seq<Event>)
    requires StagesRight(s) && ValidRun(p, s, es)
    ensures StagesRight(Exec(p, s, es))
    decreases |es|
  {
    if es != [] {
      StepKeepsStages(p, s, es[0]);
      hide StagesRight;
      RunKeepsStages(p, Next(p, s, es[0]), es[1..]);
    }
  }

  lemma StepKeepsStages(p: Params, s: State, e: Event)
    requires StagesRight(s) && Enabled(p, s, e)
    ensures StagesRight(Next(p, s, e))
  {
    hide Hit, CurrentRow;
  }

  /** How many steps a call, a load or a writer can still take, counting the load a call may start. */
  function CallWork(c: Call): nat {
    match c
    case Asking(_, _) => 7
    case Joining(_, _) => 6
    case Waiting(_, _, _) => 1
    case Returned(_, _, _, _, _) => 0
  }

  function FlightWork(f: Flight): nat {
    match f.stage
    case Checking => 4
    case Reading => 3
    case Storing(_) => 2
    case Ready(_) => 1
    case Landed(_) => 0
  }

  function CallsWork(calls: seq<Call>): nat {
    if calls == [] then 0 else CallsWork(calls[..|calls| - 1]) + CallWork(calls[|calls| - 1])
  }

  function FlightsWork(flights: seq<Flight>): nat {
    if flights == [] then 0 else FlightsWork(flights[..|flights| - 1]) + FlightWork(flights[|flights| - 1])
  }

  function WritersWork(writers: seq<Writer>): nat {
    if writers == [] then 0
    else WritersWork(writers[..|writers| - 1]) + if writers[|writers| - 1].Pending? then 1 else 0
  }

  function Work(s: State): nat { CallsWork(s.calls) + FlightsWork(s.flights) + WritersWork(s.writers) }

  lemma {:induction false} CallsUpdate(calls: seq<Call>, c: nat, call: Call)
    requires c < |calls|
    ensures CallsWork(calls[c := call]) == CallsWork(calls) - CallWork(calls[c]) + CallWork(call)
  {
    var n := |calls| - 1;
    if c < n {
      assert calls[c := call][..n] == calls[..n][c := call];
      CallsUpdate(calls[..n], c, call);
    } else {
      assert calls[c := call][..n] == calls[..n];
    }
  }

  lemma {:induction false} FlightsUpdate(flights: seq<Flight>, n: nat, f: Flight)
    requires n < |flights|
    ensures FlightsWork(flights[n := f]) == FlightsWork(flights) - FlightWork(flights[n]) + FlightWork(f)
  {
    var m := |flights| - 1;
    if n < m {
      assert flights[n := f][..m] == flights[..m][n := f];
      FlightsUpdate(flights[..m], n, f);
    } else {
      assert flights[n := f][..m] == flights[..m];
    }
  }

  lemma {:induction false} WritersUpdate(writers: seq<Writer>, w: nat, done: Writer)
    requires w < |writers| && writers[w].Pending? && !done.Pending?
    ensures WritersWork(writers[w := done]) == WritersWork(writers) - 1
  {
    var n := |writers| - 1;
    if w < n {
      assert writers[w := done][..n] == writers[..n][w := done];
      WritersUpdate(writers[..n], w, done);
    } else {
      assert writers[w := done][..n] == writers[..n];
    }
  }

  lemma StepShrinksWork(p: Params, s: State, e: Event)
    requires Enabled(p, s, e) && Works(e)
    ensures Work(Next(p, s, e)) < Work(s)
  {
    hide Hit, CurrentRow, CallsWork, FlightsWork, WritersWork;
    var t := Next(p, s, e);
    match e
    case OuterGet(c, _) => CallsUpdate(s.calls, c, t.calls[c]);
    case Join(c) =>
      CallsUpdate(s.calls, c, t.calls[c]);
      if |t.flights| > |s.flights| {
        AddFlight(s.flights, t.flights[|s.flights|]);
      }
    case InnerGet(n, _) => FlightsUpdate(s.flights, n, t.flights[n]);
    case DbRead(n, _) => FlightsUpdate(s.flights, n, t.flights[n]);
    case CacheSet(n, _) => FlightsUpdate(s.flights, n, t.flights[n]);
    case Land(n) => FlightsUpdate(s.flights, n, t.flights[n]);
    case Return(c) => CallsUpdate(s.calls, c, t.calls[c]);
    case Invalidate(w, _) => WritersUpdate(s.writers, w, t.writers[w]);
  }

  lemma AddFlight(flights: seq<Flight>, f: Flight)
    ensures FlightsWork(flights + [f]) == FlightsWork(flights) + FlightWork(f)
  {
    assert (flights + [f])[..|flights|] == flights;
  }

  function WorkingSteps(es: seq<Event>): nat {
    if es == [] then 0 else (if Works(es[0]) then 1 else 0) + WorkingSteps(es[1..])
  }

  /** Once no more calls arrive and nobody writes, only so many steps are left, whatever order they come in: a call
      accounts for at most seven. When none is left, every call has returned (StuckIffAllDone). */
  lemma {:induction false} FinitelyManySteps(p: Params, s: State, es: seq<Event>)
    requires ValidRun(p, s, es)
    requires forall e :: e in es ==> Works(e) || e.Advance?
    ensures WorkingSteps(es) + Work(Exec(p, s, es)) <= Work(s)
    decreases |es|
  {
    hide Next, Enabled, Work;
    if es != [] {
      if Works(es[0]) {
        StepShrinksWork(p, s, es[0]);
      } else {
        AdvanceKeepsWork(p, s, es[0]);
      }
      FinitelyManySteps(p, Next(p, s, es[0]), es[1..]);
    }
  }

  lemma AdvanceKeepsWork(p: Params, s: State, e: Event)
    requires Enabled(p, s, e) && e.Advance?
    ensures Work(Next(p, s, e)) == Work(s)
  {
    hide CallsWork, FlightsWork, WritersWork;
  }
}
