/** Where the rows returned under concurrency come from, and how old they can be. Nothing is assumed of the cache:
    GET, SET and DEL may fail at any time. */
module CacheStaleness {
  import opened Options
  import opened CacheProtocol
  import opened SingleFlight

  /** Commits are in order of time, carry their own id, and a Create finds no row. */
  ghost predicate LogOk(log: seq<Commit>, clock: real) {
    && (forall i :: 0 <= i < |log| ==> log[i].at <= clock)
    && (forall i, j :: 0 <= i <= j < |log| ==> log[i].at <= log[j].at)
    && (forall i :: 0 <= i < |log| && log[i].row.Some? ==> log[i].row.value.id == log[i].id)
    && (forall i: nat :: i < |log| && log[i].writer.None? ==> RowAfter(log, i, log[i].id).None?)
  }

  /** The read saw exactly the commits made before it. */
  ghost predicate ReadOk(log: seq<Commit>, clock: real, id: int, read: Read) {
    && read.version <= |log|
    && read.row == RowAfter(log, read.version, id)
    && (read.version > 0 ==> log[read.version - 1].at <= read.at)
    && (read.version < |log| ==> read.at <= log[read.version].at)
    && read.at <= clock
  }

  ghost predicate EntryOk(p: Params, log: seq<Commit>, clock: real, id: int, e: Entry) {
    && ReadOk(log, clock, id, e.read)
    && e.read.row.Some?
    && e.read.version <= e.storedAfter <= |log|
    && e.expiresAt - p.ttl - p.flight <= e.read.at
  }

  ghost predicate ResultOk(log: seq<Commit>, clock: real, id: int, r: Outcome, since: real) {
    r.Value? ==> ReadOk(log, clock, id, r.read) && since <= r.read.at
  }

  ghost predicate FlightOk(p: Params, log: seq<Commit>, clock: real, f: Flight) {
    && f.start <= clock
    && match f.stage
       case Storing(read) => ReadOk(log, clock, f.id, read) && read.row.Some? && f.start <= read.at
       case Ready(r) => ResultOk(log, clock, f.id, r, f.start - p.ttl - p.flight)
       case Landed(r) => ResultOk(log, clock, f.id, r, f.start - p.ttl - p.flight)
       case _ => true
  }

  /** The oldest moment a row returned at `at` can be from. */
  function Horizon(p: Params, at: real): real { at - p.ttl - 2.0 * p.flight }

  ghost predicate CallOk(p: Params, log: seq<Commit>, clock: real, c: Call) {
    c.Returned? ==>
      && c.at <= clock && c.after <= |log|
      && ResultOk(log, clock, c.id, c.result, Horizon(p, c.at))
      && (c.result.Value? ==> c.result.read.at <= c.at && c.result.read.version <= c.after)
  }

  ghost predicate OnTime(p: Params, s: State) {
    forall c: nat :: CallIn(s, c) && s.calls[c].Waiting? && FlightIn(s, s.calls[c].flight) ==>
      s.clock <= s.flights[s.calls[c].flight].start + p.flight
  }

  ghost predicate Traced(p: Params, s: State) {
    && LogOk(s.log, s.clock)
    && OnTime(p, s)
    && (forall id :: id in s.cache ==> EntryOk(p, s.log, s.clock, id, s.cache[id]))
    && (forall n: nat :: FlightIn(s, n) ==> FlightOk(p, s.log, s.clock, s.flights[n]))
    && (forall c: nat :: CallIn(s, c) ==> CallOk(p, s.log, s.clock, s.calls[c]))
  }

  /******* Time passes, commits are added *******/

  ghost predicate Grows(s: State, t: State) {
    && s.clock <= t.clock
    && (t.log == s.log || (|t.log| == |s.log| + 1 && t.log[..|s.log|] == s.log
                           && t.log[|s.log|].at == s.clock))
  }

  lemma StepGrows(p: Params, s: State, e: Event)
    requires Enabled(p, s, e)
    ensures Grows(s, Next(p, s, e))
  {
    hide Hit, CurrentRow;
  }

  lemma ReadStays(s: State, t: State, id: int, read: Read)
    requires Grows(s, t) && ReadOk(s.log, s.clock, id, read)
    ensures ReadOk(t.log, t.clock, id, read)
  {
    if t.log != s.log {
      assert t.log == s.log + [t.log[|s.log|]];
      RowOfLongerLog(s.log, t.log[|s.log|], read.version, id);
    }
  }

  lemma EntryStays(p: Params, s: State, t: State, id: int, e: Entry)
    requires Grows(s, t) && EntryOk(p, s.log, s.clock, id, e)
    ensures EntryOk(p, t.log, t.clock, id, e)
  {
    ReadStays(s, t, id, e.read);
  }

  lemma FlightStays(p: Params, s: State, t: State, f: Flight)
    requires Grows(s, t) && FlightOk(p, s.log, s.clock, f)
    ensures FlightOk(p, t.log, t.clock, f)
  {
    hide ReadOk;
    match f.stage
    case Storing(read) => ReadStays(s, t, f.id, read);
    case Ready(Value(read)) => ReadStays(s, t, f.id, read);
    case Landed(Value(read)) => ReadStays(s, t, f.id, read);
    case _ =>
  }

  lemma CallStays(p: Params, s: State, t: State, c: Call)
    requires Grows(s, t) && CallOk(p, s.log, s.clock, c)
    ensures CallOk(p, t.log, t.clock, c)
  {
    hide ReadOk;
    if c.Returned? && c.result.Value? {
      ReadStays(s, t, c.id, c.result.read);
    }
  }

  lemma StepKeepsLog(p: Params, s: State, e: Event)
    requires LogOk(s.log, s.clock) && Enabled(p, s, e)
    ensures LogOk(Next(p, s, e).log, Next(p, s, e).clock)
  {
    var t := Next(p, s, e);
    if t.log != s.log {
      var n := |s.log|;
      assert t.log == s.log + [t.log[n]];
      forall i: nat | i < |t.log| && t.log[i].writer.None?
        ensures RowAfter(t.log, i, t.log[i].id).None?
      {
        RowOfLongerLog(s.log, t.log[n], i, t.log[i].id);
      }
    }
  }

  /******* One step *******/

  /** A load that has not landed is within its time, because its leader is still waiting. */
  lemma FlightOnTime(p: Params, s: State, n: nat)
    requires Ordered(s) && OnTime(p, s) && FlightIn(s, n) && !s.flights[n].stage.Landed?
    ensures s.clock <= s.flights[n].start + p.flight
  {
    assert FlightKnown(s, n);
  }

  lemma StepKeepsTime(p: Params, s: State, e: Event)
    requires p.Valid() && Ordered(s) && OnTime(p, s) && Enabled(p, s, e)
    ensures OnTime(p, Next(p, s, e))
  {
    hide Hit, CurrentRow;
    if e.Join? {
      var key := (s.calls[e.call].instance, s.calls[e.call].id);
      if key in s.group {
        assert GroupEntryLives(s, key);
        FlightOnTime(p, s, s.group[key]);
      }
    } else {
      forall c: nat | CallIn(s, c)
        ensures CallServed(s, c)
      {
      }
    }
  }

  lemma StepKeepsEntry(p: Params, s: State, e: Event, id: int)
    requires p.Valid() && Ordered(s) && Traced(p, s) && Enabled(p, s, e) && id in Next(p, s, e).cache
    ensures EntryOk(p, Next(p, s, e).log, Next(p, s, e).clock, id, Next(p, s, e).cache[id])
  {
    hide Hit, CurrentRow, Ordered, OnTime;
    var t := Next(p, s, e);
    StepGrows(p, s, e);
    if id in s.cache && t.cache[id] == s.cache[id] {
      EntryStays(p, s, t, id, s.cache[id]);
    } else {
      var f := s.flights[e.flight];
      assert FlightOk(p, s.log, s.clock, f);
      FlightOnTime(p, s, e.flight);
      RowsCarryTheirId(s.log, s.clock, f.stage.read.version, f.id);
    }
  }

  lemma {:induction false} RowsCarryTheirId(log: seq<Commit>, clock: real, n: nat, id: int)
    requires LogOk(log, clock) && n <= |log|
    ensures RowAfter(log, n, id).Some? ==> RowAfter(log, n, id).value.id == id
  {
    if n > 0 {
      RowsCarryTheirId(log, clock, n - 1, id);
    }
  }

  /** A hit is at most one TTL and one flight old. */
  lemma HitIsTraced(p: Params, s: State, id: int)
    requires Traced(p, s) && Hit(s, id).Some?
    ensures ReadOk(s.log, s.clock, id, Hit(s, id).value.read)
    ensures s.clock - p.ttl - p.flight <= Hit(s, id).value.read.at
  {
    assert EntryOk(p, s.log, s.clock, id, s.cache[id]);
  }

  lemma ReadingNow(s: State, id: int)
    requires LogOk(s.log, s.clock)
    ensures ReadOk(s.log, s.clock, id, Read(CurrentRow(s, id), |s.log|, s.clock))
  {
  }

  lemma StepKeepsFlight(p: Params, s: State, e: Event, n: nat)
    requires p.Valid() && Traced(p, s) && Enabled(p, s, e) && FlightIn(Next(p, s, e), n)
    ensures FlightOk(p, Next(p, s, e).log, Next(p, s, e).clock, Next(p, s, e).flights[n])
  {
    hide Hit, CurrentRow, ReadOk, LogOk, OnTime;
    var t := Next(p, s, e);
    StepGrows(p, s, e);
    if FlightIn(s, n) {
      assert FlightOk(p, s.log, s.clock, s.flights[n]);
      if t.flights[n] == s.flights[n] {
        FlightStays(p, s, t, s.flights[n]);
      } else if e.InnerGet? && Hit(s, s.flights[n].id).Some? {
        HitIsTraced(p, s, s.flights[n].id);
      } else if e.DbRead? {
        ReadingNow(s, s.flights[n].id);
      }
    }
  }

  lemma ReadBeforeNow(log: seq<Commit>, clock: real, id: int, read: Read)
    requires ReadOk(log, clock, id, read)
    ensures read.version <= |log| && read.at <= clock
  {
  }

  lemma StepKeepsCall(p: Params, s: State, e: Event, c: nat)
    requires p.Valid() && Ordered(s) && Traced(p, s) && Enabled(p, s, e) && CallIn(Next(p, s, e), c)
    ensures CallOk(p, Next(p, s, e).log, Next(p, s, e).clock, Next(p, s, e).calls[c])
  {
    hide Hit, CurrentRow, ReadOk, LogOk, EntryOk;
    var t := Next(p, s, e);
    StepGrows(p, s, e);
    if CallIn(s, c) {
      if t.calls[c] == s.calls[c] {
        CallStays(p, s, t, s.calls[c]);
      } else if e.OuterGet? && Hit(s, s.calls[c].id).Some? {
        HitIsTraced(p, s, s.calls[c].id);
        ReadBeforeNow(s.log, s.clock, s.calls[c].id, Hit(s, s.calls[c].id).value.read);
      } else if e.Return? {
        var f := s.flights[s.calls[c].flight];
        assert CallServed(s, c) && FlightOk(p, s.log, s.clock, f);
        if f.stage.result.Value? {
          ReadBeforeNow(s.log, s.clock, f.id, f.stage.result.read);
        }
      }
    }
  }

  lemma StepKeepsTrace(p: Params, s: State, e: Event)
    requires p.Valid() && Ordered(s) && Traced(p, s) && Enabled(p, s, e)
    ensures Traced(p, Next(p, s, e))
  {
    var t := Next(p, s, e);
    hide Next, Enabled, EntryOk, FlightOk, CallOk, Ordered;
    StepKeepsLog(p, s, e);
    StepKeepsTime(p, s, e);
    forall id | id in t.cache
      ensures EntryOk(p, t.log, t.clock, id, t.cache[id])
    {
      StepKeepsEntry(p, s, e, id);
    }
    forall n: nat | FlightIn(t, n)
      ensures FlightOk(p, t.log, t.clock, t.flights[n])
    {
      StepKeepsFlight(p, s, e, n);
    }
    forall c: nat | CallIn(t, c)
      ensures CallOk(p, t.log, t.clock, t.calls[c])
    {
      StepKeepsCall(p, s, e, c);
    }
  }

  lemma {:induction false} RunKeepsTrace(p: Params, s: State, es: seq<Event>)
    requires p.Valid() && Ordered(s) && Traced(p, s) && ValidRun(p, s, es)
    ensures Traced(p, Exec(p, s, es))
    decreases |es|
  {
    hide Ordered, Traced;
    if es != [] {
      StepKeepsOrder(p, s, es[0]);
      StepKeepsTrace(p, s, es[0]);
      RunKeepsTrace(p, Next(p, s, es[0]), es[1..]);
    }
  }

  lemma ReachableTraced(p: Params, es: seq<Event>)
    requires p.Valid() && ValidRun(p, START, es)
    ensures Traced(p, Exec(p, START, es))
  {
    RunKeepsTrace(p, START, es);
  }

  /******* Theorems *******/

  /** After its first n commits and before the next one the database was, at some moment between `from` and `to`,
      in that very state. */
  ghost predicate CurrentDuring(log: seq<Commit>, n: nat, from: real, to: real) {
    n <= |log| && (n > 0 ==> log[n - 1].at <= to) && (n < |log| ==> from <= log[n].at)
  }

  /** Every row, and every "not found", that a call returns was the truth about the id it arrived with at some moment no
      longer ago than one TTL and two flights. */
  lemma BoundedStaleness(p: Params, es: seq<Event>, c: nat) returns (n: nat)
    requires p.Valid() && ValidRun(p, START, es)
    requires var s := Exec(p, START, es);
             CallIn(s, c) && s.calls[c].Returned? && s.calls[c].result.Value?
    ensures var s := Exec(p, START, es);
            var call := s.calls[c];
            && CurrentDuring(s.log, n, Horizon(p, call.at), call.at)
            && c < |Asked(es)| && call.result.read.row == RowAfter(s.log, n, Asked(es)[c])
  {
    ReachableTraced(p, es);
    CallsKeepIds(p, es, c);
    var s := Exec(p, START, es);
    hide Exec, Asked;
    assert CallOk(p, s.log, s.clock, s.calls[c]);
    n := s.calls[c].result.read.version;
  }

  /** So once an id has been left alone for that long, a call that returns gives its current row. */
  lemma QuietReadsAreCurrent(p: Params, es: seq<Event>, c: nat)
    requires p.Valid() && ValidRun(p, START, es)
    requires var s := Exec(p, START, es);
             CallIn(s, c) && s.calls[c].Returned? && s.calls[c].result.Value?
    requires var s := Exec(p, START, es);
             var call := s.calls[c];
             forall i :: 0 <= i < call.after && i < |s.log| && c < |Asked(es)| && s.log[i].id == Asked(es)[c] ==>
               s.log[i].at < Horizon(p, call.at)
    ensures var s := Exec(p, START, es);
            var call := s.calls[c];
            && c < |Asked(es)| && call.after <= |s.log|
            && call.result.read.row == RowAfter(s.log, call.after, Asked(es)[c])
  {
    ReachableTraced(p, es);
    CallsKeepIds(p, es, c);
    var s := Exec(p, START, es);
    hide Exec, Asked;
    var call := s.calls[c];
    assert CallOk(p, s.log, s.clock, call);
    RowUnchanged(s.log, call.result.read.version, call.after, call.id);
  }

  lemma HitWasCurrent(p: Params, s: State, id: int) returns (n: nat)
    requires Traced(p, s) && Hit(s, id).Some?
    ensures CurrentDuring(s.log, n, s.clock - p.ttl - p.flight, s.clock)
    ensures Hit(s, id).value.read.row.Some?
    ensures Hit(s, id).value.read.row == RowAfter(s.log, n, id)
  {
    hide LogOk, OnTime, FlightOk, CallOk, RowAfter;
    HitIsTraced(p, s, id);
    assert EntryOk(p, s.log, s.clock, id, s.cache[id]);
    n := Hit(s, id).value.read.version;
  }

  /** A live cache entry holds a row that was its id's at some moment no longer ago than one TTL and one flight. */
  lemma HitIsRecent(p: Params, es: seq<Event>, id: int) returns (n: nat)
    requires p.Valid() && ValidRun(p, START, es) && Hit(Exec(p, START, es), id).Some?
    ensures var s := Exec(p, START, es);
            && CurrentDuring(s.log, n, s.clock - p.ttl - p.flight, s.clock)
            && Hit(s, id).value.read.row.Some?
            && Hit(s, id).value.read.row == RowAfter(s.log, n, id)
  {
    hide Exec, ValidRun, Ordered, Traced, Hit, CurrentDuring, RowAfter;
    ReachableTraced(p, es);
    n := HitWasCurrent(p, Exec(p, START, es), id);
  }
}
