/** The cached repository under concurrency: any number of instances, readers and writers, interleaved at every
    call to Redis or the database. Readers share loads through single-flight, one group per instance; cache calls
    may fail; entries expire.

    The database is its commit log. A read carries how many commits it saw and when it was made; those two are
    history only, no step looks at them. Cache entries are indexed by id (Keys.CacheKeyInjective). */
module CacheProtocol {
  import opened Options
  import opened Domain

  /** The TTL of cache entries, and the longest time from the start of a load to the return of the last call that
      shares it. */
  datatype Params = Params(ttl: real, flight: real) {
    predicate Valid() { ttl > 0.0 && flight >= 0.0 }
  }

  /** A committed change of one row; `writer` is the call that will invalidate the cache, None for Create. */
  datatype Commit = Commit(id: int, row: Option<User>, at: real, writer: Option<nat>)

  datatype Read = Read(row: Option<User>, version: nat, at: real)

  /** What GetByID returns: a row or "not found" as read from the database, or a database error. */
  datatype Outcome = Value(read: Read) | DbError

  /** A cache entry; `storedAfter` is the number of commits at its SET. */
  datatype Entry = Entry(read: Read, storedAfter: nat, expiresAt: real)

  /** A load: the double-check of the cache, the database read, the SET, the result before and after
      single-flight forgets the key. */
  datatype Stage = Checking | Reading | Storing(read: Read) | Ready(result: Outcome) | Landed(result: Outcome)

  datatype Flight = Flight(instance: nat, id: int, leader: nat, start: real, stage: Stage)

  /** A GetByID call for an id: before its own cache GET, before group.Do, inside it, or back. */
  datatype Call =
    | Asking(instance: nat, id: int)
    | Joining(instance: nat, id: int)
    | Waiting(instance: nat, id: int, flight: nat)
    | Returned(id: int, result: Outcome, at: real, after: nat, shared: Option<nat>)

  /** An Update or Delete between its commit and its cache DEL, or after a DEL that went through or did not. */
  datatype Writer = Pending(id: int) | Invalidated | Missed(id: int)

  datatype State = State(clock: real, log: seq<Commit>, cache: map<int, Entry>, calls: seq<Call>,
                         flights: seq<Flight>, group: map<(nat, int), nat>, writers: seq<Writer>)

  const START: State := State(0.0, [], map[], [], [], map[], [])

  datatype Event =
    | Advance(to: real)
    | Arrive(instance: nat, id: int)
    | OuterGet(call: nat, ok: bool)
    | Join(call: nat)
    | InnerGet(flight: nat, ok: bool)
    | DbRead(flight: nat, ok: bool)
    | CacheSet(flight: nat, ok: bool)
    | Land(flight: nat)
    | Return(call: nat)
    | Create(user: User)
    | Write(id: int, row: Option<User>)
    | Invalidate(writer: nat, ok: bool)

  /** The row of an id after the first n commits. */
  function RowAfter(log: seq<Commit>, n: nat, id: int): Option<User>
    requires n <= |log|
  {
    if n == 0 then None
    else if log[n - 1].id == id then log[n - 1].row
    else RowAfter(log, n - 1, id)
  }

  function CurrentRow(s: State, id: int): Option<User> { RowAfter(s.log, |s.log|, id) }

  /** The entry a GET finds. */
  function Hit(s: State, id: int): Option<Entry> {
    if id in s.cache && s.clock <= s.cache[id].expiresAt then Some(s.cache[id]) else None
  }

  predicate CallIn(s: State, c: nat) { c < |s.calls| }

  predicate FlightIn(s: State, n: nat) { n < |s.flights| }

  predicate Enabled(p: Params, s: State, e: Event) {
    match e
    case Advance(to) =>
      && s.clock <= to
      && forall c :: 0 <= c < |s.calls| && s.calls[c].Waiting? && FlightIn(s, s.calls[c].flight) ==>
           to <= s.flights[s.calls[c].flight].start + p.flight
    case Arrive(_, _) => true
    case OuterGet(c, _) => CallIn(s, c) && s.calls[c].Asking?
    case Join(c) => CallIn(s, c) && s.calls[c].Joining?
    case InnerGet(n, _) => FlightIn(s, n) && s.flights[n].stage.Checking?
    case DbRead(n, _) => FlightIn(s, n) && s.flights[n].stage.Reading?
    case CacheSet(n, _) => FlightIn(s, n) && s.flights[n].stage.Storing? && s.flights[n].stage.read.row.Some?
    case Land(n) => FlightIn(s, n) && s.flights[n].stage.Ready?
    case Return(c) =>
      CallIn(s, c) && s.calls[c].Waiting? && FlightIn(s, s.calls[c].flight)
      && s.flights[s.calls[c].flight].stage.Landed?
    case Create(user) => CurrentRow(s, user.id).None?
    case Write(id, row) => row.Some? ==> row.value.id == id
    case Invalidate(w, _) => w < |s.writers| && s.writers[w].Pending?
  }

  function WithStage(s: State, n: nat, stage: Stage): seq<Flight>
    requires FlightIn(s, n)
  {
    s.flights[n := s.flights[n].(stage := stage)]
  }

  function Back(s: State, id: int, result: Outcome, shared: Option<nat>): Call {
    Returned(id, result, s.clock, |s.log|, shared)
  }

  function Next(p: Params, s: State, e: Event): State
    requires Enabled(p, s, e)
  {
    match e
    case Advance(to) => s.(clock := to)
    case Arrive(i, id) => s.(calls := s.calls + [Asking(i, id)])
    case OuterGet(c, ok) =>
      var call := s.calls[c];
      var hit := Hit(s, call.id);
      s.(calls := s.calls[c := if ok && hit.Some? then Back(s, call.id, Value(hit.value.read), None)
                               else Joining(call.instance, call.id)])
    case Join(c) =>
      var call := s.calls[c];
      var key := (call.instance, call.id);
      if key in s.group then s.(calls := s.calls[c := Waiting(call.instance, call.id, s.group[key])])
      else
        var n := |s.flights|;
        s.(calls := s.calls[c := Waiting(call.instance, call.id, n)],
           flights := s.flights + [Flight(call.instance, call.id, c, s.clock, Checking)],
           group := s.group[key := n])
    case InnerGet(n, ok) =>
      var hit := Hit(s, s.flights[n].id);
      s.(flights := WithStage(s, n, if ok && hit.Some? then Ready(Value(hit.value.read)) else Reading))
    case DbRead(n, ok) =>
      var read := Read(CurrentRow(s, s.flights[n].id), |s.log|, s.clock);
      s.(flights := WithStage(s, n, if !ok then Ready(DbError)
                                    else if read.row.None? then Ready(Value(read))
                                    else Storing(read)))
    case CacheSet(n, ok) =>
      var read := s.flights[n].stage.read;
      s.(flights := WithStage(s, n, Ready(Value(read))),
         cache := if ok then s.cache[read.row.value.id := Entry(read, |s.log|, s.clock + p.ttl)] else s.cache)
    case Land(n) =>
      var f := s.flights[n];
      s.(flights := WithStage(s, n, Landed(f.stage.result)), group := s.group - {(f.instance, f.id)})
    case Return(c) =>
      var call := s.calls[c];
      s.(calls := s.calls[c := Back(s, call.id, s.flights[call.flight].stage.result, Some(call.flight))])
    case Create(user) => s.(log := s.log + [Commit(user.id, Some(user), s.clock, None)])
    case Write(id, row) =>
      s.(log := s.log + [Commit(id, row, s.clock, Some(|s.writers|))], writers := s.writers + [Pending(id)])
    case Invalidate(w, ok) =>
      s.(writers := s.writers[w := if ok then Invalidated else Missed(s.writers[w].id)],
         cache := if ok then s.cache - {s.writers[w].id} else s.cache)
  }

  predicate ValidRun(p: Params, s: State, es: seq<Event>)
    decreases |es|
  {
    es == [] || (Enabled(p, s, es[0]) && ValidRun(p, Next(p, s, es[0]), es[1..]))
  }

  function Exec(p: Params, s: State, es: seq<Event>): State
    requires ValidRun(p, s, es)
    decreases |es|
  {
    if es == [] then s else Exec(p, Next(p, s, es[0]), es[1..])
  }

  lemma Prepend(p: Params, s: State, e: Event, es: seq<Event>)
    requires Enabled(p, s, e) && ValidRun(p, Next(p, s, e), es)
    ensures ValidRun(p, s, [e] + es) && Exec(p, s, [e] + es) == Exec(p, Next(p, s, e), es)
  {
    assert ([e] + es)[1..] == es;
  }

  lemma {:induction false} Concatenate(p: Params, s: State, es: seq<Event>, fs: seq<Event>)
    requires ValidRun(p, s, es) && ValidRun(p, Exec(p, s, es), fs)
    ensures ValidRun(p, s, es + fs) && Exec(p, s, es + fs) == Exec(p, Exec(p, s, es), fs)
    decreases |es|
  {
    hide Next, Enabled;
    if es == [] {
      assert es + fs == fs;
    } else {
      Concatenate(p, Next(p, s, es[0]), es[1..], fs);
      assert (es + fs)[1..] == es[1..] + fs;
    }
  }

  /** The ids the calls of a run asked for, in the order of their arrival. */
  function Asked(es: seq<Event>): seq<int> {
    if es == [] then [] else (if es[0].Arrive? then [es[0].id] else []) + Asked(es[1..])
  }

  lemma StepKeepsIds(p: Params, s: State, e: Event)
    requires Enabled(p, s, e)
    ensures |Next(p, s, e).calls| == |s.calls| + if e.Arrive? then 1 else 0
    ensures forall c: nat :: c < |s.calls| ==> Next(p, s, e).calls[c].id == s.calls[c].id
    ensures e.Arrive? ==> Next(p, s, e).calls[|s.calls|].id == e.id
  {
    hide Hit, CurrentRow;
  }

  lemma {:induction false} RunKeepsIds(p: Params, s: State, es: seq<Event>)
    requires ValidRun(p, s, es)
    ensures |Exec(p, s, es).calls| == |s.calls| + |Asked(es)|
    ensures forall c: nat :: c < |s.calls| ==> Exec(p, s, es).calls[c].id == s.calls[c].id
    ensures forall k: nat :: k < |Asked(es)| ==> Exec(p, s, es).calls[|s.calls| + k].id == Asked(es)[k]
    decreases |es|
  {
    hide Next, Enabled;
    if es != [] {
      StepKeepsIds(p, s, es[0]);
      RunKeepsIds(p, Next(p, s, es[0]), es[1..]);
    }
  }

  /** A call keeps the id it arrived with. */
  lemma CallsKeepIds(p: Params, es: seq<Event>, c: nat)
    requires ValidRun(p, START, es) && CallIn(Exec(p, START, es), c)
    ensures c < |Asked(es)| && Exec(p, START, es).calls[c].id == Asked(es)[c]
  {
    hide Exec, ValidRun, Asked;
    RunKeepsIds(p, START, es);
    assert |START.calls| == 0;
  }

  /******* Facts about the log *******/

  lemma {:induction false} RowOfLongerLog(log: seq<Commit>, c: Commit, n: nat, id: int)
    requires n <= |log|
    ensures RowAfter(log + [c], n, id) == RowAfter(log, n, id)
  {
    if n > 0 {
      RowOfLongerLog(log, c, n - 1, id);
    }
  }

  /** Without a commit of the id in between, its row stays. */
  lemma {:induction false} RowUnchanged(log: seq<Commit>, m: nat, n: nat, id: int)
    requires m <= n <= |log|
    requires forall i :: m <= i < n ==> log[i].id != id
    ensures RowAfter(log, n, id) == RowAfter(log, m, id)
  {
    if m < n {
      RowUnchanged(log, m, n - 1, id);
    }
  }
}
