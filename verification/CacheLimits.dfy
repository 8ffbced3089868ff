/** Two runs that show the theorems about the cache cannot be improved: reads are not linearizable, and the bound on
    staleness is attained. */
module CacheLimits {
  import opened Options
  import opened Domain
  import opened CacheProtocol
  import opened CacheStaleness
  import opened CacheAgreement

  /** Up to here a load has read version u of a row, and an update to v is complete, DEL included. */
  function LoadThenUpdate(u: User, v: User): seq<Event> {
    [Create(u)] + ([Arrive(0, u.id)] + ([OuterGet(0, true)] + ([Join(0)] + ([InnerGet(0, true)] +
    ([DbRead(0, true)] + ([Write(u.id, Some(v))] + ([Invalidate(0, true)] + [])))))))
  }

  /** A second call comes in, shares that load, and the load stores what it read. */
  function ShareOldLoad(id: int): seq<Event> {
    [Arrive(0, id)] + ([OuterGet(1, true)] + ([Join(1)] + ([CacheSet(0, true)] + ([Land(0)] + ([Return(1)] + [])))))
  }

  function OldRead(u: User): Read { Read(Some(u), 1, 0.0) }

  function AfterUpdate(u: User, v: User): State {
    State(0.0, [Commit(u.id, Some(u), 0.0, None), Commit(u.id, Some(v), 0.0, Some(0))], map[], [Waiting(0, u.id, 0)],
          [Flight(0, u.id, 0, 0.0, Storing(OldRead(u)))], map[(0, u.id) := 0], [Invalidated])
  }

  /** The state while the load of u is about to be stored and nothing else has happened. */
  function Loaded(u: User): State {
    State(0.0, [Commit(u.id, Some(u), 0.0, None)], map[], [Waiting(0, u.id, 0)],
          [Flight(0, u.id, 0, 0.0, Storing(OldRead(u)))], map[(0, u.id) := 0], [])
  }

  lemma LoadBegins(p: Params, u: User, rest: seq<Event>)
    requires ValidRun(p, Loaded(u), rest)
    ensures var es := [Create(u)] + ([Arrive(0, u.id)] + ([OuterGet(0, true)] + ([Join(0)] +
                      ([InnerGet(0, true)] + ([DbRead(0, true)] + rest)))));
            ValidRun(p, START, es) && Exec(p, START, es) == Exec(p, Loaded(u), rest)
  {
    var s1 := State(0.0, [Commit(u.id, Some(u), 0.0, None)], map[], [], [], map[], []);
    var s2 := s1.(calls := [Asking(0, u.id)]);
    var s3 := s1.(calls := [Joining(0, u.id)]);
    var s4 := Loaded(u).(flights := [Flight(0, u.id, 0, 0.0, Checking)]);
    var s5 := Loaded(u).(flights := [Flight(0, u.id, 0, 0.0, Reading)]);
    assert Enabled(p, START, Create(u)) && Next(p, START, Create(u)) == s1;
    assert Next(p, s1, Arrive(0, u.id)) == s2;
    assert Next(p, s2, OuterGet(0, true)) == s3;
    assert Next(p, s3, Join(0)) == s4;
    assert Next(p, s4, InnerGet(0, true)) == s5;
    assert CurrentRow(s5, u.id) == Some(u);
    assert Next(p, s5, DbRead(0, true)) == Loaded(u);
    hide Next, ValidRun, Exec;
    var es := rest;
    Prepend(p, s5, DbRead(0, true), es);       es := [DbRead(0, true)] + es;
    Prepend(p, s4, InnerGet(0, true), es);     es := [InnerGet(0, true)] + es;
    Prepend(p, s3, Join(0), es);               es := [Join(0)] + es;
    Prepend(p, s2, OuterGet(0, true), es);     es := [OuterGet(0, true)] + es;
    Prepend(p, s1, Arrive(0, u.id), es);       es := [Arrive(0, u.id)] + es;
    Prepend(p, START, Create(u), es);
  }

  lemma UpdateOvertakesLoad(p: Params, u: User, v: User)
    requires u.id == v.id
    ensures ValidRun(p, START, LoadThenUpdate(u, v))
    ensures Exec(p, START, LoadThenUpdate(u, v)) == AfterUpdate(u, v)
  {
    var s7 := AfterUpdate(u, v).(writers := [Pending(u.id)]);
    assert Next(p, Loaded(u), Write(u.id, Some(v))) == s7;
    assert Next(p, s7, Invalidate(0, true)) == AfterUpdate(u, v);
    var es: seq<Event> := [];
    assert ValidRun(p, AfterUpdate(u, v), es) && Exec(p, AfterUpdate(u, v), es) == AfterUpdate(u, v);
    hide Next, ValidRun, Exec;
    Prepend(p, s7, Invalidate(0, true), es);                   es := [Invalidate(0, true)] + es;
    Prepend(p, Loaded(u), Write(u.id, Some(v)), es);           es := [Write(u.id, Some(v))] + es;
    LoadBegins(p, u, es);
  }

  /** The state with the second call waiting for the load of the first. */
  function LoadShared(u: User, v: User): State {
    AfterUpdate(u, v).(calls := [Waiting(0, u.id, 0), Waiting(0, u.id, 0)])
  }

  lemma CallJoinsLoad(p: Params, u: User, v: User, rest: seq<Event>)
    requires ValidRun(p, LoadShared(u, v), rest)
    ensures var s, es := AfterUpdate(u, v), [Arrive(0, u.id)] + ([OuterGet(1, true)] + ([Join(1)] + rest));
            ValidRun(p, s, es) && Exec(p, s, es) == Exec(p, LoadShared(u, v), rest)
  {
    var s := AfterUpdate(u, v);
    var s1 := s.(calls := [Waiting(0, u.id, 0), Asking(0, u.id)]);
    var s2 := s.(calls := [Waiting(0, u.id, 0), Joining(0, u.id)]);
    assert Next(p, s, Arrive(0, u.id)) == s1;
    assert Next(p, s1, OuterGet(1, true)) == s2;
    assert Next(p, s2, Join(1)) == LoadShared(u, v);
    hide Next, ValidRun, Exec;
    var es := rest;
    Prepend(p, s2, Join(1), es);               es := [Join(1)] + es;
    Prepend(p, s1, OuterGet(1, true), es);     es := [OuterGet(1, true)] + es;
    Prepend(p, s, Arrive(0, u.id), es);
  }

  /** The old row has been stored and returned to the second call. */
  function OldRowReturned(p: Params, u: User, v: User): State {
    AfterUpdate(u, v).(cache := map[u.id := Entry(OldRead(u), 2, p.ttl)],
                       flights := [Flight(0, u.id, 0, 0.0, Landed(Value(OldRead(u))))],
                       group := map[],
                       calls := [Waiting(0, u.id, 0), Returned(u.id, Value(OldRead(u)), 0.0, 2, Some(0))])
  }

  lemma SharedLoadIsOld(p: Params, u: User, v: User)
    requires p.Valid() && u.id == v.id
    ensures ValidRun(p, AfterUpdate(u, v), ShareOldLoad(u.id))
    ensures Exec(p, AfterUpdate(u, v), ShareOldLoad(u.id)) == OldRowReturned(p, u, v)
  {
    var s3, t := LoadShared(u, v), OldRowReturned(p, u, v);
    var s4 := s3.(cache := t.cache, flights := [Flight(0, u.id, 0, 0.0, Ready(Value(OldRead(u))))]);
    var s5 := t.(calls := s3.calls);
    assert Next(p, s3, CacheSet(0, true)) == s4;
    assert Next(p, s4, Land(0)) == s5;
    assert Next(p, s5, Return(1)) == t;
    var es: seq<Event> := [];
    assert ValidRun(p, t, es) && Exec(p, t, es) == t;
    hide Next, ValidRun, Exec;
    Prepend(p, s5, Return(1), es);             es := [Return(1)] + es;
    Prepend(p, s4, Land(0), es);               es := [Land(0)] + es;
    Prepend(p, s3, CacheSet(0, true), es);     es := [CacheSet(0, true)] + es;
    CallJoinsLoad(p, u, v, es);
  }

  lemma AllDelsSucceed(u: User, v: User)
    ensures DelsSucceed(LoadThenUpdate(u, v) + ShareOldLoad(u.id))
  {
  }

  /** Not even with every cache call succeeding are reads linearizable. An update of u to any v completes, DEL
      included; only then does call 1 begin; yet it returns u, and u stays in the cache with no writer pending. */
  lemma OldRowAfterCompletedUpdate(p: Params, u: User, v: User) returns (first: seq<Event>, second: seq<Event>)
    requires p.Valid() && u.id == v.id && u != v
    ensures DelsSucceed(first + second) && ValidRun(p, START, first)
    ensures var s := Exec(p, START, first);
            && s.writers == [Invalidated] && CurrentRow(s, u.id) == Some(v) && !CallIn(s, 1)
            && ValidRun(p, s, second)
    ensures var t := Exec(p, Exec(p, START, first), second);
            && CallIn(t, 1) && t.calls[1].Returned? && t.calls[1].id == u.id && t.calls[1].result.Value?
            && t.calls[1].result.read.row == Some(u)
            && CurrentRow(t, u.id) == Some(v)
            && u.id in t.cache && t.cache[u.id].read.row == Some(u)
            && !PendingSince(t, u.id) && CrossingLoad(t, u.id)
  {
    hide Exec, ValidRun, Next, LoadThenUpdate, ShareOldLoad;
    first, second := LoadThenUpdate(u, v), ShareOldLoad(u.id);
    AllDelsSucceed(u, v);
    UpdateOvertakesLoad(p, u, v);
    SharedLoadIsOld(p, u, v);
    var t := Exec(p, AfterUpdate(u, v), second);
    assert t.log[1].id == u.id;
    assert RowAfter(t.log, 2, u.id) == Some(v);
  }

  /******* The oldest possible row *******/

  function OldFlight(u: User, stage: Stage): Flight { Flight(0, u.id, 0, 0.0, stage) }

  /** The old load takes all its time, and stores its row at the last moment. */
  function StoreLate(p: Params): seq<Event> {
    [Advance(p.flight)] + ([CacheSet(0, true)] + ([Land(0)] + ([Return(0)] + [])))
  }

  function StoredLate(p: Params, u: User, v: User): State {
    AfterUpdate(u, v).(clock := p.flight,
                       cache := map[u.id := Entry(OldRead(u), 2, p.flight + p.ttl)],
                       calls := [Returned(u.id, Value(OldRead(u)), p.flight, 2, Some(0))],
                       flights := [OldFlight(u, Landed(Value(OldRead(u))))],
                       group := map[])
  }

  lemma StoringLate(p: Params, u: User, v: User)
    requires p.Valid() && u.id == v.id
    ensures ValidRun(p, AfterUpdate(u, v), StoreLate(p))
    ensures Exec(p, AfterUpdate(u, v), StoreLate(p)) == StoredLate(p, u, v)
  {
    var s := AfterUpdate(u, v);
    var s1 := s.(clock := p.flight);
    var s2 := s1.(cache := StoredLate(p, u, v).cache, flights := [OldFlight(u, Ready(Value(OldRead(u))))]);
    var s3 := StoredLate(p, u, v).(calls := [Waiting(0, u.id, 0)]);
    assert Next(p, s, Advance(p.flight)) == s1;
    assert Next(p, s1, CacheSet(0, true)) == s2;
    assert Next(p, s2, Land(0)) == s3;
    assert Next(p, s3, Return(0)) == StoredLate(p, u, v);
    var es: seq<Event> := [];
    assert ValidRun(p, StoredLate(p, u, v), es) && Exec(p, StoredLate(p, u, v), es) == StoredLate(p, u, v);
    hide Next, ValidRun, Exec;
    Prepend(p, s3, Return(0), es);             es := [Return(0)] + es;
    Prepend(p, s2, Land(0), es);               es := [Land(0)] + es;
    Prepend(p, s1, CacheSet(0, true), es);     es := [CacheSet(0, true)] + es;
    Prepend(p, s, Advance(p.flight), es);
  }

  /** A new load finds the entry as it expires, and takes all its time, too. */
  function HitLate(p: Params, id: int): seq<Event> {
    [Advance(p.flight + p.ttl)] + ([Arrive(0, id)] + ([OuterGet(1, false)] + ([Join(1)] + ([InnerGet(1, true)] +
    ([Advance(p.ttl + 2.0 * p.flight)] + ([Land(1)] + ([Return(1)] + [])))))))
  }

  function ReturnedLate(p: Params, u: User): Call {
    Returned(u.id, Value(OldRead(u)), p.ttl + 2.0 * p.flight, 2, Some(1))
  }

  /** The state with the new load begun. */
  function LateLoad(p: Params, u: User, v: User): State {
    var s := StoredLate(p, u, v);
    s.(clock := p.flight + p.ttl,
       calls := [s.calls[0], Waiting(0, u.id, 1)],
       flights := [s.flights[0], Flight(0, u.id, 1, p.flight + p.ttl, Checking)],
       group := map[(0, u.id) := 1])
  }

  lemma LateLoadBegins(p: Params, u: User, v: User, rest: seq<Event>)
    requires p.Valid() && u.id == v.id && ValidRun(p, LateLoad(p, u, v), rest)
    ensures var s := StoredLate(p, u, v);
            var es := [Advance(p.flight + p.ttl)] + ([Arrive(0, u.id)] + ([OuterGet(1, false)] + ([Join(1)] + rest)));
            ValidRun(p, s, es) && Exec(p, s, es) == Exec(p, LateLoad(p, u, v), rest)
  {
    var s := StoredLate(p, u, v);
    var start := p.flight + p.ttl;
    var s1 := s.(clock := start);
    var s2 := s1.(calls := [s.calls[0], Asking(0, u.id)]);
    var s3 := s1.(calls := [s.calls[0], Joining(0, u.id)]);
    assert Next(p, s, Advance(start)) == s1;
    assert Next(p, s1, Arrive(0, u.id)) == s2;
    assert Next(p, s2, OuterGet(1, false)) == s3;
    assert Next(p, s3, Join(1)) == LateLoad(p, u, v);
    hide Next, ValidRun, Exec;
    var es := rest;
    Prepend(p, s3, Join(1), es);               es := [Join(1)] + es;
    Prepend(p, s2, OuterGet(1, false), es);    es := [OuterGet(1, false)] + es;
    Prepend(p, s1, Arrive(0, u.id), es);       es := [Arrive(0, u.id)] + es;
    Prepend(p, s, Advance(start), es);
  }

  /** The state with the old row found, and all of the time taken. */
  function LateHit(p: Params, u: User, v: User): State {
    var s := LateLoad(p, u, v);
    s.(clock := p.ttl + 2.0 * p.flight,
       flights := [s.flights[0], s.flights[1].(stage := Ready(Value(OldRead(u))))])
  }

  lemma LateLoadHits(p: Params, u: User, v: User, rest: seq<Event>)
    requires p.Valid() && u.id == v.id && ValidRun(p, LateHit(p, u, v), rest)
    ensures var s := LateLoad(p, u, v);
            var es := [InnerGet(1, true)] + ([Advance(p.ttl + 2.0 * p.flight)] + rest);
            ValidRun(p, s, es) && Exec(p, s, es) == Exec(p, LateHit(p, u, v), rest)
  {
    var s, t := LateLoad(p, u, v), LateHit(p, u, v);
    var s1 := t.(clock := s.clock);
    assert Hit(s, u.id) == Some(s.cache[u.id]);
    assert Next(p, s, InnerGet(1, true)) == s1;
    assert Next(p, s1, Advance(t.clock)) == t;
    hide Next, ValidRun, Exec;
    Prepend(p, s1, Advance(t.clock), rest);
    Prepend(p, s, InnerGet(1, true), [Advance(t.clock)] + rest);
  }

  lemma HittingLate(p: Params, u: User, v: User)
    requires p.Valid() && u.id == v.id
    ensures ValidRun(p, StoredLate(p, u, v), HitLate(p, u.id))
    ensures var t := Exec(p, StoredLate(p, u, v), HitLate(p, u.id));
            t.log == AfterUpdate(u, v).log && |t.calls| == 2 && t.calls[1] == ReturnedLate(p, u)
  {
    var s := LateHit(p, u, v);
    var s1 := s.(flights := [s.flights[0], s.flights[1].(stage := Landed(Value(OldRead(u))))], group := map[]);
    var t := s1.(calls := [s.calls[0], ReturnedLate(p, u)]);
    assert Next(p, s, Land(1)) == s1;
    assert Next(p, s1, Return(1)) == t;
    var es: seq<Event> := [];
    assert ValidRun(p, t, es) && Exec(p, t, es) == t;
    hide Next, ValidRun, Exec;
    Prepend(p, s1, Return(1), es);             es := [Return(1)] + es;
    Prepend(p, s, Land(1), es);                es := [Land(1)] + es;
    LateLoadHits(p, u, v, es);
    LateLoadBegins(p, u, v, [InnerGet(1, true)] + ([Advance(s.clock)] + es));
  }

  /** The bound of BoundedStaleness is attained, with every DEL succeeding: a call returns u although u was last
      current one TTL and two flights ago, so no later moment can be promised. */
  lemma StalenessBoundTight(p: Params, u: User, v: User) returns (es: seq<Event>, c: nat)
    requires p.Valid() && u.id == v.id && u != v
    ensures DelsSucceed(es) && ValidRun(p, START, es)
    ensures var t := Exec(p, START, es);
            && CallIn(t, c) && t.calls[c].Returned? && t.calls[c].result.Value?
            && c < |Asked(es)|
            && forall n: nat, from: real ::
                 CurrentDuring(t.log, n, from, t.calls[c].at)
                 && t.calls[c].result.read.row == RowAfter(t.log, n, Asked(es)[c])
                 ==> from <= Horizon(p, t.calls[c].at)
  {
    hide Next, Enabled, ValidRun, Exec, Asked;
    var s := AfterUpdate(u, v);
    var first, second, third := LoadThenUpdate(u, v), StoreLate(p), HitLate(p, u.id);
    UpdateOvertakesLoad(p, u, v);
    StoringLate(p, u, v);
    HittingLate(p, u, v);
    Concatenate(p, s, second, third);
    Concatenate(p, START, first, second + third);
    es, c := first + (second + third), 1;
    CallsKeepIds(p, es, c);
    RowsOfLog(u, v);
  }

  /** u was current between the two commits, and at no other time. */
  lemma RowsOfLog(u: User, v: User)
    requires u.id == v.id && u != v
    ensures var log := AfterUpdate(u, v).log;
            |log| == 2 && log[1].at == 0.0
            && forall n: nat :: n <= 2 ==> (RowAfter(log, n, u.id) == Some(u) <==> n == 1)
  {
    var log := AfterUpdate(u, v).log;
    assert RowAfter(log, 0, u.id) == None;
    assert RowAfter(log, 1, u.id) == Some(u);
    assert RowAfter(log, 2, u.id) == Some(v);
  }
}
