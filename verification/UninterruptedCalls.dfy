/** A call of the cached repository that nobody interrupts takes a few steps of the protocol, and they do what the
    sequential repository does. So both describe one and the same cache. */
module UninterruptedCalls {
  import opened Options
  import opened Domain
  import opened Postgres
  import opened CachedRepository
  import opened CacheProtocol
  import opened CacheStaleness
  import Redis
  import Keys

  /** Table and Redis hold what the commit log and the protocol's cache say. */
  ghost predicate Represents(s: State, w: World) {
    && WellFormed(w.table)
    && (forall id :: CurrentRow(s, id) == RowOf(w.table, id))
    && (forall id :: EntryOf(w.store, id) == ProtocolEntry(s, id))
  }

  function RowOf(t: Table, id: int): Option<User> {
    if id in t.rows then Some(t.rows[id]) else None
  }

  function EntryOf(store: Redis.Store, id: int): Option<Redis.Entry> {
    if Keys.CacheKey(id) in store then Some(store[Keys.CacheKey(id)]) else None
  }

  function ProtocolEntry(s: State, id: int): Option<Redis.Entry> {
    if id in s.cache && s.cache[id].read.row.Some?
    then Some(Redis.Entry(Redis.UserJson(s.cache[id].read.row.value), s.cache[id].expiresAt))
    else None
  }

  /** Cache entries hold rows, as in every reachable state. */
  ghost predicate HoldsRows(s: State) {
    forall id :: id in s.cache ==> s.cache[id].read.row.Some?
  }

  lemma ReachableHoldsRows(p: Params, es: seq<Event>)
    requires p.Valid() && ValidRun(p, START, es)
    ensures HoldsRows(Exec(p, START, es))
  {
    hide Exec, ValidRun;
    ReachableTraced(p, es);
    var s := Exec(p, START, es);
    assert forall id :: id in s.cache ==> EntryOk(p, s.log, s.clock, id, s.cache[id]);
  }

  lemma StartRepresented()
    ensures Represents(START, World(EMPTY_TABLE, map[]))
  {
  }

  /** The outcome in the protocol is the repository's answer. */
  predicate SameAnswer(o: Outcome, r: Result<User, Error>) {
    match r
    case Ok(user) => o.Value? && o.read.row == Some(user)
    case Err(NotFound) => o.Value? && o.read.row.None?
    case Err(Internal(Unavailable)) => o.DbError?
    case Err(_) => false
  }

  /** No time passes during the call. */
  predicate AtOnce(f: Weather, clock: real) { f.outerAt == clock && f.innerAt == clock && f.setAt == clock }

  lemma SameHits(s: State, w: World, id: int, ok: bool)
    requires Represents(s, w) && HoldsRows(s)
    ensures (ok && Hit(s, id).Some?) <==> CacheGet(w.store, id, ok, s.clock).Hit?
    ensures ok && Hit(s, id).Some? ==>
      Hit(s, id).value.read.row == Some(CacheGet(w.store, id, ok, s.clock).user)
  {
    hide Keys.CacheKey, CurrentRow;
    assert EntryOf(w.store, id) == ProtocolEntry(s, id);
  }

  /******* The steps of GetByID *******/

  /** The load of the call has come to `stage`, and the cache is `cache`. */
  function Loading(s: State, instance: nat, id: int, stage: Stage, cache: map<int, Entry>): State {
    var n := |s.flights|;
    s.(calls := s.calls + [Waiting(instance, id, n)],
       flights := s.flights + [Flight(instance, id, |s.calls|, s.clock, stage)],
       group := s.group[(instance, id) := n],
       cache := cache)
  }

  function Loaded(s: State, instance: nat, id: int, result: Outcome, cache: map<int, Entry>): State {
    s.(calls := s.calls + [Returned(id, result, s.clock, |s.log|, Some(|s.flights|))],
       flights := s.flights + [Flight(instance, id, |s.calls|, s.clock, Landed(result))],
       cache := cache)
  }

  lemma OneStep(p: Params, s: State, e: Event, t: State)
    requires Enabled(p, s, e) && Next(p, s, e) == t
    ensures ValidRun(p, s, [e]) && Exec(p, s, [e]) == t
  {
    assert ValidRun(p, t, []) && Exec(p, t, []) == t;
    assert [e] + [] == [e];
    hide Next, Enabled;
    Prepend(p, s, e, []);
  }

  lemma TwoSteps(p: Params, s: State, e: Event, t: State, d: Event, v: State)
    requires Enabled(p, s, e) && Next(p, s, e) == t && Enabled(p, t, d) && Next(p, t, d) == v
    ensures ValidRun(p, s, [e, d]) && Exec(p, s, [e, d]) == v
  {
    hide Next, Enabled;
    OneStep(p, t, d, v);
    Prepend(p, s, e, [d]);
    assert [e] + [d] == [e, d];
  }

  lemma HitAtOnce(p: Params, s: State, instance: nat, id: int) returns (es: seq<Event>)
    requires Hit(s, id).Some?
    ensures ValidRun(p, s, es)
    ensures Exec(p, s, es)
         == s.(calls := s.calls + [Returned(id, Value(Hit(s, id).value.read), s.clock, |s.log|, None)])
  {
    var c := |s.calls|;
    var s1 := s.(calls := s.calls + [Asking(instance, id)]);
    var t := s.(calls := s.calls + [Returned(id, Value(Hit(s, id).value.read), s.clock, |s.log|, None)]);
    es := [Arrive(instance, id), OuterGet(c, true)];
    assert Next(p, s1, OuterGet(c, true)) == t;
    TwoSteps(p, s, es[0], s1, es[1], t);
  }

  lemma LoadStarts(p: Params, s: State, instance: nat, id: int, ok: bool) returns (es: seq<Event>)
    requires (instance, id) !in s.group && !(ok && Hit(s, id).Some?)
    ensures ValidRun(p, s, es)
    ensures Exec(p, s, es) == Loading(s, instance, id, Checking, s.cache)
  {
    var c := |s.calls|;
    var s1 := s.(calls := s.calls + [Asking(instance, id)]);
    var s2 := s.(calls := s.calls + [Joining(instance, id)]);
    var t := Loading(s, instance, id, Checking, s.cache);
    es := [Arrive(instance, id), OuterGet(c, ok)];
    assert Next(p, s1, OuterGet(c, ok)) == s2;
    TwoSteps(p, s, es[0], s1, es[1], s2);
    assert Next(p, s2, Join(c)) == t;
    OneStep(p, s2, Join(c), t);
    Concatenate(p, s, es, [Join(c)]);
    es := es + [Join(c)];
  }

  lemma LoadEnds(p: Params, s: State, instance: nat, id: int, result: Outcome, cache: map<int, Entry>)
    returns (es: seq<Event>)
    requires (instance, id) !in s.group
    ensures ValidRun(p, Loading(s, instance, id, Ready(result), cache), es)
    ensures Exec(p, Loading(s, instance, id, Ready(result), cache), es) == Loaded(s, instance, id, result, cache)
  {
    var c, n := |s.calls|, |s.flights|;
    var s1, t := Loading(s, instance, id, Ready(result), cache), Loaded(s, instance, id, result, cache);
    var s2 := t.(calls := s1.calls);
    assert s1.group - {(instance, id)} == s.group;
    assert Next(p, s1, Land(n)) == s2;
    assert Next(p, s2, Return(c)) == t;
    es := [Land(n), Return(c)];
    TwoSteps(p, s1, Land(n), s2, Return(c), t);
  }

  /** What the load comes to, and the cache it leaves. */
  function LoadResult(s: State, id: int, f: Weather): Outcome {
    if f.innerGet && Hit(s, id).Some? then Value(Hit(s, id).value.read)
    else if !f.db then DbError
    else Value(Read(CurrentRow(s, id), |s.log|, s.clock))
  }

  function LoadCache(p: Params, s: State, id: int, f: Weather): map<int, Entry> {
    var row := CurrentRow(s, id);
    if (f.innerGet && Hit(s, id).Some?) || !f.db || row.None? || !f.put then s.cache
    else s.cache[row.value.id := Entry(Read(row, |s.log|, s.clock), |s.log|, s.clock + p.ttl)]
  }

  lemma LoadRuns(p: Params, s: State, instance: nat, id: int, f: Weather) returns (es: seq<Event>)
    ensures ValidRun(p, Loading(s, instance, id, Checking, s.cache), es)
    ensures Exec(p, Loading(s, instance, id, Checking, s.cache), es)
         == Loading(s, instance, id, Ready(LoadResult(s, id, f)), LoadCache(p, s, id, f))
  {
    var n := |s.flights|;
    var s1, t := Loading(s, instance, id, Checking, s.cache),
                 Loading(s, instance, id, Ready(LoadResult(s, id, f)), LoadCache(p, s, id, f));
    assert Hit(s1, id) == Hit(s, id);
    if f.innerGet && Hit(s, id).Some? {
      assert Next(p, s1, InnerGet(n, true)) == t;
      OneStep(p, s1, InnerGet(n, true), t);
      es := [InnerGet(n, true)];
    } else {
      var s2 := Loading(s, instance, id, Reading, s.cache);
      assert Next(p, s1, InnerGet(n, f.innerGet)) == s2;
      es := ReadAndStore(p, s, instance, id, f);
      OneStep(p, s1, InnerGet(n, f.innerGet), s2);
      hide Next, Enabled, Loading, LoadResult, LoadCache;
      Concatenate(p, s1, [InnerGet(n, f.innerGet)], es);
      es := [InnerGet(n, f.innerGet)] + es;
    }
  }

  lemma ReadAndStore(p: Params, s: State, instance: nat, id: int, f: Weather) returns (es: seq<Event>)
    requires !(f.innerGet && Hit(s, id).Some?)
    ensures ValidRun(p, Loading(s, instance, id, Reading, s.cache), es)
    ensures Exec(p, Loading(s, instance, id, Reading, s.cache), es)
         == Loading(s, instance, id, Ready(LoadResult(s, id, f)), LoadCache(p, s, id, f))
  {
    var n := |s.flights|;
    var s1, t := Loading(s, instance, id, Reading, s.cache),
                 Loading(s, instance, id, Ready(LoadResult(s, id, f)), LoadCache(p, s, id, f));
    assert CurrentRow(s1, id) == CurrentRow(s, id);
    if !f.db || CurrentRow(s, id).None? {
      assert Next(p, s1, DbRead(n, f.db)) == t;
      OneStep(p, s1, DbRead(n, f.db), t);
      es := [DbRead(n, f.db)];
    } else {
      var s2 := Loading(s, instance, id, Storing(LoadResult(s, id, f).read), s.cache);
      assert Next(p, s1, DbRead(n, true)) == s2;
      assert Next(p, s2, CacheSet(n, f.put)) == t;
      TwoSteps(p, s1, DbRead(n, true), s2, CacheSet(n, f.put), t);
      es := [DbRead(n, true), CacheSet(n, f.put)];
    }
  }

  lemma LoadRepresents(p: Params, s: State, w: World, id: int, f: Weather, t: State)
    requires Represents(s, w) && HoldsRows(s) && AtOnce(f, s.clock)
    requires !CacheGet(w.store, id, f.outerGet, s.clock).Hit?
    requires t.log == s.log && t.cache == LoadCache(p, s, id, f)
    ensures var (w', r) := LoadById(w, id, p.ttl, f);
            Represents(t, w') && HoldsRows(t) && SameAnswer(LoadResult(s, id, f), r)
  {
    hide Keys.CacheKey, RowAfter, CacheGet, Hit;
    SameHits(s, w, id, f.innerGet);
    assert CurrentRow(s, id) == RowOf(w.table, id);
    var w' := LoadById(w, id, p.ttl, f).0;
    forall other
      ensures CurrentRow(t, other) == RowOf(w'.table, other)
    {
      assert CurrentRow(s, other) == RowOf(w.table, other);
    }
    forall other
      ensures EntryOf(w'.store, other) == ProtocolEntry(t, other)
    {
      assert EntryOf(w.store, other) == ProtocolEntry(s, other);
      OtherKeys(id, other);
    }
  }

  /** GetByID by a caller with no load of the id under way in its instance. */
  lemma GetByIDUninterrupted(p: Params, s: State, w: World, instance: nat, id: int, f: Weather)
    returns (es: seq<Event>)
    requires Represents(s, w) && HoldsRows(s) && AtOnce(f, s.clock) && (instance, id) !in s.group
    ensures ValidRun(p, s, es)
    ensures var t, c := Exec(p, s, es), |s.calls|;
            var (w', r) := LoadById(w, id, p.ttl, f);
            && Represents(t, w') && HoldsRows(t) && t.log == s.log && t.group == s.group
            && CallIn(t, c) && t.calls[c].Returned? && t.calls[c].id == id && SameAnswer(t.calls[c].result, r)
  {
    SameHits(s, w, id, f.outerGet);
    if f.outerGet && Hit(s, id).Some? {
      es := HitAtOnce(p, s, instance, id);
      hide Exec, ValidRun, Hit, CacheGet, CurrentRow;
      SameRepresented(s, Exec(p, s, es), w);
    } else {
      hide Exec, ValidRun, Hit, CacheGet, LoadById, Represents, HoldsRows, SameAnswer, LoadResult, LoadCache;
      var result, cache := LoadResult(s, id, f), LoadCache(p, s, id, f);
      var first := LoadStarts(p, s, instance, id, f.outerGet);
      var second := LoadRuns(p, s, instance, id, f);
      var third := LoadEnds(p, s, instance, id, result, cache);
      Concatenate(p, s, first, second);
      Concatenate(p, s, first + second, third);
      es := first + second + third;
      LoadRepresents(p, s, w, id, f, Loaded(s, instance, id, result, cache));
    }
  }

  lemma SameRepresented(s: State, t: State, w: World)
    requires Represents(s, w) && HoldsRows(s) && t.log == s.log && t.cache == s.cache
    ensures Represents(t, w) && HoldsRows(t)
  {
    hide RowAfter;
    assert forall id :: CurrentRow(t, id) == CurrentRow(s, id) && ProtocolEntry(t, id) == ProtocolEntry(s, id);
  }

  /******* Writes *******/

  /** After a commit and, if it went through, the DEL. */
  function Written(s: State, id: int, row: Option<User>, ok: bool): State {
    s.(log := s.log + [Commit(id, row, s.clock, Some(|s.writers|))],
       writers := s.writers + [if ok then Invalidated else Missed(id)],
       cache := if ok then s.cache - {id} else s.cache)
  }

  lemma WriteRuns(p: Params, s: State, id: int, row: Option<User>, ok: bool) returns (es: seq<Event>)
    requires row.Some? ==> row.value.id == id
    ensures ValidRun(p, s, es) && Exec(p, s, es) == Written(s, id, row, ok)
  {
    var w := |s.writers|;
    var s1 := s.(log := s.log + [Commit(id, row, s.clock, Some(w))], writers := s.writers + [Pending(id)]);
    es := [Write(id, row), Invalidate(w, ok)];
    TwoSteps(p, s, Write(id, row), s1, Invalidate(w, ok), Written(s, id, row, ok));
  }

  lemma RowAfterCommit(s: State, id: int, row: Option<User>, ok: bool, other: int)
    ensures CurrentRow(Written(s, id, row, ok), other) == if other == id then row else CurrentRow(s, other)
  {
    RowOfLongerLog(s.log, Commit(id, row, s.clock, Some(|s.writers|)), |s.log|, other);
  }

  lemma WriteRepresents(s: State, w: World, id: int, row: Option<User>, ok: bool, w': World)
    requires Represents(s, w) && HoldsRows(s) && WellFormed(w'.table)
    requires forall other :: RowOf(w'.table, other) == if other == id then row else RowOf(w.table, other)
    requires w'.store == if ok then Redis.DelUsers(w.store, [id]) else w.store
    ensures Represents(Written(s, id, row, ok), w') && HoldsRows(Written(s, id, row, ok))
  {
    hide Keys.CacheKey, CurrentRow;
    var t := Written(s, id, row, ok);
    forall other
      ensures CurrentRow(t, other) == RowOf(w'.table, other)
    {
      assert CurrentRow(s, other) == RowOf(w.table, other);
      RowAfterCommit(s, id, row, ok, other);
    }
    forall other
      ensures EntryOf(w'.store, other) == ProtocolEntry(t, other)
    {
      assert EntryOf(w.store, other) == ProtocolEntry(s, other);
      OtherKeys(id, other);
    }
  }

  /** An Update that the database accepts is a commit and a DEL of its id; one that it refuses is nothing at all. */
  lemma UpdateUninterrupted(p: Params, s: State, w: World, u: User, f: Weather) returns (es: seq<Event>)
    requires Represents(s, w) && HoldsRows(s) && u.id != 0
    ensures ValidRun(p, s, es)
    ensures Represents(Exec(p, s, es), SaveAndInvalidate(w, u, f).0) && HoldsRows(Exec(p, s, es))
  {
    hide CurrentRow;
    var (w', r) := SaveAndInvalidate(w, u, f);
    if r.Ok? {
      es := WriteRuns(p, s, u.id, Some(u), f.del);
      CommandsKeepSchema(w.table, "", "", u, 0, f.db);
      hide Represents, HoldsRows, Exec, ValidRun;
      WriteRepresents(s, w, u.id, Some(u), f.del, w');
    } else {
      es := [];
    }
  }

  lemma DeleteUninterrupted(p: Params, s: State, w: World, id: int, f: Weather) returns (es: seq<Event>)
    requires Represents(s, w) && HoldsRows(s)
    ensures ValidRun(p, s, es)
    ensures Represents(Exec(p, s, es), RemoveAndInvalidate(w, id, f).0) && HoldsRows(Exec(p, s, es))
  {
    hide CurrentRow;
    var (w', r) := RemoveAndInvalidate(w, id, f);
    if r.Ok? {
      es := WriteRuns(p, s, id, None, f.del);
      CommandsKeepSchema(w.table, "", "", User(0, "", ""), id, f.db);
      hide Represents, HoldsRows, Exec, ValidRun;
      WriteRepresents(s, w, id, None, f.del, w');
    } else {
      es := [];
    }
  }
}
