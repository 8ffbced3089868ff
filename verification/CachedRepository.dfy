/** The cached repository, one call at a time. Every call to Redis or the database may fail, and entries may expire
    at any moment; the parameters of a call say what happened. */
module CachedRepository {
  import opened Options
  import opened Domain
  import opened Redis
  import opened Postgres
  import opened SearchFilter
  import Keys

  /** Database and Redis together. */
  datatype World = World(table: Table, store: Store)

  /** Whether each outside call of an operation went through, and the Redis clock at the two GETs and the SET. */
  datatype Weather = Weather(outerGet: bool, innerGet: bool, db: bool, put: bool, del: bool,
                             outerAt: real, innerAt: real, setAt: real)

  function CacheGet(store: Store, id: int, ok: bool, at: real): GetReply {
    if ok then GetUser(store, id, at) else GetError
  }

  /** GetByID without anyone to share the load with: cache, cache again, database, SET. */
  function LoadById(w: World, id: int, ttl: real, f: Weather): (World, Result<User, Error>) {
    match CacheGet(w.store, id, f.outerGet, f.outerAt)
    case Hit(user) => (w, Ok(user))
    case _ =>
      match CacheGet(w.store, id, f.innerGet, f.innerAt)
      case Hit(user) => (w, Ok(user))
      case _ =>
        match FindById(w.table, id, f.db)
        case Err(e) => (w, Err(e))
        case Ok(user) =>
          (if f.put then w.(store := SetUser(w.store, user, ttl, f.setAt)) else w, Ok(user))
  }

  /** After a successful write the entry of the id is deleted, if the DEL goes through. */
  function Invalidated(store: Store, id: int, written: bool, ok: bool): Store {
    if written && ok then DelUsers(store, [id]) else store
  }

  function SaveAndInvalidate(w: World, u: User, f: Weather): (World, Result<int, Error>) {
    var (table, r) := Save(w.table, u, f.db);
    (World(table, Invalidated(w.store, u.id, r.Ok?, f.del)), r)
  }

  function RemoveAndInvalidate(w: World, id: int, f: Weather): (World, Result<int, Error>) {
    var (table, r) := Remove(w.table, id, f.db);
    (World(table, Invalidated(w.store, id, r.Ok?, f.del)), r)
  }

  /******* What a GET finds *******/

  lemma OtherKeys(id: int, other: int)
    ensures Keys.CacheKey(id) == Keys.CacheKey(other) <==> id == other
  {
    if Keys.CacheKey(id) == Keys.CacheKey(other) {
      Keys.CacheKeyInjective(id, other);
    }
  }

  /** A SET can be read until its TTL is over, and concerns nobody else. */
  lemma GetAfterSet(store: Store, user: User, ttl: real, at: real, id: int, later: real)
    ensures CacheGet(SetUser(store, user, ttl, at), id, true, later)
         == if id != user.id then CacheGet(store, id, true, later)
            else if later <= at + ttl then Hit(user) else Miss
  {
    hide Keys.CacheKey;
    OtherKeys(user.id, id);
  }

  /** A DEL makes its ids miss, and concerns nobody else. */
  lemma GetAfterDel(store: Store, ids: seq<int>, id: int, later: real)
    ensures CacheGet(DelUsers(store, ids), id, true, later)
         == if id in ids then Miss else CacheGet(store, id, true, later)
  {
    hide Keys.CacheKey;
    forall other | other in ids
      ensures Keys.CacheKey(other) == Keys.CacheKey(id) <==> other == id
    {
      OtherKeys(other, id);
    }
  }

  /** GETs of the id from now on find `user` until its time is over (nothing, if None); all others are as before. */
  ghost predicate OnlyEntry(before: Store, after: Store, id: int, user: Option<User>, until: real) {
    forall other, later :: CacheGet(after, other, true, later)
      == if other != id then CacheGet(before, other, true, later)
         else if user.Some? && later <= until then Hit(user.value) else Miss
  }

  /** A load asks the database exactly when both GETs find nothing, and then leaves the row in the cache for one TTL if
      the SET goes through. */
  lemma LoadFillsCache(w: World, id: int, ttl: real, f: Weather)
    requires WellFormed(w.table)
    ensures var (w', r) := LoadById(w, id, ttl, f);
            var outer := CacheGet(w.store, id, f.outerGet, f.outerAt);
            var inner := CacheGet(w.store, id, f.innerGet, f.innerAt);
            && w'.table == w.table
            && (outer.Hit? || inner.Hit? ==>
                  w' == w && r == Ok(if outer.Hit? then outer.user else inner.user))
            && (!outer.Hit? && !inner.Hit? ==>
                  && r == FindById(w.table, id, f.db)
                  && (if r.Ok? && f.put then OnlyEntry(w.store, w'.store, id, Some(r.value), f.setAt + ttl)
                      else w' == w))
  {
    hide CacheGet, SetUser, OnlyEntry;
    if id in w.table.rows {
      SetOnlyEntry(w.store, w.table.rows[id], ttl, f.setAt);
    }
  }

  /** A write that succeeds empties the cache of its id, unless the DEL fails; one that fails leaves the cache alone. */
  lemma WriteInvalidates(w: World, u: User, id: int, f: Weather)
    ensures var (w', r) := SaveAndInvalidate(w, u, f);
            && (w'.table, r) == Save(w.table, u, f.db)
            && if r.Ok? && f.del then OnlyEntry(w.store, w'.store, u.id, None, 0.0) else w'.store == w.store
    ensures var (w', r) := RemoveAndInvalidate(w, id, f);
            && (w'.table, r) == Remove(w.table, id, f.db)
            && if r.Ok? && f.del then OnlyEntry(w.store, w'.store, id, None, 0.0) else w'.store == w.store
  {
    hide OnlyEntry, Save, Remove, DelUsers;
    DelOnlyEntry(w.store, u.id);
    DelOnlyEntry(w.store, id);
  }

  lemma DelOnlyEntry(store: Store, id: int)
    ensures OnlyEntry(store, DelUsers(store, [id]), id, None, 0.0)
  {
    hide CacheGet, DelUsers;
    forall other, later
      ensures CacheGet(DelUsers(store, [id]), other, true, later)
           == if other == id then Miss else CacheGet(store, other, true, later)
    {
      GetAfterDel(store, [id], other, later);
    }
  }

  lemma SetOnlyEntry(store: Store, user: User, ttl: real, at: real)
    ensures OnlyEntry(store, SetUser(store, user, ttl, at), user.id, Some(user), at + ttl)
  {
    hide CacheGet, SetUser;
    forall other, later
      ensures CacheGet(SetUser(store, user, ttl, at), other, true, later)
           == if other != user.id then CacheGet(store, other, true, later)
              else if later <= at + ttl then Hit(user) else Miss
    {
      GetAfterSet(store, user, ttl, at, other, later);
    }
  }

  /******* The class *******/

  lemma KeysOfIds(ids: seq<int>, keys: seq<string>)
    requires |keys| == |ids| && forall i :: 0 <= i < |ids| ==> keys[i] == Keys.CacheKey(ids[i])
    ensures (set key | key in keys) == set id | id in ids :: Keys.CacheKey(id)
  {
    hide Keys.CacheKey;
    forall id | id in ids
      ensures Keys.CacheKey(id) in keys
    {
      var i :| 0 <= i < |ids| && ids[i] == id;
      assert keys[i] == Keys.CacheKey(id);
    }
  }

  class RedisUserCache {
    const client: Server
    const ttl: real

    constructor (client: Server, ttl: real)
      ensures this.client == client && this.ttl == ttl
    {
      this.client := client;
      this.ttl := ttl;
    }

    /** A hit is the user stored under the id and still live, a miss says that nothing live is there; a failed call and
        an entry that holds no user are errors. */
    method Get(id: int, ok: bool, at: real) returns (r: GetReply)
      ensures r.Hit? ==> ok && Live(client.data, Keys.CacheKey(id), at) == Some(UserJson(r.user))
      ensures r.Miss? <==> ok && Live(client.data, Keys.CacheKey(id), at).None?
      ensures r.GetError? <==> !ok || exists b :: Live(client.data, Keys.CacheKey(id), at) == Some(BucketHash(b))
      ensures r == CacheGet(client.data, id, ok, at)
    {
      r := CacheGet(client.data, id, ok, at);
    }

    /** A nil user is an error. */
    method Set(user: Option<User>, ok: bool, at: real) returns (done: bool)
      modifies client
      ensures done <==> user.Some? && ok
      ensures done ==> OnlyEntry(old(client.data), client.data, user.value.id, user, at + ttl)
      ensures !done ==> client.data == old(client.data)
      ensures client.data == if done then SetUser(old(client.data), user.value, ttl, at) else old(client.data)
    {
      if user.None? || !ok {
        return false;
      }
      SetOnlyEntry(client.data, user.value, ttl, at);
      client.data := SetUser(client.data, user.value, ttl, at);
      done := true;
    }

    method Delete(id: int, ok: bool) returns (done: bool)
      modifies client
      ensures done == ok
      ensures done ==> forall at :: CacheGet(client.data, id, true, at) == Miss
      ensures forall other, at :: other != id ==>
        CacheGet(client.data, other, true, at) == CacheGet(old(client.data), other, true, at)
      ensures forall key | !done || key != Keys.CacheKey(id) ::
        (key in client.data <==> key in old(client.data))
        && (key in client.data ==> client.data[key] == old(client.data)[key])
      ensures client.data == if ok then DelUsers(old(client.data), [id]) else old(client.data)
    {
      hide Keys.CacheKey;
      forall other | other != id
        ensures Keys.CacheKey(other) != Keys.CacheKey(id)
      {
        OtherKeys(id, other);
      }
      if ok {
        client.data := DelUsers(client.data, [id]);
      }
      done := ok;
    }

    /** No ids, no command, no error. */
    method DeleteMultiple(ids: seq<int>, ok: bool) returns (done: bool)
      modifies client
      ensures done <==> ok || ids == []
      ensures forall id, later :: CacheGet(client.data, id, true, later)
                               == if ok && id in ids then Miss else CacheGet(old(client.data), id, true, later)
      ensures client.data == if ok then DelUsers(old(client.data), ids) else old(client.data)
    {
      forall id, later
        ensures CacheGet(DelUsers(client.data, ids), id, true, later)
             == if id in ids then Miss else CacheGet(client.data, id, true, later)
      {
        GetAfterDel(client.data, ids, id, later);
      }
      hide CacheGet;
      if ids == [] {
        assert DelUsers(client.data, ids) == client.data;
        return true;
      }
      var keys := new string[|ids|];
      for i := 0 to |ids|
        invariant client.data == old(client.data)
        invariant forall j :: 0 <= j < i ==> keys[j] == Keys.CacheKey(ids[j])
      {
        keys[i] := Keys.CacheKey(ids[i]);
      }
      var named := set i | 0 <= i < keys.Length :: keys[i];
      assert named == set id | id in ids :: Keys.CacheKey(id) by {
        KeysOfIds(ids, keys[..]);
        assert named == set key | key in keys[..];
      }
      if ok {
        client.data := client.data - named;
      }
      done := ok;
    }
  }

  class CachedUserRepository {
    const dbRepo: UserRepoPG
    const cache: RedisUserCache?

    constructor (dbRepo: UserRepoPG, cache: RedisUserCache?)
      ensures this.dbRepo == dbRepo && this.cache == cache
    {
      this.dbRepo := dbRepo;
      this.cache := cache;
    }

    /** The state the repository works on; without a cache there is no store. */
    ghost function Now(): World
      reads dbRepo, if cache != null then {cache.client} else {}
    {
      World(dbRepo.table, if cache != null then cache.client.data else map[])
    }

    ghost function Footprint(): set<object> {
      {dbRepo} + if cache != null then {cache.client} else {}
    }

    method GetByID(id: int, f: Weather) returns (r: Result<User, Error>)
      modifies if cache != null then {cache.client} else {}
      ensures cache != null ==> (Now(), r) == LoadById(old(Now()), id, cache.ttl, f)
      ensures cache == null ==> r == FindById(dbRepo.table, id, f.db) && Now() == old(Now())
    {
      if cache != null {
        var cached := cache.Get(id, f.outerGet, f.outerAt);
        if cached.Hit? {
          return Ok(cached.user);
        }
        cached := cache.Get(id, f.innerGet, f.innerAt);
        if cached.Hit? {
          return Ok(cached.user);
        }
      }
      r := dbRepo.GetByID(id, f.db);
      if r.Ok? && cache != null {
        var _ := cache.Set(Some(r.value), f.put, f.setAt);
      }
    }

    method Create(u: Option<User>, up: bool) returns (r: Result<int, Error>)
      modifies dbRepo
      ensures u.None? ==> r == Err(Validation) && Now() == old(Now())
      ensures u.Some? ==>
        (Now(), r) == (old(Now()).(table := Insert(old(dbRepo.table), u.value.name, u.value.email, up).0),
                       Insert(old(dbRepo.table), u.value.name, u.value.email, up).1)
    {
      r := dbRepo.Create(u, up);
    }

    method GetByEmail(email: string, up: bool) returns (r: Result<Option<User>, Error>)
      ensures r == FindByEmail(dbRepo.table, email, up)
    {
      r := dbRepo.GetByEmail(email, up);
    }

    method List(u: Unicode, order: seq<int>, query: string, page: int, limit: int, up: bool)
      returns (r: Result<(seq<User>, int), Error>)
      requires ScanOrder(dbRepo.table, order)
      ensures r == ListRows(u, dbRepo.table, order, query, page, limit, up)
    {
      r := dbRepo.List(u, order, query, page, limit, up);
    }

    method Update(u: Option<User>, f: Weather) returns (r: Result<int, Error>)
      modifies Footprint()
      ensures u.None? ==> r == Err(Validation) && Now() == old(Now())
      ensures u.Some? && cache != null ==> (Now(), r) == SaveAndInvalidate(old(Now()), u.value, f)
      ensures u.Some? && cache == null ==> (dbRepo.table, r) == Save(old(dbRepo.table), u.value, f.db)
    {
      r := dbRepo.Update(u, f.db);
      if r.Ok? && cache != null {
        var _ := cache.Delete(u.value.id, f.del);
      }
    }

    method Delete(id: int, f: Weather) returns (r: Result<int, Error>)
      modifies Footprint()
      ensures cache != null ==> (Now(), r) == RemoveAndInvalidate(old(Now()), id, f)
      ensures cache == null ==> (dbRepo.table, r) == Remove(old(dbRepo.table), id, f.db)
    {
      r := dbRepo.Delete(id, f.db);
      if r.Ok? && cache != null {
        var _ := cache.Delete(id, f.del);
      }
    }
  }

  /******* Refinement *******/

  /** `scan` is the order in which the database delivers the rows of whatever table it finds. */
  datatype Op =
    | DoCreate(name: string, email: string)
    | DoGet(id: int)
    | DoGetByEmail(email: string)
    | DoUpdate(user: User)
    | DoDelete(id: int)
    | DoList(u: Unicode, scan: Table -> seq<int>, query: string, page: int, limit: int)
  {
    ghost predicate Valid() {
      DoList? ==> forall t: Table :: ScanOrder(t, scan(t))
    }
  }

  datatype Reply =
    | Id(r: Result<int, Error>)
    | Row(row: Result<User, Error>)
    | Lookup(found: Result<Option<User>, Error>)
    | Listed(page: Result<(seq<User>, int), Error>)

  /** One call on the cached repository. */
  function Step(w: World, op: Op, ttl: real, f: Weather): (World, Reply)
    requires op.Valid()
  {
    match op
    case DoCreate(name, email) =>
      var (table, r) := Insert(w.table, name, email, f.db);
      (w.(table := table), Id(r))
    case DoGet(id) => var (w', r) := LoadById(w, id, ttl, f); (w', Row(r))
    case DoGetByEmail(email) => (w, Lookup(FindByEmail(w.table, email, f.db)))
    case DoUpdate(u) => var (w', r) := SaveAndInvalidate(w, u, f); (w', Id(r))
    case DoDelete(id) => var (w', r) := RemoveAndInvalidate(w, id, f); (w', Id(r))
    case DoList(u, scan, query, page, limit) =>
      (w, Listed(ListRows(u, w.table, scan(w.table), query, page, limit, f.db)))
  }

  /** The same call on the database repository alone. */
  function PlainStep(t: Table, op: Op, up: bool): (Table, Reply)
    requires op.Valid()
  {
    match op
    case DoCreate(name, email) => var (t', r) := Insert(t, name, email, up); (t', Id(r))
    case DoGet(id) => (t, Row(FindById(t, id, up)))
    case DoGetByEmail(email) => (t, Lookup(FindByEmail(t, email, up)))
    case DoUpdate(u) => var (t', r) := Save(t, u, up); (t', Id(r))
    case DoDelete(id) => var (t', r) := Remove(t, id, up); (t', Id(r))
    case DoList(u, scan, query, page, limit) => (t, Listed(ListRows(u, t, scan(t), query, page, limit, up)))
  }

  /** The entry of an id, if there is one, holds that id's current row. */
  ghost predicate EntryCurrent(w: World, id: int) {
    Keys.CacheKey(id) in w.store ==>
      id in w.table.rows && w.store[Keys.CacheKey(id)].value == UserJson(w.table.rows[id])
  }

  /** Each cached entry is the current row of the id in its key, live or expired. */
  ghost predicate Coherent(w: World) {
    WellFormed(w.table) && forall id :: EntryCurrent(w, id)
  }

  /** The cached repository may answer a read while the database is down; then it answers as the database would. */
  ghost predicate AnswersAs(t: Table, op: Op, up: bool, reply: Reply)
    requires op.Valid()
  {
    reply == PlainStep(t, op, up).1 || (op.DoGet? && !up && reply == PlainStep(t, op, true).1)
  }

  lemma HitIsCurrent(w: World, id: int, ok: bool, at: real)
    requires Coherent(w)
    ensures var reply := CacheGet(w.store, id, ok, at);
            reply.Hit? ==> id in w.table.rows && reply.user == w.table.rows[id]
  {
    assert EntryCurrent(w, id);
  }

  lemma GetRefines(w: World, id: int, ttl: real, f: Weather)
    requires Coherent(w)
    ensures var (w', r) := LoadById(w, id, ttl, f);
            && Coherent(w') && w'.table == w.table
            && (r == FindById(w.table, id, f.db) || (!f.db && r == FindById(w.table, id, true)))
  {
    hide Keys.CacheKey;
    HitIsCurrent(w, id, f.outerGet, f.outerAt);
    HitIsCurrent(w, id, f.innerGet, f.innerAt);
    var w' := LoadById(w, id, ttl, f).0;
    forall other
      ensures EntryCurrent(w', other)
    {
      assert EntryCurrent(w, other);
      OtherKeys(id, other);
    }
  }

  lemma UpdateRefines(w: World, u: User, f: Weather)
    requires Coherent(w) && f.del
    ensures Coherent(SaveAndInvalidate(w, u, f).0)
  {
    hide Keys.CacheKey;
    var w' := SaveAndInvalidate(w, u, f).0;
    CommandsKeepSchema(w.table, "", "", u, 0, f.db);
    forall other
      ensures EntryCurrent(w', other)
    {
      assert EntryCurrent(w, other);
      OtherKeys(u.id, other);
    }
  }

  lemma DeleteRefines(w: World, id: int, f: Weather)
    requires Coherent(w) && f.del
    ensures Coherent(RemoveAndInvalidate(w, id, f).0)
  {
    hide Keys.CacheKey;
    var w' := RemoveAndInvalidate(w, id, f).0;
    forall other
      ensures EntryCurrent(w', other)
    {
      assert EntryCurrent(w, other);
      OtherKeys(id, other);
    }
  }

  lemma CreateRefines(w: World, name: string, email: string, up: bool)
    requires Coherent(w)
    ensures Coherent(w.(table := Insert(w.table, name, email, up).0))
  {
    hide Keys.CacheKey;
    var w' := w.(table := Insert(w.table, name, email, up).0);
    InsertKeepsSchema(w.table, name, email, up);
    forall other
      ensures EntryCurrent(w', other)
    {
      assert EntryCurrent(w, other);
    }
  }

  lemma StepRefines(w: World, op: Op, ttl: real, f: Weather)
    requires Coherent(w) && f.del && op.Valid()
    ensures var (w', reply) := Step(w, op, ttl, f);
            && Coherent(w')
            && w'.table == PlainStep(w.table, op, f.db).0
            && AnswersAs(w.table, op, f.db, reply)
  {
    hide Coherent, LoadById, Insert, Save, Remove, FindByEmail, FindById, ListRows, ScanOrder;
    match op
    case DoCreate(name, email) => CreateRefines(w, name, email, f.db);
    case DoGet(id) => GetRefines(w, id, ttl, f);
    case DoGetByEmail(_) =>
    case DoUpdate(u) => UpdateRefines(w, u, f);
    case DoDelete(id) => DeleteRefines(w, id, f);
    case DoList(_, _, _, _, _) =>
  }

  ghost predicate AllValid(ops: seq<Op>) {
    forall i :: 0 <= i < |ops| ==> ops[i].Valid()
  }

  /** The worlds of a run, and the tables of the same run without a cache. */
  ghost function WorldAfter(w: World, ops: seq<Op>, ttl: real, fs: seq<Weather>, n: nat): World
    requires n <= |ops| == |fs| && AllValid(ops)
  {
    if n == 0 then w else Step(WorldAfter(w, ops, ttl, fs, n - 1), ops[n - 1], ttl, fs[n - 1]).0
  }

  ghost function TableAfter(t: Table, ops: seq<Op>, fs: seq<Weather>, n: nat): Table
    requires n <= |ops| == |fs| && AllValid(ops)
  {
    if n == 0 then t else PlainStep(TableAfter(t, ops, fs, n - 1), ops[n - 1], fs[n - 1].db).0
  }

  /** Over every sequential run in which DEL succeeds, with arbitrary failures of GET, SET and the database and
      arbitrary expiry, every call answers as the database repository alone would, and the cache stays coherent. */
  lemma {:induction false} CachedRefinesPlain(w: World, ops: seq<Op>, ttl: real, fs: seq<Weather>, n: nat)
    requires Coherent(w) && n <= |ops| == |fs| && AllValid(ops)
    requires forall i :: 0 <= i < |fs| ==> fs[i].del
    ensures Coherent(WorldAfter(w, ops, ttl, fs, n))
    ensures WorldAfter(w, ops, ttl, fs, n).table == TableAfter(w.table, ops, fs, n)
    ensures n < |ops| ==>
      AnswersAs(TableAfter(w.table, ops, fs, n), ops[n], fs[n].db,
                Step(WorldAfter(w, ops, ttl, fs, n), ops[n], ttl, fs[n]).1)
  {
    hide EntryCurrent, WellFormed, AnswersAs, Step, PlainStep, Op.Valid;
    if n > 0 {
      CachedRefinesPlain(w, ops, ttl, fs, n - 1);
      StepRefines(WorldAfter(w, ops, ttl, fs, n - 1), ops[n - 1], ttl, fs[n - 1]);
    }
    if n < |ops| {
      StepRefines(WorldAfter(w, ops, ttl, fs, n), ops[n], ttl, fs[n]);
    }
  }

  /******* A lost DEL *******/

  /** When the DEL of a successful update is lost, the cache stays coherent exactly when there was no entry, or the
      update changed nothing. */
  lemma LostDelAfterUpdate(w: World, u: User, f: Weather)
    requires Coherent(w) && u.id != 0 && !f.del && Save(w.table, u, f.db).1.Ok?
    ensures Coherent(SaveAndInvalidate(w, u, f).0)
       <==> Keys.CacheKey(u.id) !in w.store || (u.id in w.table.rows && w.table.rows[u.id] == u)
  {
    hide Keys.CacheKey;
    var w' := SaveAndInvalidate(w, u, f).0;
    CommandsKeepSchema(w.table, "", "", u, 0, f.db);
    assert EntryCurrent(w, u.id);
    assert Coherent(w') ==> EntryCurrent(w', u.id);
    forall other | EntryCurrent(w', u.id)
      ensures EntryCurrent(w', other)
    {
      assert EntryCurrent(w, other);
    }
  }

  /** When the DEL of a successful delete is lost, exactly when there was no entry. */
  lemma LostDelAfterDelete(w: World, id: int, f: Weather)
    requires Coherent(w) && !f.del && Remove(w.table, id, f.db).1.Ok?
    ensures Coherent(RemoveAndInvalidate(w, id, f).0) <==> Keys.CacheKey(id) !in w.store
  {
    hide Keys.CacheKey;
    var w' := RemoveAndInvalidate(w, id, f).0;
    assert Coherent(w') ==> EntryCurrent(w', id);
    forall other | Keys.CacheKey(id) !in w.store
      ensures EntryCurrent(w', other)
    {
      assert EntryCurrent(w, other);
    }
  }
}
