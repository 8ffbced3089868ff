/** The user cache and the two rate limiters keep their entries in one Redis database. In any mixed run each of
    them behaves as if the others were not there, and no command ever meets a value of the wrong type. */
module SharedStore {
  import opened Options
  import opened Domain
  import opened TokenBucket
  import opened BucketExpiry
  import opened Redis
  import Keys

  datatype Component = UserCache | GrpcLimiter | GinLimiter

  datatype Command =
    | Get(id: int, at: real)
    | Set(user: User, ttl: real, at: real)
    | Del(ids: seq<int>)
    | Grpc(fullMethod: string, ip: string, p: Params, r: Request)
    | Gin(verb: string, path: string, ip: string, p: Params, r: Request)
  {
    /** gRPC's full methods start with a slash; an HTTP method is a token, so it does not. */
    predicate Valid() {
      && (Grpc? ==> fullMethod != "" && fullMethod[0] == '/')
      && (Gin? ==> verb != "" && verb[0] != '/')
    }

    function Sender(): Component {
      match this
      case Grpc(_, _, _, _) => GrpcLimiter
      case Gin(_, _, _, _, _) => GinLimiter
      case _ => UserCache
    }

    function ScriptKey(): string
      requires Grpc? || Gin?
    {
      if Grpc? then Keys.GrpcKey(fullMethod, ip) else Keys.GinKey(verb, path, ip)
    }
  }

  datatype Reply = Cached(reply: GetReply) | Done | Script(allowed: Option<bool>)

  predicate Owns(component: Component, key: string) {
    match component
    case UserCache => Keys.IsCacheKey(key)
    case GrpcLimiter => Keys.IsGrpcKey(key)
    case GinLimiter => Keys.IsGinKey(key)
  }

  function Apply(store: Store, c: Command): (Store, Reply) {
    match c
    case Get(id, at) => (store, Cached(GetUser(store, id, at)))
    case Set(user, ttl, at) => (SetUser(store, user, ttl, at), Done)
    case Del(ids) => (DelUsers(store, ids), Done)
    case _ =>
      var (store', allowed) := RunScript(store, c.ScriptKey(), c.p, c.r);
      (store', Script(allowed))
  }

  function Run(store: Store, cs: seq<Command>): Store {
    if cs == [] then store else Apply(Run(store, cs[..|cs| - 1]), cs[|cs| - 1]).0
  }

  /** The commands of one component. */
  function Only(cs: seq<Command>, component: Component): seq<Command> {
    if cs == [] then []
    else
      var c := cs[|cs| - 1];
      Only(cs[..|cs| - 1], component) + if c.Sender() == component then [c] else []
  }

  ghost predicate SameFor(a: Store, b: Store, component: Component) {
    forall key :: Owns(component, key) ==> (key in a <==> key in b) && (key in a ==> a[key] == b[key])
  }

  /** Cache keys hold users, limiter keys hold buckets. */
  ghost predicate WellTyped(store: Store) {
    forall key :: key in store ==>
      && (Owns(UserCache, key) ==> store[key].value.UserJson?)
      && (Owns(GrpcLimiter, key) || Owns(GinLimiter, key) ==> store[key].value.BucketHash?)
  }

  /** A command touches its own component's entries only, and looks at nothing else. */
  lemma Footprint(a: Store, b: Store, c: Command, component: Component)
    requires c.Valid() && SameFor(a, b, component)
    ensures c.Sender() != component ==> SameFor(Apply(a, c).0, b, component)
    ensures c.Sender() == component ==>
      SameFor(Apply(a, c).0, Apply(b, c).0, component) && Apply(a, c).1 == Apply(b, c).1
  {
    match c
    case Get(id, _) => KeysAreOwned(id, "/", "", "", "");
    case Set(user, _, _) => KeysAreOwned(user.id, "/", "", "", "");
    case Del(ids) =>
      forall id | id in ids
        ensures Owns(UserCache, Keys.CacheKey(id))
      {
        KeysAreOwned(id, "/", "", "", "");
      }
      KeysAreOwned(0, "/", "", "", "");
    case Grpc(m, ip, p, r) =>
      KeysAreOwned(0, m, ip, "", "");
      ScriptFootprint(a, b, c.ScriptKey(), p, r, component);
    case Gin(verb, path, ip, p, r) =>
      KeysAreOwned(0, "/", ip, verb, path);
      ScriptFootprint(a, b, c.ScriptKey(), p, r, component);
  }

  lemma KeysAreOwned(id: int, fullMethod: string, ip: string, verb: string, path: string)
    requires fullMethod != "" && fullMethod[0] == '/'
    requires verb != "" ==> verb[0] != '/'
    ensures Owns(UserCache, Keys.CacheKey(id))
    ensures Owns(GrpcLimiter, Keys.GrpcKey(fullMethod, ip))
    ensures Owns(GinLimiter, Keys.GinKey(verb, path, ip))
    ensures forall c: Component, d: Component, key: string :: Owns(c, key) && Owns(d, key) ==> c == d
  {
    Keys.KindsOfKeys(id, fullMethod, ip, verb, path);
  }

  lemma ScriptFootprint(a: Store, b: Store, key: string, p: Params, r: Request, component: Component)
    requires SameFor(a, b, component)
    ensures !Owns(component, key) ==> SameFor(RunScript(a, key, p, r).0, b, component)
    ensures Owns(component, key) ==>
      && SameFor(RunScript(a, key, p, r).0, RunScript(b, key, p, r).0, component)
      && RunScript(a, key, p, r).1 == RunScript(b, key, p, r).1
  {
    hide Eval, Owns;
  }

  ghost predicate AllValid(cs: seq<Command>) {
    forall c :: c in cs ==> c.Valid()
  }

  /** Erasing what the other components do from a mixed run changes none of a component's entries. */
  lemma {:induction false} OthersInvisible(store: Store, cs: seq<Command>, component: Component)
    requires AllValid(cs)
    ensures SameFor(Run(store, cs), Run(store, Only(cs, component)), component)
  {
    if cs != [] {
      var n := |cs| - 1;
      var before := cs[..n];
      OthersInvisible(store, before, component);
      Footprint(Run(store, before), Run(store, Only(before, component)), cs[n], component);
      if cs[n].Sender() == component {
        assert Only(cs, component)[..|Only(before, component)|] == Only(before, component);
      } else {
        assert Only(cs, component) == Only(before, component);
      }
    }
  }

  /** Nor does it change a single reply the component gets. */
  lemma RepliesUndisturbed(store: Store, cs: seq<Command>, c: Command)
    requires AllValid(cs) && c.Valid()
    ensures Apply(Run(store, cs), c).1 == Apply(Run(store, Only(cs, c.Sender())), c).1
  {
    OthersInvisible(store, cs, c.Sender());
    Footprint(Run(store, cs), Run(store, Only(cs, c.Sender())), c, c.Sender());
  }

  lemma {:induction false} NeverWrongType(cs: seq<Command>)
    requires AllValid(cs)
    ensures WellTyped(Run(map[], cs))
  {
    if cs != [] {
      var n := |cs| - 1;
      NeverWrongType(cs[..n]);
      ApplyKeepsTypes(Run(map[], cs[..n]), cs[n]);
    }
  }

  lemma ApplyKeepsTypes(store: Store, c: Command)
    requires WellTyped(store) && c.Valid()
    ensures WellTyped(Apply(store, c).0)
  {
    hide Eval, Owns;
    match c
    case Set(user, _, _) => KeysAreOwned(user.id, "/", "", "", "");
    case Grpc(m, ip, _, _) => KeysAreOwned(0, m, ip, "", "");
    case Gin(verb, path, ip, _, _) => KeysAreOwned(0, "/", ip, verb, path);
    case _ =>
  }

  /** So no GET and no script of a mixed run that starts on an empty server fails on the type of its key. */
  lemma NoTypeErrors(cs: seq<Command>, c: Command)
    requires AllValid(cs) && c.Valid()
    ensures Apply(Run(map[], cs), c).1 != Cached(GetError)
    ensures Apply(Run(map[], cs), c).1 != Script(None)
  {
    NeverWrongType(cs);
    hide Eval, Owns;
    match c
    case Get(id, _) => KeysAreOwned(id, "/", "", "", "");
    case Grpc(m, ip, _, _) => KeysAreOwned(0, m, ip, "", "");
    case Gin(verb, path, ip, _, _) => KeysAreOwned(0, "/", ip, verb, path);
    case _ =>
  }

  /** The command neither sets nor deletes the id. */
  predicate Spares(c: Command, id: int) {
    match c
    case Set(user, _, _) => user.id != id
    case Del(ids) => id !in ids
    case _ => true
  }

  lemma SparedEntryStays(store: Store, c: Command, id: int)
    requires c.Valid() && Spares(c, id)
    ensures Keys.CacheKey(id) in Apply(store, c).0 <==> Keys.CacheKey(id) in store
    ensures Keys.CacheKey(id) in store ==> Apply(store, c).0[Keys.CacheKey(id)] == store[Keys.CacheKey(id)]
  {
    hide Eval, Owns, Keys.CacheKey;
    match c
    case Set(user, _, _) => SameKeyIff(user.id, id);
    case Del(ids) =>
      forall other | other in ids
        ensures Keys.CacheKey(other) != Keys.CacheKey(id)
      {
        SameKeyIff(other, id);
      }
    case Grpc(m, ip, _, _) => KeysAreOwned(id, m, ip, "", "");
    case Gin(verb, path, ip, _, _) => KeysAreOwned(id, "/", ip, verb, path);
    case _ =>
  }

  lemma SameKeyIff(a: int, b: int)
    ensures Keys.CacheKey(a) == Keys.CacheKey(b) <==> a == b
  {
    if Keys.CacheKey(a) == Keys.CacheKey(b) {
      Keys.CacheKeyInjective(a, b);
    }
  }

  lemma {:induction false} SparedThroughRun(store: Store, cs: seq<Command>, id: int)
    requires AllValid(cs) && forall c :: c in cs ==> Spares(c, id)
    ensures Keys.CacheKey(id) in Run(store, cs) <==> Keys.CacheKey(id) in store
    ensures Keys.CacheKey(id) in store ==> Run(store, cs)[Keys.CacheKey(id)] == store[Keys.CacheKey(id)]
  {
    if cs != [] {
      var n := |cs| - 1;
      SparedThroughRun(store, cs[..n], id);
      SparedEntryStays(Run(store, cs[..n]), cs[n], id);
    }
  }

  /** What is set is read back, in any mixed run, until its TTL is over or the id is set or deleted again. */
  lemma ReadsBackWhatWasSet(store: Store, user: User, ttl: real, at: real, cs: seq<Command>, later: real)
    requires AllValid(cs) && forall c :: c in cs ==> Spares(c, user.id)
    ensures Apply(Run(Apply(store, Set(user, ttl, at)).0, cs), Get(user.id, later)).1
         == Cached(if later <= at + ttl then Hit(user) else Miss)
  {
    hide Run, Keys.CacheKey, AllValid, Spares;
    SparedThroughRun(Apply(store, Set(user, ttl, at)).0, cs, user.id);
  }

  /** And what is deleted stays away until it is set again. */
  lemma DeletedStaysAway(store: Store, ids: seq<int>, cs: seq<Command>, id: int, later: real)
    requires AllValid(cs) && id in ids && forall c :: c in cs ==> Spares(c, id)
    ensures Apply(Run(Apply(store, Del(ids)).0, cs), Get(id, later)).1 == Cached(Miss)
  {
    hide Run, Keys.CacheKey, AllValid, Spares;
    SparedThroughRun(Apply(store, Del(ids)).0, cs, id);
  }
}
