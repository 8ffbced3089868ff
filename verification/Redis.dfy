/** The commands the service sends to its one Redis server. A stored user stands for its JSON text (encoding a
    user and decoding it again gives the same user). An expired entry stays in the map but is never seen. */
module Redis {
  import opened Options
  import opened Domain
  import opened TokenBucket
  import opened BucketExpiry
  import Ledger = TokenLedger
  import Keys

  datatype Value = UserJson(user: User) | BucketHash(bucket: Bucket)

  datatype Entry = Entry(value: Value, expiresAt: real)

  type Store = map<string, Entry>

  function Live(store: Store, key: string, at: real): Option<Value> {
    if key in store && at <= store[key].expiresAt then Some(store[key].value) else None
  }

  /** The reply to GET: a hit, a miss, or an error (WRONGTYPE). */
  datatype GetReply = Hit(user: User) | Miss | GetError

  function GetUser(store: Store, id: int, at: real): GetReply {
    match Live(store, Keys.CacheKey(id), at)
    case None => Miss
    case Some(UserJson(user)) => Hit(user)
    case Some(BucketHash(_)) => GetError
  }

  function SetUser(store: Store, user: User, ttl: real, at: real): Store {
    store[Keys.CacheKey(user.id) := Entry(UserJson(user), at + ttl)]
  }

  function DelUsers(store: Store, ids: seq<int>): Store {
    store - set id | id in ids :: Keys.CacheKey(id)
  }

  /** EVAL of the token-bucket script: the new store and the reply, None when the key holds a string. */
  function RunScript(store: Store, key: string, p: Params, r: Request): (Store, Option<bool>) {
    var found := Live(store, key, r.at);
    if found.Some? && found.value.UserJson? then (store, None)
    else
      var stored := if found.Some? then Some(found.value.bucket) else None;
      var verdict := Eval(p, stored, r.stamp);
      (store[key := Entry(BucketHash(verdict.bucket), r.at + KEEP_SECONDS)], Some(verdict.allowed))
  }

  /** The server itself; `at` is its clock at the call. */
  class Server {
    var data: Store

    constructor ()
      ensures data == map[]
    {
      data := map[];
    }

    /** The Lua script, step by step. */
    method EvalTokenBucket(key: string, rate: real, capacity: real, now: real, at: real)
      returns (reply: Option<bool>)
      modifies this
      ensures (data, reply) == RunScript(old(data), key, Params(rate, capacity), Request(at, now))
    {
      var lastRefill, tokens := now, capacity;
      var bucket := Live(data, key, at);
      if bucket.Some? {
        if bucket.value.UserJson? {
          return None;
        }
        lastRefill, tokens := bucket.value.bucket.lastRefill, bucket.value.bucket.tokens;
      }
      ghost var stored := if bucket.Some? then Some(bucket.value.bucket) else None;
      var elapsed := Ledger.Max(0.0, now - lastRefill);
      var tokensToAdd := elapsed * rate;
      assert tokensToAdd == Gain(Params(rate, capacity), stored, now);
      tokens := Ledger.Min(capacity, tokens + tokensToAdd);
      assert tokens == Level(Params(rate, capacity), stored, now);
      hide Level;
      if tokens >= 1.0 {
        tokens := tokens - 1.0;
        data := data[key := Entry(BucketHash(Bucket(now, tokens)), at + KEEP_SECONDS)];
        reply := Some(true);
      } else {
        data := data[key := Entry(BucketHash(Bucket(now, tokens)), at + KEEP_SECONDS)];
        reply := Some(false);
      }
    }
  }
}
