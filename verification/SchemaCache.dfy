/**
 * Cache-first schema resolution over runs of calls.  Connections and datasource schemas are
 * fixed; whether a datasource answers, and what the cache fails to do, may differ per call.
 */
module SchemaCache {
  import opened Engine
  import opened FieldLookup

  datatype Descriptor = Descriptor(name: string, kind: string, settings: string)

  datatype Snapshot = Snapshot(name: string, tables: seq<TableSchema>)

  /** A cache key: the tenant and the config name. */
  datatype Key = Key(tenant: string, name: string)

  datatype Found = Connection(descriptor: Descriptor) | NoConnection | StoreFailed(err: EngineError)

  /** The connections and the schema each datasource really has. */
  datatype World = World(find: Key -> Found, schema: Descriptor -> Snapshot)
  {
    /** The store answers for the name it was asked for. */
    ghost predicate NamesMatch() {
      forall k :: find(k).Connection? ==> find(k).descriptor.name == k.name
    }

    /** The live snapshot under the identity the caller used. */
    function Live(d: Descriptor): Snapshot {
      schema(d).(name := d.name)
    }
  }

  /** What happens at the connector during one call. */
  datatype Source = Up | NoFactory(unknown: EngineError) | BuildFails | DiscoverFails(connectStage: Option<EngineError>)

  /** What the cache does during one call: entries it has lost before it, and whether it answers. */
  datatype CacheFaults = CacheFaults(lost: set<Key>, readFails: bool, writeFails: bool)

  datatype Call = Call(key: Key, scopeValid: bool, skipCache: bool, source: Source, faults: CacheFaults)

  datatype Outcome = Resolved(snapshot: Snapshot) | Failed(err: EngineError)

  const SCOPE_ERROR := EngineError(Validation, HostReason("scope"))
  const NOT_FOUND := EngineError(NotFound, HostReason("connection"))
  const BUILD_ERROR := EngineError(Unavailable, ConnectFailed)
  const DISCOVER_ERROR := EngineError(Unavailable, QueryFailed)

  /** Discovery through a connector, with its failures made safe. */
  function Discover(w: World, d: Descriptor, source: Source): Outcome {
    match source
    case Up => Resolved(w.Live(d))
    case NoFactory(unknown) => Failed(unknown)
    case BuildFails => Failed(BUILD_ERROR)
    case DiscoverFails(stage) =>
      Failed(if stage.Some? && stage.value.category == Connect then stage.value else DISCOVER_ERROR)
  }

  /**
   * Discovery succeeds exactly when the datasource is up. Otherwise the error says only that the type is
   * unknown, or that building or discovery failed, unless the connector itself reports a connect stage.
   */
  lemma DiscoveryErrors(w: World, d: Descriptor, source: Source)
    ensures source.Up? <==> Discover(w, d, source).Resolved?
    ensures source.Up? ==> Discover(w, d, source).snapshot == Snapshot(d.name, w.schema(d).tables)
    ensures source.NoFactory? ==> Discover(w, d, source).err == source.unknown
    ensures source.BuildFails? ==> Discover(w, d, source).err == EngineError(Unavailable, ConnectFailed)
    ensures source.DiscoverFails? ==>
              var e := Discover(w, d, source).err;
              || (e.category == Connect && source.connectStage == Some(e))
              || (e == EngineError(Unavailable, QueryFailed)
                  && (source.connectStage.Some? ==> source.connectStage.value.category != Connect))
  {
  }

  /** What the call would return if there were no cache at all. */
  function Uncached(w: World, c: Call): Outcome {
    if !c.scopeValid then Failed(SCOPE_ERROR)
    else match w.find(c.key)
      case StoreFailed(err) => Failed(err)
      case NoConnection => Failed(NOT_FOUND)
      case Connection(d) => Discover(w, d, c.source)
  }

  class Resolver {
    const world: World
    const cached: bool
    var cache: map<Key, Snapshot>

    /** Everything cached is what live discovery would return for that key. */
    ghost predicate Sound()
      reads this
    {
      && world.NamesMatch()
      && forall k | k in cache :: world.find(k).Connection? && cache[k] == world.Live(world.find(k).descriptor)
    }

    constructor (world: World, cached: bool)
      requires world.NamesMatch()
      ensures Sound() && this.world == world && this.cached == cached && cache == map[]
    {
      this.world, this.cached, cache := world, cached, map[];
    }

    /** The cache may lose any entries between calls. */
    method Forget(lost: set<Key>)
      requires Sound()
      modifies this
      ensures Sound() && cache == old(cache) - lost
    {
      cache := cache - lost;
    }

    /** A hit is always live; a missing cache, a failed read and an absent entry are all misses. */
    method CachedSchema(key: Key, readFails: bool) returns (hit: Option<Snapshot>)
      requires Sound()
      ensures hit.Some? <==> cached && !readFails && key in cache
      ensures hit.Some? ==> IsLive(world, key, hit.value) && hit.value == cache[key]
    {
      if !cached || readFails || key !in cache {
        return None;
      }
      return Some(cache[key]);
    }

    /** Writing a live snapshot keeps the cache sound; a failed write changes nothing. */
    method CacheSchema(key: Key, snapshot: Snapshot, writeFails: bool)
      requires Sound() && IsLive(world, key, snapshot)
      modifies this
      ensures Sound()
      ensures cache == if cached && !writeFails then old(cache)[key := snapshot] else old(cache)
    {
      if cached && !writeFails {
        cache := cache[key := snapshot];
      }
    }

    /** The key is answered from the cache, whatever its datasource does. */
    predicate Hits(key: Key, skipCache: bool, readFails: bool)
      reads this
    {
      cached && !skipCache && !readFails && key in cache
    }

    /**
     * resolveSchema for a connection already found under the key: the cached snapshot on a hit, and
     * otherwise discovery, written through unless the caller skips the cache or the write fails.
     */
    method ResolveSchema(tenant: string, d: Descriptor, skipCache: bool, source: Source, faults: CacheFaults)
      returns (r: Outcome)
      requires Sound() && world.find(Key(tenant, d.name)) == Connection(d)
      modifies this
      ensures Sound()
      ensures r.Resolved? ==> r.snapshot == world.Live(d)
      ensures old(Hits(Key(tenant, d.name), skipCache, faults.readFails)) ==>
                r == Resolved(old(cache)[Key(tenant, d.name)]) && cache == old(cache)
      ensures !old(Hits(Key(tenant, d.name), skipCache, faults.readFails)) ==>
                && r == Discover(world, d, source)
                && cache == if r.Resolved? && cached && !skipCache && !faults.writeFails
                            then old(cache)[Key(tenant, d.name) := r.snapshot] else old(cache)
    {
      var key := Key(tenant, d.name);
      if !skipCache {
        var hit := CachedSchema(key, faults.readFails);
        if hit.Some? {
          return Resolved(hit.value);
        }
      }
      r := Discover(world, d, source);
      if r.Resolved? && !skipCache {
        CacheSchema(key, r.snapshot, faults.writeFails);
      }
    }

    /** DiscoverSchema and DiscoverSchemaFresh. */
    method DiscoverSchema(c: Call) returns (r: Outcome)
      requires Sound()
      modifies this
      ensures Sound() && Agrees(world, c, r)
      ensures c.skipCache ==> r == Uncached(world, c) && cache == old(cache) - c.faults.lost
      ensures Keeps(old(cache), cache, c.faults.lost)
      ensures cached && Stores(Discovering(c), Single(r), c.key) ==> c.key in cache
      ensures cached && CacheAnswers(world, Cached(old(cache)), Discovering(c)) ==> r.Resolved?
    {
      Forget(c.faults.lost);
      if !c.scopeValid {
        return Failed(SCOPE_ERROR);
      }
      match world.find(c.key)
      case StoreFailed(err) => return Failed(err);
      case NoConnection => return Failed(NOT_FOUND);
      case Connection(d) =>
        assert d.name == c.key.name;
        r := ResolveSchema(c.key.tenant, d, c.skipCache, c.source, c.faults);
    }

    /** validateDatasource up to the mapping check: None reports a missing connection. */
    method ResolveDatasource(tenant: string, p: Probe) returns (r: Reply)
      requires Sound()
      modifies this
      ensures Sound() && !r.Single?
      ensures ProbeAgrees(world, tenant, p, r)
      ensures Keeps(old(cache), cache, p.faults.lost)
      ensures cached && r.Checked? && r.found[0].Some? && !p.faults.writeFails ==> Key(tenant, p.name) in cache
      ensures cached && AnsweredBy(Cached(old(cache)), tenant, p) ==> r.Checked?
    {
      Forget(p.faults.lost);
      match world.find(Key(tenant, p.name))
      case StoreFailed(err) => return Refused(err);
      case NoConnection => return Checked([None]);
      case Connection(d) =>
        assert d.name == p.name;
        var one := ResolveSchema(tenant, d, false, p.source, p.faults);
        r := if one.Resolved? then Checked([Some(one.snapshot)]) else Refused(one.err);
    }

    /** validateSchemaWithLimits' loop: one datasource after the other, stopping at the first error. */
    method ValidateSchemas(tenant: string, scopeValid: bool, probes: seq<Probe>) returns (r: Reply)
      requires Sound()
      modifies this
      ensures Sound() && ValidateAgrees(world, tenant, scopeValid, probes, r)
      ensures forall k | k in old(cache) && !LostBy(probes, k, 0, |probes|) :: k in cache
      ensures cached ==> forall k | Stores(Validating(tenant, scopeValid, probes), r, k) :: k in cache
      ensures cached && scopeValid && Answerable(world, Cached(old(cache)), tenant, probes) ==> r.Checked?
    {
      if !scopeValid {
        return Refused(SCOPE_ERROR);
      }
      var found: seq<Option<Snapshot>> := [];
      for i := 0 to |probes|
        invariant Sound() && |found| == i
        invariant forall j | 0 <= j < i :: FoundAgrees(world, tenant, probes[j], found[j])
        invariant forall k | k in old(cache) && !LostBy(probes, k, 0, i) :: k in cache
        invariant cached ==> forall j: nat, k | StoredBy(tenant, probes, found, j, k, i) :: k in cache
      {
        assert Answerable(world, Cached(old(cache)), tenant, probes) ==>
            ProbeAnswerable(world, Cached(old(cache)), tenant, probes, i);
        var one := ResolveDatasource(tenant, probes[i]);
        if one.Refused? {
          assert RefusedBy(world, tenant, probes[i], one.err);
          assert forall k | !LostBy(probes, k, 0, |probes|) :: !LostBy(probes, k, 0, i) && k !in probes[i].faults.lost;
          return one;
        }
        ghost var earlier, next := found, i + 1;
        found := found + one.found;
        forall j: nat, k | cached && StoredBy(tenant, probes, found, j, k, next)
          ensures k in cache
        {
          assert j < i ==> StoredBy(tenant, probes, earlier, j, k, i) && k !in probes[i].faults.lost;
        }
      }
      r := Checked(found);
    }

    /** Any run of discover, discover-fresh and validate requests, each with its own faults. */
    method Serve(requests: seq<Request>) returns (replies: seq<Reply>)
      requires Sound()
      modifies this
      ensures Sound() && |replies| == |requests|
      ensures forall i | 0 <= i < |requests| :: ReplyAgrees(world, requests[i], replies[i])
      ensures cached ==> forall i: nat | i < |requests| :: AnsweredFromCache(world, requests, replies, i)
    {
      replies := [];
      for i := 0 to |requests|
        invariant Sound() && |replies| == i
        invariant forall j | 0 <= j < i :: ReplyAgrees(world, requests[j], replies[j])
        invariant cached ==> forall k | Kept(requests, replies, k, i) :: k in cache
        invariant cached ==> forall j: nat | j < i :: AnsweredFromCache(world, requests, replies, j)
      {
        ghost var before, was := replies, cache;
        var r := ServeOne(requests[i]);
        replies := replies + [r];
        forall k | cached && Kept(requests, replies, k, i + 1)
          ensures k in cache
        {
          KeptOneMore(requests, before, r, k);
        }
        forall j: nat | cached && j <= i
          ensures AnsweredFromCache(world, requests, replies, j)
        {
          forall k
            ensures Kept(requests, replies, k, j) <==> Kept(requests, before, k, j)
          {
            KeptFrame(requests, before, r, k, j);
          }
          assert KeptKeys(requests, replies, j) == KeptKeys(requests, before, j);
          if j < i {
            assert AnsweredFromCache(world, requests, before, j);
          } else if CacheAnswers(world, KeptKeys(requests, before, i), requests[i]) {
            AnswersGrow(world, KeptKeys(requests, before, i), Cached(was), requests[i]);
          }
        }
      }
    }

    method ServeOne(request: Request) returns (r: Reply)
      requires Sound()
      modifies this
      ensures Sound() && ReplyAgrees(world, request, r)
      ensures forall k | k in old(cache) && !Loses(request, k) :: k in cache
      ensures cached ==> forall k | Stores(request, r, k) :: k in cache
      ensures cached && CacheAnswers(world, Cached(old(cache)), request) ==> Succeeds(r)
    {
      match request
      case Discovering(c) =>
        var one := DiscoverSchema(c);
        r := Single(one);
      case Validating(tenant, scopeValid, probes) =>
        r := ValidateSchemas(tenant, scopeValid, probes);
    }
  }

  /** The snapshot the caller is owed: the live one of the connection under its key. */
  ghost predicate IsLive(w: World, key: Key, s: Snapshot) {
    w.find(key).Connection? && s == w.Live(w.find(key).descriptor)
  }

  /**
   * A call agrees with live discovery: whatever it returns is the live snapshot, it succeeds
   * whenever an uncached call would, and it fails only as an uncached call would.
   */
  ghost predicate Agrees(w: World, c: Call, r: Outcome) {
    && (r.Resolved? ==> c.scopeValid && IsLive(w, c.key, r.snapshot))
    && (Uncached(w, c).Resolved? ==> r == Uncached(w, c))
    && (r.Failed? ==> r == Uncached(w, c))
    && (c.skipCache ==> r == Uncached(w, c))
  }

  // ----- validation, which resolves several datasources -----

  /** One datasource of a validation request with what happens while it is resolved. */
  datatype Probe = Probe(name: string, source: Source, faults: CacheFaults)

  datatype Request =
    | Discovering(call: Call)
    | Validating(tenant: string, scopeValid: bool, probes: seq<Probe>)

  /** Checked holds one snapshot per datasource, or None for a missing connection. */
  datatype Reply = Single(outcome: Outcome) | Checked(found: seq<Option<Snapshot>>) | Refused(err: EngineError)

  // ----- what the cache keeps -----

  predicate Keeps(before: map<Key, Snapshot>, after: map<Key, Snapshot>, lost: set<Key>) {
    forall k | k in before && k !in lost :: k in after
  }

  /** One of these probes finds the entry lost. */
  predicate LostBy(probes: seq<Probe>, k: Key, from: nat, to: nat) {
    exists i :: from <= i < to <= |probes| && k in probes[i].faults.lost
  }

  /** The cache loses the entry during this request. */
  predicate Loses(request: Request, k: Key) {
    match request
    case Discovering(c) => k in c.faults.lost
    case Validating(_, _, probes) => LostBy(probes, k, 0, |probes|)
  }

  /** Probe j resolved the key, its write did not fail, and no later probe before `to` found it lost. */
  predicate StoredBy(tenant: string, probes: seq<Probe>, found: seq<Option<Snapshot>>, j: nat, k: Key, to: nat) {
    && j < to <= |found| && to <= |probes|
    && Key(tenant, probes[j].name) == k && found[j].Some? && !probes[j].faults.writeFails
    && !LostBy(probes, k, j + 1, to)
  }

  /** A cache-first request resolved the key with a write that did not fail. */
  ghost predicate Stores(request: Request, reply: Reply, k: Key) {
    match request
    case Discovering(c) =>
      c.key == k && !c.skipCache && !c.faults.writeFails && reply.Single? && reply.outcome.Resolved?
    case Validating(tenant, _, probes) =>
      reply.Checked? && exists j: nat :: StoredBy(tenant, probes, reply.found, j, k, |probes|)
  }

  /** Before request n the key was stored and has not been lost since. */
  ghost predicate Kept(requests: seq<Request>, replies: seq<Reply>, k: Key, n: nat) {
    exists i: nat :: KeptSince(requests, replies, k, i, n)
  }

  ghost predicate KeptSince(requests: seq<Request>, replies: seq<Reply>, k: Key, i: nat, n: nat) {
    && i < n <= |replies| && n <= |requests|
    && Stores(requests[i], replies[i], k) && forall m | i < m < n :: !Loses(requests[m], k)
  }

  lemma KeptFrame(requests: seq<Request>, replies: seq<Reply>, r: Reply, k: Key, n: nat)
    requires n <= |replies|
    ensures Kept(requests, replies + [r], k, n) <==> Kept(requests, replies, k, n)
  {
    forall i: nat
      ensures KeptSince(requests, replies + [r], k, i, n) <==> KeptSince(requests, replies, k, i, n)
    {
    }
  }

  lemma KeptOneMore(requests: seq<Request>, replies: seq<Reply>, r: Reply, k: Key)
    requires |replies| < |requests| && Kept(requests, replies + [r], k, |replies| + 1)
    ensures || Stores(requests[|replies|], r, k)
            || (Kept(requests, replies, k, |replies|) && !Loses(requests[|replies|], k))
  {
    var n := |replies|;
    var i: nat :| KeptSince(requests, replies + [r], k, i, n + 1);
    assert i < n ==> KeptSince(requests, replies, k, i, n) && !Loses(requests[n], k);
  }

  ghost function Cached(cache: map<Key, Snapshot>): iset<Key> {
    iset k | k in cache
  }

  ghost function KeptKeys(requests: seq<Request>, replies: seq<Reply>, n: nat): iset<Key> {
    iset k | Kept(requests, replies, k, n)
  }

  /** The probe finds its entry in the cache. */
  ghost predicate AnsweredBy(keys: iset<Key>, tenant: string, p: Probe) {
    Key(tenant, p.name) in keys && Key(tenant, p.name) !in p.faults.lost && !p.faults.readFails
  }

  ghost predicate ProbeAnswerable(w: World, keys: iset<Key>, tenant: string, probes: seq<Probe>, i: nat)
    requires i < |probes|
  {
    var key := Key(tenant, probes[i].name);
    || Reachable(w, tenant, probes[i])
    || (key in keys && !LostBy(probes, key, 0, |probes|) && !probes[i].faults.readFails)
  }

  /** Every datasource is reachable, or held by the cache throughout the request. */
  ghost predicate Answerable(w: World, keys: iset<Key>, tenant: string, probes: seq<Probe>) {
    forall i | 0 <= i < |probes| :: ProbeAnswerable(w, keys, tenant, probes, i)
  }

  /** A cache holding these keys is enough for the request, even with its datasources down. */
  ghost predicate CacheAnswers(w: World, keys: iset<Key>, request: Request) {
    match request
    case Discovering(c) =>
      c.scopeValid && !c.skipCache && !c.faults.readFails && c.key in keys && c.key !in c.faults.lost
    case Validating(tenant, scopeValid, probes) => scopeValid && Answerable(w, keys, tenant, probes)
  }

  predicate Succeeds(reply: Reply) {
    match reply
    case Single(outcome) => outcome.Resolved?
    case Checked(_) => true
    case Refused(_) => false
  }

  /** What earlier requests stored and the cache has not lost since answers this one. */
  ghost predicate AnsweredFromCache(w: World, requests: seq<Request>, replies: seq<Reply>, n: nat) {
    n < |requests| && n < |replies| && CacheAnswers(w, KeptKeys(requests, replies, n), requests[n]) ==>
      Succeeds(replies[n])
  }

  lemma AnswersGrow(w: World, keys: iset<Key>, more: iset<Key>, request: Request)
    requires CacheAnswers(w, keys, request) && keys <= more
    ensures CacheAnswers(w, more, request)
  {
    if request.Validating? {
      forall i | 0 <= i < |request.probes|
        ensures ProbeAnswerable(w, more, request.tenant, request.probes, i)
      {
        assert ProbeAnswerable(w, keys, request.tenant, request.probes, i);
      }
    }
  }

  /** Resolving this datasource without a cache would succeed or report a missing connection. */
  ghost predicate Reachable(w: World, tenant: string, p: Probe) {
    !w.find(Key(tenant, p.name)).StoreFailed?
    && (w.find(Key(tenant, p.name)).Connection? ==> p.source.Up?)
  }

  /** Without a cache this datasource would end the validation with this error. */
  ghost predicate RefusedBy(w: World, tenant: string, p: Probe, err: EngineError) {
    match w.find(Key(tenant, p.name))
    case StoreFailed(e) => err == e
    case NoConnection => false
    case Connection(d) => Discover(w, d, p.source) == Failed(err)
  }

  /** A missing connection is reported as such, and a snapshot is the live one. */
  ghost predicate FoundAgrees(w: World, tenant: string, p: Probe, found: Option<Snapshot>) {
    var key := Key(tenant, p.name);
    && (found.None? <==> w.find(key).NoConnection?)
    && (found.Some? ==> IsLive(w, key, found.value))
  }

  ghost predicate ProbeAgrees(w: World, tenant: string, p: Probe, r: Reply) {
    && (r.Checked? ==> |r.found| == 1 && FoundAgrees(w, tenant, p, r.found[0]))
    && (r.Refused? ==> RefusedBy(w, tenant, p, r.err))
  }

  /**
   * A validation checks against live snapshots only, completes whenever every datasource is
   * reachable, and fails only with an error that one of its datasources has without a cache.
   */
  ghost predicate ValidateAgrees(w: World, tenant: string, scopeValid: bool, probes: seq<Probe>, r: Reply) {
    match r
    case Single(_) => false
    case Checked(found) =>
      scopeValid && |found| == |probes|
      && forall i | 0 <= i < |probes| :: FoundAgrees(w, tenant, probes[i], found[i])
    case Refused(err) =>
      if scopeValid then exists i :: 0 <= i < |probes| && RefusedBy(w, tenant, probes[i], err)
      else err == SCOPE_ERROR
  }

  ghost predicate ReplyAgrees(w: World, request: Request, r: Reply) {
    match request
    case Discovering(c) => r.Single? && Agrees(w, c, r.outcome)
    case Validating(tenant, scopeValid, probes) => ValidateAgrees(w, tenant, scopeValid, probes, r)
  }

  /** A validation that live discovery would complete is completed, with exactly the live snapshots. */
  lemma ReachableCompletes(w: World, tenant: string, probes: seq<Probe>, r: Reply)
    requires ValidateAgrees(w, tenant, true, probes, r)
    requires forall i | 0 <= i < |probes| :: Reachable(w, tenant, probes[i])
    ensures r.Checked? && |r.found| == |probes|
    ensures forall i | 0 <= i < |probes| ::
              r.found[i] == match w.find(Key(tenant, probes[i].name))
                            case Connection(d) => Some(w.Live(d))
                            case _ => None
  {
    forall i | 0 <= i < |probes|
      ensures r.found[i] == match w.find(Key(tenant, probes[i].name))
                            case Connection(d) => Some(w.Live(d))
                            case _ => None
    {
      assert Reachable(w, tenant, probes[i]) && FoundAgrees(w, tenant, probes[i], r.found[i]);
    }
  }
}
