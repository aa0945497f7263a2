/**
 The inner provider of token management services (token/core/tms.go): the walk over the sources
 of public parameters, the cache of services, and the outer provider that wraps them
 (token/provider.go), each called by one thread at a time. Module CacheProtocol interleaves them.
 */
module Tms {
  import opened Prelude

  type Key = string

  datatype TmsId = TmsId(network: string, channel: string, namespace: string)

  /** Both caches use the plain concatenation. */
  function TmsKey(id: TmsId): Key {
    id.network + id.channel + id.namespace
  }

  /** The concatenation is not injective: everything below is stated per key. */
  lemma {:induction false} KeysCollide()
    ensures TmsKey(TmsId("a", "bc", "d")) == TmsKey(TmsId("ab", "c", "d"))
    ensures TmsId("a", "bc", "d") != TmsId("ab", "c", "d")
  {
    assert "a" + "bc" == "ab" + "c" == "abc";
    assert TmsId("a", "bc", "d").network[..] != TmsId("ab", "c", "d").network[..];
  }

  /** Identifiers that share a key are the same exactly when their networks and channels have equal lengths. */
  lemma {:induction false} KeysInjective(a: TmsId, b: TmsId)
    ensures a == b <==>
            TmsKey(a) == TmsKey(b) && |a.network| == |b.network| && |a.channel| == |b.channel|
  {
    if TmsKey(a) == TmsKey(b) && |a.network| == |b.network| && |a.channel| == |b.channel| {
      var n, m := |a.network|, |a.network| + |a.channel|;
      assert a.network == TmsKey(a)[..n] && b.network == TmsKey(b)[..n];
      assert a.channel == TmsKey(a)[n..m] && b.channel == TmsKey(b)[n..m];
      assert a.namespace == TmsKey(a)[m..] && b.namespace == TmsKey(b)[m..];
    }
  }

  // ---------------------------------------------------------------------------------------
  // The walk over the sources

  /** What a source answers. */
  datatype Retrieval = Failed | Retrieved(raw: Bytes)

  /** A deterministic driver, panics included, and the digest of public parameters. */
  datatype Driver = Driver(accepts: (TmsId, Bytes) -> bool, digest: Bytes -> Bytes)

  predicate Produces(source: Retrieval) {
    source.Retrieved? && source.raw != []
  }

  predicate Usable(driver: Driver, id: TmsId, source: Retrieval) {
    Produces(source) && driver.accepts(id, source.raw)
  }

  /** The positions of the sources that produce public parameters, or of those that do not. */
  function Positions(sources: seq<Retrieval>, producing: bool): seq<nat> {
    if sources == [] then []
    else
      var n := |sources| - 1;
      Positions(sources[..n], producing) + if Produces(sources[n]) == producing then [n] else []
  }

  /** The reference: the first source in order whose non-empty bytes the driver accepts. */
  function FirstUsable(driver: Driver, id: TmsId, sources: seq<Retrieval>): (first: Option<nat>)
    ensures first.Some? ==> first.value < |sources| && Usable(driver, id, sources[first.value])
    ensures forall i :: 0 <= i < |sources| && Usable(driver, id, sources[i]) ==> first.Some? && first.value <= i
  {
    if sources == [] then None
    else
      var n := |sources| - 1;
      match FirstUsable(driver, id, sources[..n])
      case Some(i) => Some(i)
      case None => if Usable(driver, id, sources[n]) then Some(n) else None
  }

  /** An earlier source produced bytes with the same digest. */
  ghost predicate AlreadyTried(driver: Driver, sources: seq<Retrieval>, j: nat)
    requires j < |sources| && Produces(sources[j])
  {
    exists i :: 0 <= i < j && Produces(sources[i]) && driver.digest(sources[i].raw) == driver.digest(sources[j].raw)
  }

  datatype Walk =
    | Built(source: nat, raw: Bytes)
    | NotFound(retrievalErrs: seq<nat>)
    | Rejected(instantiationErrs: seq<nat>, retrievalErrs: seq<nat>)

  /** The usable source is skipped because a rejected one before it has the same digest. */
  ghost predicate HiddenByCollision(driver: Driver, id: TmsId, sources: seq<Retrieval>) {
    var first := FirstUsable(driver, id, sources);
    first.Some? && AlreadyTried(driver, sources, first.value)
  }

  ghost predicate CollisionFree(driver: Driver, sources: seq<Retrieval>) {
    forall i, j | 0 <= i < |sources| && 0 <= j < |sources| && Produces(sources[i]) && Produces(sources[j]) ::
      driver.digest(sources[i].raw) == driver.digest(sources[j].raw) ==> sources[i].raw == sources[j].raw
  }

  lemma {:induction false} CollisionFreeHidesNothing(driver: Driver, id: TmsId, sources: seq<Retrieval>)
    requires CollisionFree(driver, sources)
    ensures !HiddenByCollision(driver, id, sources)
  {
  }

  /** The source, if any, is the first usable one whose digest is new. */
  ghost predicate FirstFresh(driver: Driver, id: TmsId, sources: seq<Retrieval>, found: Option<nat>) {
    && (found.Some? ==> found.value < |sources| && Usable(driver, id, sources[found.value])
                        && !AlreadyTried(driver, sources, found.value))
    && forall i :: 0 <= i < (if found.Some? then found.value else |sources|) && Usable(driver, id, sources[i]) ==>
         AlreadyTried(driver, sources, i)
  }

  /** The first usable source whose digest is new. */
  ghost function FirstUntried(driver: Driver, id: TmsId, sources: seq<Retrieval>): (found: Option<nat>)
    ensures FirstFresh(driver, id, sources, found)
  {
    if sources == [] then None
    else
      var n := |sources| - 1;
      var before := FirstUntried(driver, id, sources[..n]);
      TriedBefore(driver, sources);
      if before.Some? then before
      else if Usable(driver, id, sources[n]) && !AlreadyTried(driver, sources, n) then Some(n)
      else None
  }

  lemma {:induction false} TriedBefore(driver: Driver, sources: seq<Retrieval>)
    requires sources != []
    ensures forall i: nat | i < |sources| - 1 && Produces(sources[i]) ::
              AlreadyTried(driver, sources[..|sources| - 1], i) == AlreadyTried(driver, sources, i)
  {
    var init := sources[..|sources| - 1];
    forall i: nat | i < |init| && Produces(sources[i])
      ensures AlreadyTried(driver, init, i) == AlreadyTried(driver, sources, i)
    {
      if j :| 0 <= j < i && Produces(sources[j]) && driver.digest(sources[j].raw) == driver.digest(sources[i].raw) {
        assert init[j] == sources[j];
      }
    }
  }

  lemma {:induction false} FirstFreshUnique(driver: Driver, id: TmsId, sources: seq<Retrieval>, found: Option<nat>)
    requires FirstFresh(driver, id, sources, found)
    ensures found == FirstUntried(driver, id, sources)
  {
  }

  /** Skipping tried digests finds the first usable source exactly when no collision hides it. */
  lemma {:induction false} FreshIsFirstUsable(driver: Driver, id: TmsId, sources: seq<Retrieval>, found: Option<nat>)
    requires FirstFresh(driver, id, sources, found)
    ensures found == FirstUsable(driver, id, sources) <==> !HiddenByCollision(driver, id, sources)
  {
  }

  /**
   `newTMS`. On failure every source is reported exactly once, and the service counts as not set up
   exactly when no source produced anything.
   */
  method NewTms(driver: Driver, id: TmsId, sources: seq<Retrieval>) returns (walk: Walk)
    ensures FirstFresh(driver, id, sources, if walk.Built? then Some(walk.source) else None)
    ensures walk.Built? ==> sources[walk.source].raw == walk.raw
    ensures !walk.Built? ==> (walk.NotFound? <==> Positions(sources, true) == [])
    ensures walk.NotFound? ==> walk.retrievalErrs == Positions(sources, false)
    ensures walk.Rejected? ==> walk.instantiationErrs == Positions(sources, true)
                               && walk.retrievalErrs == Positions(sources, false)
  {
    var tried: map<Bytes, nat> := map[];
    var produced := 0;
    var retrievalErrs: seq<nat>, instantiationErrs: seq<nat> := [], [];
    for j := 0 to |sources|
      invariant instantiationErrs == Positions(sources[..j], true)
      invariant retrievalErrs == Positions(sources[..j], false)
      invariant produced == |instantiationErrs|
      invariant forall i :: 0 <= i < j && Produces(sources[i]) ==> driver.digest(sources[i].raw) in tried
      invariant forall d :: d in tried ==> tried[d] < j && Produces(sources[tried[d]])
                                           && driver.digest(sources[tried[d]].raw) == d
      invariant forall i :: 0 <= i < j && Usable(driver, id, sources[i]) ==> AlreadyTried(driver, sources, i)
    {
      var source := sources[j];
      PositionsNext(sources, j);
      if source.Failed? || source.raw == [] {
        retrievalErrs := retrievalErrs + [j];
        continue;
      }
      produced := produced + 1;
      var digest := driver.digest(source.raw);
      if digest in tried {
        instantiationErrs := instantiationErrs + [j];
        assert Produces(sources[tried[digest]]);
        continue;
      }
      tried := tried[digest := j];
      if !driver.accepts(id, source.raw) {
        instantiationErrs := instantiationErrs + [j];
        continue;
      }
      return Built(j, source.raw);
    }
    assert sources[..|sources|] == sources;
    if produced == 0 {
      return NotFound(retrievalErrs);
    }
    return Rejected(instantiationErrs, retrievalErrs);
  }

  lemma {:induction false} PositionsNext(sources: seq<Retrieval>, j: nat)
    requires j < |sources|
    ensures var producing := Produces(sources[j]);
            && Positions(sources[..j + 1], producing) == Positions(sources[..j], producing) + [j]
            && Positions(sources[..j + 1], !producing) == Positions(sources[..j], !producing)
  {
    assert sources[..j + 1][..j] == sources[..j];
  }

  /** Every source appears in exactly one of the two error lists, in order. */
  lemma {:induction false} PositionsPartition(sources: seq<Retrieval>, i: nat)
    requires i < |sources|
    ensures i in Positions(sources, Produces(sources[i]))
    ensures i !in Positions(sources, !Produces(sources[i]))
    ensures |Positions(sources, true)| + |Positions(sources, false)| == |sources|
  {
    var n := |sources| - 1;
    PositionsBound(sources[..n], true);
    PositionsBound(sources[..n], false);
    if i < n {
      PositionsPartition(sources[..n], i);
    } else {
      PositionsSize(sources[..n]);
    }
  }

  lemma {:induction false} PositionsBound(sources: seq<Retrieval>, producing: bool)
    ensures forall i :: i in Positions(sources, producing) ==> i < |sources|
  {
    if sources != [] {
      PositionsBound(sources[..|sources| - 1], producing);
    }
  }

  lemma {:induction false} PositionsSize(sources: seq<Retrieval>)
    ensures |Positions(sources, true)| + |Positions(sources, false)| == |sources|
  {
    if sources != [] {
      PositionsSize(sources[..|sources| - 1]);
    }
  }

  // ---------------------------------------------------------------------------------------
  // The caches

  /** An instantiated token manager service; the number tells instances apart. */
  datatype Service = Service(uid: nat, params: Bytes)

  /** A management service of the outer provider. */
  datatype Wrapper = Wrapper(uid: nat, tms: Service)

  datatype Options = Options(id: TmsId, params: Bytes, fetcher: Option<Retrieval>)

  /** What the local storage (if any) and the configuration hold when asked. */
  datatype Local = Local(storage: Option<Retrieval>, config: Retrieval)

  function NonEmpty(source: Option<Retrieval>): Retrieval {
    if source.Some? && Produces(source.value) then source.value else Failed
  }

  function FromOptions(opts: Options): Retrieval {
    if opts.params != [] then Retrieved(opts.params) else Failed
  }

  /** `publicParamsSources`: only the configuration may hand over an empty file. */
  function PublicParamsSources(opts: Options, local: Local): seq<Retrieval> {
    [FromOptions(opts), NonEmpty(local.storage), local.config, NonEmpty(opts.fetcher)]
  }

  predicate Specified(id: TmsId) {
    id.network != "" && id.namespace != ""
  }

  /** A get that finds nothing installs what it builds. */
  function Installed(services: map<Key, Service>, key: Key, service: Service): map<Key, Service> {
    if key in services then services else services[key := service]
  }

  /** A configuration that holds an empty file and no other source: nothing fails, and nothing is found. */
  lemma {:induction false} EmptyConfigurationFile(driver: Driver, id: TmsId)
    ensures var sources := PublicParamsSources(Options(id, [], None), Local(None, Retrieved([])));
            && sources[2].Retrieved? && !Produces(sources[2])
            && Positions(sources, true) == [] && FirstUntried(driver, id, sources) == None
  {
    NothingProduced(PublicParamsSources(Options(id, [], None), Local(None, Retrieved([]))));
  }

  lemma {:induction false} NothingProduced(sources: seq<Retrieval>)
    requires forall i :: 0 <= i < |sources| ==> !Produces(sources[i])
    ensures Positions(sources, true) == []
  {
    if sources != [] {
      NothingProduced(sources[..|sources| - 1]);
    }
  }

  /** The bytes of a source, none if it fails or is missing. */
  function RawOf(source: Option<Retrieval>): Bytes {
    if source.Some? && source.value.Retrieved? then source.value.raw else []
  }

  predicate Takes(driver: Driver, id: TmsId, raw: Bytes) {
    raw != [] && driver.accepts(id, raw)
  }

  /** The parameters of the source that a get without a cached service ends up with. */
  ghost function Adopted(driver: Driver, opts: Options, local: Local): Option<Bytes> {
    var sources := PublicParamsSources(opts, local);
    var first := FirstUntried(driver, opts.id, sources);
    if first.Some? then Some(sources[first.value].raw) else None
  }

  /**
   The caller's parameters win if the driver takes them, then those in storage, then the
   configured ones, then those of the fetcher, if and only if no collision of digests hides them.
   */
  lemma {:induction false} SourcePriority(driver: Driver, opts: Options, local: Local)
    ensures Adopted(driver, opts, local) ==
            (if Takes(driver, opts.id, opts.params) then Some(opts.params)
             else if Takes(driver, opts.id, RawOf(local.storage)) then Some(RawOf(local.storage))
             else if Takes(driver, opts.id, RawOf(Some(local.config))) then Some(RawOf(Some(local.config)))
             else if Takes(driver, opts.id, RawOf(opts.fetcher)) then Some(RawOf(opts.fetcher))
             else None)
            <==> !HiddenByCollision(driver, opts.id, PublicParamsSources(opts, local))
  {
    var sources := PublicParamsSources(opts, local);
    var found := FirstUntried(driver, opts.id, sources);
    FreshIsFirstUsable(driver, opts.id, sources, found);
    assert Usable(driver, opts.id, sources[0]) <==> Takes(driver, opts.id, opts.params);
    assert Usable(driver, opts.id, sources[1]) <==> Takes(driver, opts.id, RawOf(local.storage));
    assert Usable(driver, opts.id, sources[2]) <==> Takes(driver, opts.id, RawOf(Some(local.config)));
    assert Usable(driver, opts.id, sources[3]) <==> Takes(driver, opts.id, RawOf(opts.fetcher));
    var first := FirstUsable(driver, opts.id, sources);
    if HiddenByCollision(driver, opts.id, sources) && found.Some? {
      assert first.value < found.value && sources[first.value].raw != sources[found.value].raw;
    }
  }

  /** What a get of the inner provider finds: the cached service or a usable source. */
  ghost predicate Gettable(driver: Driver, services: map<Key, Service>, opts: Options, local: Local) {
    && Specified(opts.id)
    && (TmsKey(opts.id) in services || Adopted(driver, opts, local).Some?)
  }

  /** The service of a key was built from these parameters, as far as their digest tells. */
  predicate InUse(digest: Bytes -> Bytes, services: map<Key, Service>, key: Key, params: Bytes) {
    key in services && digest(services[key].params) == digest(params)
  }

  /** When an update succeeds: the bytes are in use already, or they are accepted and replace the old service. */
  ghost predicate Updatable(driver: Driver, services: map<Key, Service>, id: TmsId, params: Bytes, unloads: bool) {
    var key := TmsKey(id);
    && Specified(id) && params != []
    && (|| InUse(driver.digest, services, key, params)
        || (driver.accepts(id, params) && (key in services ==> unloads)))
  }

  class TmsProvider {
    const driver: Driver
    var services: map<Key, Service>
    var built: nat

    constructor (driver: Driver)
      ensures this.driver == driver && services == map[] && built == 0
    {
      this.driver, services, built := driver, map[], 0;
    }

    /** `GetTokenManagerService`. */
    method GetTokenManagerService(opts: Options, local: Local) returns (result: Result<Service>)
      modifies this
      ensures result.Err? ==> services == old(services)
      ensures result.Ok? ==> services == Installed(old(services), TmsKey(opts.id), result.value)
      ensures !Specified(opts.id) ==> result.Err?
      ensures Specified(opts.id) && TmsKey(opts.id) in old(services) ==> result == Ok(old(services)[TmsKey(opts.id)])
      ensures Specified(opts.id) && TmsKey(opts.id) !in old(services) ==>
                var params := Adopted(driver, opts, local);
                result == if params.Some? then Ok(Service(old(built), params.value)) else Err
      ensures old(built) <= built
    {
      if opts.id.network == "" || opts.id.namespace == "" {
        return Err;
      }
      var key := TmsKey(opts.id);
      if key in services {
        return Ok(services[key]);
      }
      var walk := NewTms(driver, opts.id, PublicParamsSources(opts, local));
      FirstFreshUnique(driver, opts.id, PublicParamsSources(opts, local),
                       if walk.Built? then Some(walk.source) else None);
      if !walk.Built? {
        return Err;
      }
      var service := Service(built, walk.raw);
      built := built + 1;
      services := services[key := service];
      return Ok(service);
    }

    /**
     `Update`: adopts exactly the bytes it carries, or finds them already in use, or leaves the
     cache alone. `unloads` is the answer of the old service's `Done`.
     */
    method Update(id: TmsId, params: Bytes, unloads: bool) returns (ok: bool)
      modifies this
      ensures !ok ==> services == old(services)
      ensures ok ==> services == if InUse(driver.digest, old(services), TmsKey(id), params) then old(services)
                                 else old(services)[TmsKey(id) := Service(old(built), params)]
      ensures ok <==> Updatable(driver, old(services), id, params, unloads)
      ensures old(built) <= built
    {
      if id.network == "" || id.namespace == "" || params == [] {
        return false;
      }
      var key := TmsKey(id);
      if InUse(driver.digest, services, key, params) {
        return true;
      }
      var walk := NewTms(driver, id, [Retrieved(params)]);
      if !walk.Built? {
        return false;
      }
      if key in services && !unloads {
        built := built + 1;
        return false;
      }
      services := services[key := Service(built, walk.raw)];
      built := built + 1;
      return true;
    }
  }

  class ManagementServiceProvider {
    const inner: TmsProvider
    var services: map<Key, Wrapper>
    var wrapped: nat

    constructor (inner: TmsProvider)
      ensures this.inner == inner && services == map[] && wrapped == 0
    {
      this.inner, services, wrapped := inner, map[], 0;
    }

    /** Every wrapper wraps the inner service of its key. */
    ghost predicate Coherent()
      reads this, inner
    {
      forall key :: key in services ==> key in inner.services && services[key].tms == inner.services[key]
    }

    /** `managementService`, called with normalized options; `initializes` is the answer of the wrapper's `init`. */
    method ManagementService(opts: Options, local: Local, initializes: bool) returns (result: Result<Wrapper>)
      requires Coherent()
      modifies this, inner
      ensures Coherent()
      ensures result.Ok? ==> TmsKey(opts.id) in services && services[TmsKey(opts.id)] == result.value
      ensures TmsKey(opts.id) in old(services) ==>
                result == Ok(old(services)[TmsKey(opts.id)]) && services == old(services)
      ensures TmsKey(opts.id) !in old(services) ==>
                (result.Ok? <==> initializes && Gettable(inner.driver, old(inner.services), opts, local))
      ensures result.Err? ==> services == old(services)
      ensures forall key :: key in old(inner.services) ==>
                key in inner.services && inner.services[key] == old(inner.services)[key]
    {
      var key := TmsKey(opts.id);
      if key in services {
        return Ok(services[key]);
      }
      var service := inner.GetTokenManagerService(opts, local);
      if service.Err? || !initializes {
        return Err;
      }
      var wrapper := Wrapper(wrapped, service.value);
      wrapped := wrapped + 1;
      services := services[key := wrapper];
      return Ok(wrapper);
    }

    /** `Update`: the next get for the key sees the new parameters; a failed update changes neither cache. */
    method Update(id: TmsId, params: Bytes, unloads: bool) returns (ok: bool)
      requires Coherent()
      modifies this, inner
      ensures Coherent()
      ensures ok <==> Updatable(inner.driver, old(inner.services), id, params, unloads)
      ensures !ok ==> services == old(services) && inner.services == old(inner.services)
      ensures ok ==> services == old(services) - {TmsKey(id)}
      ensures ok ==> InUse(inner.driver.digest, inner.services, TmsKey(id), params)
      ensures ok && !InUse(inner.driver.digest, old(inner.services), TmsKey(id), params) ==>
                inner.services[TmsKey(id)].params == params
    {
      ok := inner.Update(id, params, unloads);
      if ok {
        services := services - {TmsKey(id)};
      }
    }
  }
}
