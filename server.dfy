/**
 * The folonet-server control plane of folonet-server/main.go: the pair
 * allocator `getAvailableIP`, the HTTP handlers `registry`, `unregistry` and
 * `insertIP`, and the gRPC handlers `StartServer` and `StopServer`, over the
 * two tables and the in-process cache `record` (local endpoint to unit).
 */
module Server {
  import opened Wrappers
  import opened ServerModel
  import opened KeyOrder
  import opened GoFormat
  import opened IpRange
  import opened ServerSeed

  const REMOTE_IP: string := "10.251.255.100"

  /** Both tables and the cache. */
  datatype ServerState = ServerState(
    units: map<string, ServerUnit>,
    pairs: map<string, IPPair>,
    record: map<string, ServerUnit>)

  // ---------------------------------------------------------------- allocation

  /** The keys of the free pairs. */
  function FreeIps(pairs: map<string, IPPair>): set<string> {
    set ip | ip in pairs && IsFree(pairs[ip])
  }

  /**
   * `getAvailableIP`: the free pair that sorts first gets the checkpoint and
   * is saved; the transaction leaves the table as it was on any error.
   */
  ghost function Allocate(pairs: map<string, IPPair>, checkpoint: string): (r: (Result<IPPair, DbError>, map<string, IPPair>))
  {
    if FreeIps(pairs) == {} then (Err(RecordNotFound), pairs)
    else
      var p := pairs[Least(FreeIps(pairs))].(checkpoint := checkpoint);
      match SavePair(pairs, p)
      case Err(e) => (Err(e), pairs)
      case Ok(m) => (Ok(p), m)
  }

  /**
   * Allocation hands out the least free pair with the checkpoint set and
   * changes no other pair; it fails, changing nothing, exactly when no pair
   * is free or the empty IP is among the free ones (the save of a row with
   * an empty key is a create, which meets the existing row).
   */
  lemma AllocateFirstFree(pairs: map<string, IPPair>, checkpoint: string)
    requires KeyedByIp(pairs)
    ensures var r := Allocate(pairs, checkpoint);
      KeyedByIp(r.1) &&
      (r.0.Err? ==> r.1 == pairs) &&
      (r.0 == Err(RecordNotFound) <==> FreeIps(pairs) == {}) &&
      (r.0.Err? <==> FreeIps(pairs) == {} || "" in FreeIps(pairs)) &&
      (r.0.Ok? ==>
         r.0.value.ip in FreeIps(pairs) &&
         r.0.value == pairs[r.0.value.ip].(checkpoint := checkpoint) &&
         r.1 == pairs[r.0.value.ip := r.0.value] &&
         forall ip :: ip in FreeIps(pairs) ==> LexLe(r.0.value.ip, ip))
  {
    var free := FreeIps(pairs);
    if free != {} {
      var m := Least(free);
      if "" in free {
        forall k | k in free {
          EmptyIsLeast(k);
        }
        LeastUnique("", free);
      }
      if m == "" {
        assert "" in free;
      }
    }
  }

  // ---------------------------------------------------------------- registry

  /** `registry`'s answer: 200 with the unit, or 500 "No available IP". */
  datatype RegistryReply = Registered(unit: ServerUnit) | NoAvailableIp(error: DbError)

  ghost function Register(s: ServerState, name: string, deployment: string, service: string, namespace: string): (r: (RegistryReply, ServerState))
  {
    if name in s.units then (Registered(s.units[name]), s)
    else
      var a := Allocate(s.pairs, name);
      match a.0
      case Err(e) => (NoAvailableIp(e), s)
      case Ok(p) =>
        var u := UnitForPair(name, deployment, service, namespace, p);
        (Registered(u), ServerState(s.units[name := u], a.1, s.record[p.localEndpoint := u]))
  }

  /** A known name gets its stored unit back and nothing changes. */
  lemma RegistryKnownName(s: ServerState, name: string, deployment: string, service: string, namespace: string)
    requires name in s.units
    ensures Register(s, name, deployment, service, namespace) == (Registered(s.units[name]), s)
  {
  }

  /**
   * A new name gets the least free pair: the unit copies its IP and local
   * endpoint, the pair's checkpoint becomes the name, and the unit is stored
   * and cached under that endpoint. When no pair can be handed out the
   * answer is 500 and nothing changes.
   */
  lemma RegistryNewName(s: ServerState, name: string, deployment: string, service: string, namespace: string)
    requires KeyedByIp(s.pairs) && name !in s.units
    ensures var (reply, t) := Register(s, name, deployment, service, namespace);
      (reply.NoAvailableIp? <==> FreeIps(s.pairs) == {} || "" in FreeIps(s.pairs)) &&
      (reply.NoAvailableIp? ==> t == s) &&
      (reply.Registered? ==>
         var u := reply.unit;
         u == UnitForPair(name, deployment, service, namespace, s.pairs[u.ip]) &&
         u.ip in FreeIps(s.pairs) && (forall ip :: ip in FreeIps(s.pairs) ==> LexLe(u.ip, ip)) &&
         t.pairs == s.pairs[u.ip := s.pairs[u.ip].(checkpoint := name)] &&
         t.units == s.units[name := u] &&
         t.record == s.record[u.localEndpoint := u])
  {
    AllocateFirstFree(s.pairs, name);
  }

  /** Registering a name again returns the same unit and changes nothing: a name never gets a second pair. */
  lemma RegistryIdempotent(s: ServerState, name: string, d1: string, s1: string, n1: string, d2: string, s2: string, n2: string)
    ensures var (reply, t) := Register(s, name, d1, s1, n1);
      reply.Registered? ==> Register(t, name, d2, s2, n2) == (reply, t)
  {
  }

  // ---------------------------------------------------------------- consistency

  /**
   * The tables agree: rows are stored under their keys, no key is empty,
   * every unit's pair exists and carries the unit's name as checkpoint, and
   * every held pair belongs to the unit it names.
   */
  ghost predicate Consistent(s: ServerState) {
    KeyedByName(s.units) && KeyedByIp(s.pairs) && "" !in s.units && "" !in s.pairs &&
    (forall n :: n in s.units ==> s.units[n].ip in s.pairs && s.pairs[s.units[n].ip].checkpoint == n) &&
    (forall ip :: ip in s.pairs && !IsFree(s.pairs[ip]) ==>
       s.pairs[ip].checkpoint in s.units && s.units[s.pairs[ip].checkpoint].ip == ip)
  }

  /** In a consistent state no name holds two pairs. */
  lemma OnePairPerName(s: ServerState, ip1: string, ip2: string)
    requires Consistent(s)
    requires ip1 in s.pairs && ip2 in s.pairs && !IsFree(s.pairs[ip1])
    requires s.pairs[ip1].checkpoint == s.pairs[ip2].checkpoint
    ensures ip1 == ip2
  {
  }

  lemma RegistryKeepsConsistent(s: ServerState, name: string, deployment: string, service: string, namespace: string)
    requires Consistent(s) && name != ""
    ensures Consistent(Register(s, name, deployment, service, namespace).1)
  {
    if name !in s.units {
      AllocateFirstFree(s.pairs, name);
      var (reply, t) := Register(s, name, deployment, service, namespace);
      if reply.Registered? {
        var u := reply.unit;
        assert forall n :: n in s.units ==> s.units[n].ip != u.ip;
        KeyedByNameUpdate(s.units, u);
      }
    }
  }

  // ---------------------------------------------------------------- unregistry

  /**
   * `unregistry`: a known unit is deleted, its pair saved back with an empty
   * checkpoint and an empty local endpoint (the whole row is written), and
   * its cache entry dropped; an unknown name changes nothing. Either way the
   * answer is 200.
   */
  function Unregister(s: ServerState, name: string): (t: ServerState)
  {
    if name !in s.units then s
    else
      var u := s.units[name];
      ServerState(s.units - {name}, SaveIgnoringError(s.pairs, NewIPPair(u.ip)), s.record - {u.localEndpoint})
  }

  /** Unregistering frees the unit's pair, which loses its endpoint, and keeps the tables consistent. */
  lemma UnregistryFreesPair(s: ServerState, name: string)
    requires Consistent(s)
    ensures name !in s.units ==> Unregister(s, name) == s
    ensures name in s.units ==>
              var u := s.units[name];
              var t := Unregister(s, name);
              t.units == s.units - {name} && t.record == s.record - {u.localEndpoint} &&
              t.pairs == s.pairs[u.ip := NewIPPair(u.ip)] && u.ip in FreeIps(t.pairs)
    ensures Consistent(Unregister(s, name))
  {
    if name in s.units {
      var u := s.units[name];
      assert u.ip != "";
      assert forall n :: n in s.units && n != name ==> s.units[n].ip != u.ip;
    }
  }

  /**
   * Registering a new name and unregistering it again restores the units and
   * frees the pair, but the pair comes back without its endpoint and the
   * cache entry for that endpoint is gone.
   */
  lemma RegistryThenUnregistry(s: ServerState, name: string, deployment: string, service: string, namespace: string)
    requires Consistent(s) && name != "" && name !in s.units
    ensures var (reply, t) := Register(s, name, deployment, service, namespace);
      reply.Registered? ==>
        var v := Unregister(t, name);
        v.units == s.units &&
        v.pairs == s.pairs[reply.unit.ip := NewIPPair(reply.unit.ip)] &&
        v.record == s.record - {reply.unit.localEndpoint}
  {
    RegistryNewName(s, name, deployment, service, namespace);
    RegistryKeepsConsistent(s, name, deployment, service, namespace);
    var (reply, t) := Register(s, name, deployment, service, namespace);
    if reply.Registered? {
      UnregistryFreesPair(t, name);
      assert t.units - {name} == s.units;
    }
  }

  // ---------------------------------------------------------------- pool seeding

  /** Growing the pool with free pairs under non-empty IPs keeps the tables consistent. */
  lemma GrowsKeepsConsistent(s: ServerState, r: map<string, IPPair>, e: string)
    requires Consistent(s) && KeyedByIp(r) && Grows(s.pairs, r, e)
    ensures Consistent(s.(pairs := r))
  {
  }

  /** `insertIP` keeps the tables consistent and keeps the empty IP out of the pool. */
  lemma SeedPoolKeepsConsistent(s: ServerState)
    requires Consistent(s)
    ensures Consistent(s.(pairs := SeedPool(s.pairs)))
    ensures "" !in SeedPool(s.pairs)
  {
    var r := SeedPool(s.pairs);
    SeedPoolCoversRanges(s.pairs);
    GrowsKeepsConsistent(s, r, Endpoint(FIRST_PORT));
  }

  /** In a consistent state a new name is registered whenever some pair is free. */
  lemma RegistrySucceedsWhileFree(s: ServerState, name: string, deployment: string, service: string, namespace: string)
    requires Consistent(s) && name !in s.units && FreeIps(s.pairs) != {}
    ensures Register(s, name, deployment, service, namespace).0.Registered?
  {
    RegistryNewName(s, name, deployment, service, namespace);
  }

  /** Without units, a consistent pool holds only free pairs. */
  lemma AllFreeWithoutUnits(s: ServerState)
    requires Consistent(s) && s.units == map[]
    ensures FreeIps(s.pairs) == s.pairs.Keys
  {
  }

  /** After seeding a pool that no unit holds, the first registration of a name succeeds. */
  lemma SeededPoolRegisters(s: ServerState, name: string, deployment: string, service: string, namespace: string)
    requires Consistent(s) && s.units == map[]
    ensures Register(s.(pairs := SeedPool(s.pairs)), name, deployment, service, namespace).0.Registered?
  {
    var t := s.(pairs := SeedPool(s.pairs));
    SeededPoolFree(s, t);
    RegistrySucceedsWhileFree(t, name, deployment, service, namespace);
  }

  /** A seeded pool that no unit holds is consistent and has a free pair. */
  lemma SeededPoolFree(s: ServerState, t: ServerState)
    requires Consistent(s) && s.units == map[] && t == s.(pairs := SeedPool(s.pairs))
    ensures Consistent(t) && t.units == map[] && FreeIps(t.pairs) != {}
  {
    SeedPoolKeepsConsistent(s);
    SeedPoolCoversRanges(s.pairs);
    SeededRangesNonEmpty(t.pairs);
    AllFreeWithoutUnits(t);
  }

  /** A free pair under the empty IP makes every registration of a new name fail, changing nothing. */
  lemma EmptyIpBlocksRegistry(s: ServerState, name: string, deployment: string, service: string, namespace: string)
    requires KeyedByIp(s.pairs) && name !in s.units && "" in s.pairs && IsFree(s.pairs[""])
    ensures Register(s, name, deployment, service, namespace) == (NoAvailableIp(DuplicateKey), s)
  {
    AllocateFirstFree(s.pairs, name);
  }

  /**
   * As written, seeding an empty pool with one address leaves a free pair
   * under the empty IP, after which no registration can succeed.
   */
  lemma AsWrittenSeedingBlocksRegistry(name: string, deployment: string, service: string, namespace: string)
    ensures var pairs := SeedAddressAsWritten(map[], {}, FIRST_PORT, "192.168.99.0").0;
      "" in pairs && IsFree(pairs[""]) &&
      Register(ServerState(map[], pairs, map[]), name, deployment, service, namespace).0 == NoAvailableIp(DuplicateKey)
  {
    var pairs := SeedAddressAsWritten(map[], {}, FIRST_PORT, "192.168.99.0").0;
    AsWrittenStoresEmptyIp(map[], {}, FIRST_PORT, "192.168.99.0");
    assert KeyedByIp(pairs);
    EmptyIpBlocksRegistry(ServerState(map[], pairs, map[]), name, deployment, service, namespace);
  }

  // ---------------------------------------------------------------- start / stop

  /**
   * What the cluster shows `startServer`: the outcome of the scale-up patch,
   * the NodePorts of the service's ports (or the lookup error), and the
   * outcome of waiting for the deployment to be ready.
   */
  datatype Observation = Observation(patch: Result<(), string>, service: Result<seq<int>, string>, ready: Result<(), string>)

  datatype StartError =
    | PatchFailed(reason: string)
    | ServiceLookupFailed(reason: string)
    | NoNodePort(service: string, namespace: string)
    | NotReady(reason: string)

  /**
   * `startServer`: the first NodePort once the deployment is scaled up, the
   * service has a non-zero first NodePort and the deployment became ready;
   * otherwise the first failure, in that order.
   */
  function StartDeployment(service: string, namespace: string, obs: Observation): (r: Result<int, StartError>)
    ensures r.Ok? <==> obs.patch.Ok? && obs.service.Ok? && |obs.service.value| > 0 &&
                       obs.service.value[0] != 0 && obs.ready.Ok?
    ensures r.Ok? ==> r.value == obs.service.value[0] && r.value != 0
    ensures obs.patch.Err? ==> r == Err(PatchFailed(obs.patch.error))
    ensures r == Err(NoNodePort(service, namespace)) <==>
              obs.patch.Ok? && obs.service.Ok? && (|obs.service.value| == 0 || obs.service.value[0] == 0)
  {
    if obs.patch.Err? then Err(PatchFailed(obs.patch.error))
    else if obs.service.Err? then Err(ServiceLookupFailed(obs.service.error))
    else if |obs.service.value| == 0 || obs.service.value[0] == 0 then Err(NoNodePort(service, namespace))
    else if obs.ready.Err? then Err(NotReady(obs.ready.error))
    else Ok(obs.service.value[0])
  }

  /** `StartServer`'s answer: inactive, active at an endpoint for a named unit, or the start error. */
  datatype StartReply = Inactive | Active(serverEndpoint: string, name: string) | StartFailed(error: StartError)

  /** The names of the units behind local endpoint `le`. */
  function UnitsAt(units: map<string, ServerUnit>, le: string): set<string> {
    set n | n in units && units[n].localEndpoint == le
  }

  /**
   * `StartServer`: a cached endpoint starts its unit's deployment; a miss
   * answers inactive, after copying the first unit behind the endpoint (by
   * name) into the cache when there is one.
   */
  ghost function Start(s: ServerState, le: string, cluster: (string, string, string) -> Observation): (r: (StartReply, ServerState))
  {
    if le in s.record then
      var u := s.record[le];
      match StartDeployment(u.service, u.namespace, cluster(u.deployment, u.service, u.namespace))
      case Ok(port) => (Active(HostPort(REMOTE_IP, port), u.name), s)
      case Err(e) => (StartFailed(e), s)
    else if UnitsAt(s.units, le) == {} then (Inactive, s)
    else (Inactive, s.(record := s.record[le := s.units[Least(UnitsAt(s.units, le))]]))
  }

  /**
   * A miss is inactive even when a unit stands behind the endpoint; it
   * changes only the cache, and only by caching the first such unit.
   */
  lemma StartMissIsInactive(s: ServerState, le: string, cluster: (string, string, string) -> Observation)
    requires le !in s.record
    ensures var (reply, t) := Start(s, le, cluster);
      reply == Inactive && t.units == s.units && t.pairs == s.pairs &&
      (le in t.record <==> UnitsAt(s.units, le) != {}) &&
      (le in t.record ==>
         t.record == s.record[le := t.record[le]] && t.record[le].localEndpoint == le &&
         forall n :: n in UnitsAt(s.units, le) ==> LexLe(Least(UnitsAt(s.units, le)), n))
  {
  }

  /**
   * A hit changes nothing; it is active exactly when the deployment starts,
   * and then reports the unit's name and the remote endpoint whose port is
   * the NodePort.
   */
  lemma StartHitReportsNodePort(s: ServerState, le: string, cluster: (string, string, string) -> Observation)
    requires le in s.record
    ensures var (reply, t) := Start(s, le, cluster);
      var u := s.record[le];
      var obs := cluster(u.deployment, u.service, u.namespace);
      t == s && reply != Inactive &&
      (reply.Active? <==> StartDeployment(u.service, u.namespace, obs).Ok?) &&
      (reply.Active? ==>
         reply.name == u.name &&
         reply.serverEndpoint[..|REMOTE_IP| + 1] == REMOTE_IP + ":" &&
         (obs.service.value[0] > 0 ==>
            ParseDecimal(reply.serverEndpoint[|REMOTE_IP| + 1..]) == obs.service.value[0]))
  {
    var u := s.record[le];
    var obs := cluster(u.deployment, u.service, u.namespace);
    var r := StartDeployment(u.service, u.namespace, obs);
    if r.Ok? {
      var e := HostPort(REMOTE_IP, r.value);
      assert e[..|REMOTE_IP| + 1] == e[..|REMOTE_IP|] + [e[|REMOTE_IP|]];
      if r.value > 0 {
        HostPortRoundTrip(REMOTE_IP, r.value);
      }
    }
  }

  /** A second request after a miss that filled the cache is a hit: it is never inactive. */
  lemma StartAfterMissIsHit(s: ServerState, le: string, cluster: (string, string, string) -> Observation)
    requires le !in s.record && UnitsAt(s.units, le) != {}
    ensures Start(Start(s, le, cluster).1, le, cluster).0 != Inactive
  {
    StartMissIsInactive(s, le, cluster);
    StartHitReportsNodePort(Start(s, le, cluster).1, le, cluster);
  }

  /** The scale-down `StopServer` asks for. */
  datatype ScaleDown = ScaleDown(deployment: string, namespace: string)

  /** `StopServer`: only a cached endpoint scales its deployment down; nothing changes. */
  function Stop(s: ServerState, le: string): (r: Option<ScaleDown>)
    ensures r.Some? <==> le in s.record
    ensures r.Some? ==> r.value.deployment == s.record[le].deployment && r.value.namespace == s.record[le].namespace
  {
    if le in s.record then Some(ScaleDown(s.record[le].deployment, s.record[le].namespace)) else None
  }

  /** Stopping consults only the cache: a unit known to the database but not cached is not scaled down. */
  lemma StopConsultsOnlyCache(s: ServerState, le: string)
    ensures UnitsAt(s.units, le) != {} && le !in s.record ==> Stop(s, le) == None
  {
  }

  /**
   * On a pool whose pairs all carry one local endpoint, as `insertIP` leaves
   * it, that endpoint is the cache key of every unit: a new registration
   * replaces the cached unit, and unregistering an earlier unit drops the
   * entry of the later one, which `StopServer` then no longer finds.
   */
  lemma SharedCacheKey(s: ServerState, le: string, first: string, name: string, deployment: string, service: string, namespace: string)
    requires Consistent(s) && name !in s.units && first in s.units
    requires forall ip :: ip in s.pairs ==> s.pairs[ip].localEndpoint == le
    requires forall n :: n in s.units ==> s.units[n].localEndpoint == le
    ensures var (reply, t) := Register(s, name, deployment, service, namespace);
      reply.Registered? ==>
        && reply.unit.localEndpoint == le
        && t.record[le] == reply.unit
        && (forall n :: n in t.units ==> t.units[n].localEndpoint == le)
        && var v := Unregister(t, first);
           name in v.units && v.units[name].localEndpoint == le && le !in v.record && Stop(v, le) == None
  {
    RegistryNewName(s, name, deployment, service, namespace);
  }

  // ---------------------------------------------------------------- the server

  /** The server's tables and cache, as its handlers update them. */
  class ControlPlane {
    var units: map<string, ServerUnit>
    var pairs: map<string, IPPair>
    var record: map<string, ServerUnit>

    function State(): ServerState
      reads this
    {
      ServerState(units, pairs, record)
    }

    /** The tables as the database holds them at start-up, and an empty cache. */
    constructor(units: map<string, ServerUnit>, pairs: map<string, IPPair>)
      ensures State() == ServerState(units, pairs, map[])
    {
      this.units := units;
      this.pairs := pairs;
      record := map[];
    }

    method GetAvailableIP(checkpoint: string) returns (r: Result<IPPair, DbError>)
      modifies this
      ensures (r, pairs) == Allocate(old(pairs), checkpoint)
      ensures units == old(units) && record == old(record)
    {
      var free := set ip | ip in pairs && IsFree(pairs[ip]);
      assert free == FreeIps(pairs);
      if free == {} {
        return Err(RecordNotFound);
      }
      var first := LeastKey(free);
      var p := pairs[first].(checkpoint := checkpoint);
      var saved := SavePair(pairs, p);
      if saved.Err? {
        return Err(saved.error);
      }
      pairs := saved.value;
      return Ok(p);
    }

    method Registry(name: string, deployment: string, service: string, namespace: string) returns (reply: RegistryReply)
      modifies this
      ensures (reply, State()) == Register(old(State()), name, deployment, service, namespace)
    {
      if name in units {
        return Registered(units[name]);
      }
      var r := GetAvailableIP(name);
      if r.Err? {
        return NoAvailableIp(r.error);
      }
      var u := UnitForPair(name, deployment, service, namespace, r.value);
      record := record[r.value.localEndpoint := u];
      units := units[name := u];
      return Registered(u);
    }

    method Unregistry(name: string) returns (status: int)
      modifies this
      ensures status == 200
      ensures State() == Unregister(old(State()), name)
    {
      if name !in units {
        return 200;
      }
      var u := units[name];
      units := units - {name};
      pairs := SaveIgnoringError(pairs, NewIPPair(u.ip));
      record := record - {u.localEndpoint};
      return 200;
    }

    method StartServer(le: string, cluster: (string, string, string) -> Observation) returns (reply: StartReply)
      modifies this
      ensures (reply, State()) == Start(old(State()), le, cluster)
    {
      if le !in record {
        var matching := set n | n in units && units[n].localEndpoint == le;
        assert matching == UnitsAt(units, le);
        if matching != {} {
          var first := LeastKey(matching);
          record := record[le := units[first]];
        }
        return Inactive;
      }
      var u := record[le];
      var started := StartDeployment(u.service, u.namespace, cluster(u.deployment, u.service, u.namespace));
      if started.Err? {
        return StartFailed(started.error);
      }
      return Active(HostPort(REMOTE_IP, started.value), u.name);
    }

    method StopServer(le: string) returns (scale: Option<ScaleDown>)
      ensures scale == Stop(State(), le)
      ensures scale.Some? <==> le in record
    {
      if le !in record {
        return None;
      }
      var u := record[le];
      return Some(ScaleDown(u.deployment, u.namespace));
    }

    /** One `insertCIDR` step: look the address up, create or complete its pair. */
    method SeedOne(a: string, picker: LocalEndpointPicker)
      modifies this, picker
      ensures (pairs, picker.port) == SeedAddress(old(pairs), picker.used, old(picker.port), a)
      ensures units == old(units) && record == old(record)
    {
      if a !in pairs {
        var e := picker.Next();
        pairs := pairs[a := IPPair(a, "", e)];
      } else if !IsSeeded(pairs[a]) {
        var e := picker.Next();
        pairs := SaveIgnoringError(pairs, pairs[a].(localEndpoint := e));
      }
    }

    /**
     * `insertCIDR`: walks the range from its network address, incrementing
     * the address bytes in place, while the range contains the address.
     */
    method InsertCidr(c: Cidr, picker: LocalEndpointPicker)
      requires WellFormed(c)
      modifies this, picker
      ensures (pairs, picker.port) == SeedAll(old(pairs), picker.used, old(picker.port), RangeAddresses(c))
      ensures units == old(units) && record == old(record)
    {
      var ip := new bv8[4];
      ip[0], ip[1], ip[2], ip[3] := c.network[0], c.network[1], c.network[2], c.network[3];
      assert ip[..] == c.network;
      ghost var k: nat := 0;
      WalkCoversBlock(c, 0);
      while Contains(c, ip[..])
        invariant k <= BlockSize(c.prefixLen)
        invariant ip[..] == Iterate(c.network, k)
        invariant (pairs, picker.port) == SeedAll(old(pairs), picker.used, old(picker.port), AddressStrings(c.network, k))
        invariant units == old(units) && record == old(record)
        decreases BlockSize(c.prefixLen) - k
      {
        WalkCoversBlock(c, k);
        ghost var next := k + 1;
        SeedWalkStep(old(pairs), picker.used, old(picker.port), c.network, k, next);
        SeedOne(DottedQuad(ip[..]), picker);
        IncrementIP(ip);
        k := next;
      }
      WalkCoversBlock(c, k);
      assert k == BlockSize(c.prefixLen);
      assert AddressStrings(c.network, k) == RangeAddresses(c);
    }

    /** `insertIP`: seeds the five ranges in order and answers 200. */
    method InsertIP() returns (status: int)
      modifies this
      ensures status == 200
      ensures pairs == SeedPool(old(pairs))
      ensures units == old(units) && record == old(record)
    {
      var used := CollectEndpoints(Unseeded(pairs));
      assert used == UsedEndpoints(old(pairs));
      var picker := new LocalEndpointPicker(used);
      CidrsWellFormed();
      ghost var before := pairs;
      InsertRanges(CIDRS, picker);
      SeedPoolIs(before, used);
      return 200;
    }

    /** The loop of `insertIP` over its ranges, each seeded by `insertCIDR`. */
    method InsertRanges(cidrs: seq<Cidr>, picker: LocalEndpointPicker)
      requires forall i :: 0 <= i < |cidrs| ==> Shaped(cidrs[i]) && WellFormed(cidrs[i])
      modifies this, picker
      ensures (pairs, picker.port) == SeedLists(old(pairs), picker.used, old(picker.port), RangeLists(cidrs))
      ensures units == old(units) && record == old(record)
    {
      ghost var lists := RangeLists(cidrs);
      for i := 0 to |cidrs|
        invariant (pairs, picker.port) == SeedLists(old(pairs), picker.used, old(picker.port), lists[..i])
        invariant units == old(units) && record == old(record)
      {
        SeedListsSnoc(old(pairs), picker.used, old(picker.port), lists, i);
        InsertCidr(cidrs[i], picker);
      }
      assert lists[..|cidrs|] == lists;
    }
  }
}
