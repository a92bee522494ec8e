/**
 * Seeding the address pool, as `insertIP` in folonet-server/main.go does it:
 * the set of local endpoints already in use, the `getLocalEndpoint` picker
 * with its captured port, one `insertCIDR` step per address, and the walk
 * over the five configured ranges.
 */
module ServerSeed {
  import opened ServerModel
  import opened GoFormat
  import opened IpRange

  const LOCAL_IP: string := "10.251.254.100"
  const FIRST_PORT: int := 8000
  const PORT_LIMIT: int := 9999

  /** The five /24 ranges `insertIP` seeds, in order. */
  const CIDRS: seq<Cidr> := [
    Cidr([192, 168, 99, 0], 24),
    Cidr([192, 168, 98, 0], 24),
    Cidr([192, 168, 97, 0], 24),
    Cidr([192, 168, 96, 0], 24),
    Cidr([192, 168, 95, 0], 24)
  ]

  /** The local endpoint on `port`. */
  function Endpoint(port: int): (e: string)
    ensures |e| > |LOCAL_IP| && e[..|LOCAL_IP|] == LOCAL_IP
  {
    HostPort(LOCAL_IP, port)
  }

  function Max(a: int, b: int): int {
    if a < b then b else a
  }

  // ---------------------------------------------------------------- used set

  /** The rows the `local_endpoint = ""` query finds. */
  function Unseeded(pairs: map<string, IPPair>): set<IPPair> {
    set ip | ip in pairs && !IsSeeded(pairs[ip]) :: pairs[ip]
  }

  /** The endpoints `insertIP` treats as taken: those of the rows it found. */
  function UsedEndpoints(pairs: map<string, IPPair>): (used: set<string>) {
    set p | p in Unseeded(pairs) :: p.localEndpoint
  }

  /** The query selects exactly the rows whose endpoint is empty, so the used set holds at most "". */
  lemma UsedEndpointsAreEmpty(pairs: map<string, IPPair>)
    ensures UsedEndpoints(pairs) <= {""}
    ensures UsedEndpoints(pairs) == {""} <==> exists ip :: ip in pairs && !IsSeeded(pairs[ip])
  {
    if ip :| ip in pairs && !IsSeeded(pairs[ip]) {
      assert pairs[ip] in Unseeded(pairs);
    }
  }

  /** The loop that fills `localEndpointMap` from the found rows. */
  method CollectEndpoints(rows: set<IPPair>) returns (used: set<string>)
    ensures used == set p | p in rows :: p.localEndpoint
  {
    used := {};
    var rest := rows;
    while rest != {}
      invariant rest <= rows
      invariant used == set p | p in rows - rest :: p.localEndpoint
      decreases rest
    {
      var p :| p in rest;
      rest := rest - {p};
      used := used + {p.localEndpoint};
    }
  }

  // ---------------------------------------------------------------- picker

  /**
   * `getLocalEndpoint` started on `port`: the endpoint it returns and the
   * value its captured port is left with.
   */
  function Pick(used: set<string>, port: int): (r: (string, int))
    decreases PORT_LIMIT - port
  {
    if Endpoint(port) !in used then (Endpoint(port), port)
    else if port + 1 >= PORT_LIMIT then ("", port + 1)
    else Pick(used, port + 1)
  }

  /**
   * The picker returns the endpoint of the first port from `port` on that is
   * not in use and stays on that port; it returns "" exactly when every port
   * up to the limit is in use, and then leaves the port at the limit (or one
   * past where it started, if it started there or beyond).
   */
  lemma {:induction false} PickFindsFirstFree(used: set<string>, port: int)
    ensures Pick(used, port).1 >= port
    ensures forall q :: port <= q < Pick(used, port).1 ==> Endpoint(q) in used
    ensures Pick(used, port).0 != "" ==>
              Pick(used, port).0 == Endpoint(Pick(used, port).1) && Pick(used, port).0 !in used &&
              Pick(used, port).1 < Max(port + 1, PORT_LIMIT)
    ensures Pick(used, port).0 == "" ==> Pick(used, port).1 == Max(port + 1, PORT_LIMIT)
    ensures Pick(used, port).0 == "" <==> forall q :: port <= q < Max(port + 1, PORT_LIMIT) ==> Endpoint(q) in used
    decreases PORT_LIMIT - port
  {
    if Endpoint(port) in used && port + 1 < PORT_LIMIT {
      PickFindsFirstFree(used, port + 1);
    }
  }

  /** With nothing but "" in use, the picker returns the current port's endpoint and never advances. */
  lemma PickNeverAdvances(used: set<string>, port: int)
    requires used <= {""}
    ensures Pick(used, port) == (Endpoint(port), port)
  {
    assert Endpoint(port) !in used;
  }

  /** The closure of `getLocalEndpoint`: the used set and the port it captures. */
  class LocalEndpointPicker {
    const used: set<string>
    var port: int

    constructor(used: set<string>)
      ensures this.used == used && port == FIRST_PORT
    {
      this.used := used;
      port := FIRST_PORT;
    }

    method Next() returns (e: string)
      modifies this
      ensures (e, port) == Pick(used, old(port))
    {
      while true
        invariant Pick(used, port) == Pick(used, old(port))
        decreases PORT_LIMIT - port
      {
        var tryE := Endpoint(port);
        if tryE !in used {
          return tryE;
        }
        port := port + 1;
        if port >= PORT_LIMIT {
          break;
        }
      }
      return "";
    }
  }

  // ---------------------------------------------------------------- seeding

  /**
   * One `insertCIDR` step for address `a`, as intended: a missing pair is
   * created with a picked endpoint, a pair without an endpoint gets one, and
   * a seeded pair is left alone.
   */
  function SeedAddress(pairs: map<string, IPPair>, used: set<string>, port: int, a: string): (r: (map<string, IPPair>, int))
  {
    if a !in pairs then
      var pick := Pick(used, port);
      (pairs[a := IPPair(a, "", pick.0)], pick.1)
    else if !IsSeeded(pairs[a]) then
      var pick := Pick(used, port);
      (SaveIgnoringError(pairs, pairs[a].(localEndpoint := pick.0)), pick.1)
    else (pairs, port)
  }

  /**
   * The same step as written: after creating a missing pair it goes on to
   * the endpoint check with the zero-valued row it looked up, picks a second
   * endpoint and saves that row, whose IP is "".
   */
  function SeedAddressAsWritten(pairs: map<string, IPPair>, used: set<string>, port: int, a: string): (r: (map<string, IPPair>, int))
  {
    if a !in pairs then
      var first := Pick(used, port);
      var created := pairs[a := IPPair(a, "", first.0)];
      var second := Pick(used, first.1);
      (SaveIgnoringError(created, IPPair("", "", second.0)), second.1)
    else SeedAddress(pairs, used, port, a)
  }

  /**
   * As written, seeding an address missing from a pool without the empty IP
   * also stores a free pair under the empty IP.
   */
  lemma AsWrittenStoresEmptyIp(pairs: map<string, IPPair>, used: set<string>, port: int, a: string)
    requires a != "" && a !in pairs && "" !in pairs
    ensures var r := SeedAddressAsWritten(pairs, used, port, a).0;
      a in r && "" in r && r[""].ip == "" && IsFree(r[""])
  {
  }

  /** A step adds `a` and nothing else, keeps every checkpoint, and only ever changes the pair of `a`. */
  lemma SeedAddressFrame(pairs: map<string, IPPair>, used: set<string>, port: int, a: string)
    requires KeyedByIp(pairs)
    ensures var r := SeedAddress(pairs, used, port, a).0;
      KeyedByIp(r) && r.Keys == pairs.Keys + {a} &&
      (forall ip :: ip in pairs ==> r[ip].checkpoint == pairs[ip].checkpoint) &&
      (forall ip :: ip in pairs && (ip != a || IsSeeded(pairs[ip])) ==> r[ip] == pairs[ip]) &&
      (a !in pairs ==> IsFree(r[a]))
  {
  }

  /** A step gives the pair of a non-empty `a` the picked endpoint, unless it already had one. */
  lemma SeedAddressEndpoint(pairs: map<string, IPPair>, used: set<string>, port: int, a: string)
    requires KeyedByIp(pairs) && a != ""
    ensures var r := SeedAddress(pairs, used, port, a);
      if a in pairs && IsSeeded(pairs[a]) then r.1 == port && r.0[a] == pairs[a]
      else r.1 == Pick(used, port).1 && r.0[a].localEndpoint == Pick(used, port).0
  {
  }

  /** `insertCIDR`'s loop over a list of addresses, one step each, in order. */
  function SeedAll(pairs: map<string, IPPair>, used: set<string>, port: int, addrs: seq<string>): (r: (map<string, IPPair>, int))
    decreases |addrs|
  {
    if addrs == [] then (pairs, port)
    else
      var prev := SeedAll(pairs, used, port, addrs[..|addrs| - 1]);
      SeedAddress(prev.0, used, prev.1, addrs[|addrs| - 1])
  }

  /**
   * Walking one more address of a range seeds that address after the ones
   * before it; `next` names the count after the step.
   */
  lemma SeedWalkStep(pairs: map<string, IPPair>, used: set<string>, port: int, start: seq<bv8>, k: nat, next: nat)
    requires |start| == 4 && next == k + 1
    ensures Iterate(start, next) == Succ(Iterate(start, k))
    ensures SeedAll(pairs, used, port, AddressStrings(start, next)) ==
              var prev := SeedAll(pairs, used, port, AddressStrings(start, k));
              SeedAddress(prev.0, used, prev.1, DottedQuad(Iterate(start, k)))
  {
    assert AddressStrings(start, next)[..k] == AddressStrings(start, k);
  }

  /**
   * Seeding adds exactly the listed addresses, which start free; it keeps
   * every checkpoint and leaves seeded pairs and unlisted pairs as they were.
   */
  lemma {:induction false} SeedAllFrame(pairs: map<string, IPPair>, used: set<string>, port: int, addrs: seq<string>)
    requires KeyedByIp(pairs)
    ensures var r := SeedAll(pairs, used, port, addrs).0;
      KeyedByIp(r) &&
      (forall ip :: ip in r <==> ip in pairs || ip in addrs) &&
      (forall ip :: ip in pairs ==> r[ip].checkpoint == pairs[ip].checkpoint) &&
      (forall ip :: ip in pairs && (ip !in addrs || IsSeeded(pairs[ip])) ==> r[ip] == pairs[ip]) &&
      (forall ip :: ip in r && ip !in pairs ==> IsFree(r[ip]))
    decreases |addrs|
  {
    if addrs != [] {
      var init := addrs[..|addrs| - 1];
      var a := addrs[|addrs| - 1];
      assert addrs == init + [a];
      var prev := SeedAll(pairs, used, port, init);
      SeedAllFrame(pairs, used, port, init);
      SeedAddressFrame(prev.0, used, prev.1, a);
    }
  }

  /**
   * With nothing but "" in use, seeding never moves the port, and every
   * listed address ends with its old endpoint if it had one and with the
   * endpoint of that one port otherwise.
   */
  lemma {:induction false} SeedAllOneEndpoint(pairs: map<string, IPPair>, used: set<string>, port: int, addrs: seq<string>)
    requires KeyedByIp(pairs) && used <= {""} && "" !in addrs
    ensures SeedAll(pairs, used, port, addrs).1 == port
    ensures forall a :: a in addrs ==>
              (a in SeedAll(pairs, used, port, addrs).0 &&
               SeedAll(pairs, used, port, addrs).0[a].localEndpoint ==
                 (if a in pairs && IsSeeded(pairs[a]) then pairs[a].localEndpoint else Endpoint(port)))
    decreases |addrs|
  {
    if addrs != [] {
      var init := addrs[..|addrs| - 1];
      var a := addrs[|addrs| - 1];
      assert addrs == init + [a];
      var prev := SeedAll(pairs, used, port, init);
      SeedAllOneEndpoint(pairs, used, port, init);
      SeedAllFrame(pairs, used, port, init);
      PickNeverAdvances(used, port);
      SeedAddressFrame(prev.0, used, prev.1, a);
      SeedAddressEndpoint(prev.0, used, prev.1, a);
    }
  }

  /**
   * `r` is `pairs` after seeding with endpoint `e`: no pair is lost, every
   * checkpoint and every seeded pair is kept, and each new pair is a free
   * pair with a non-empty IP and endpoint `e`.
   */
  ghost predicate Grows(pairs: map<string, IPPair>, r: map<string, IPPair>, e: string) {
    (forall ip :: ip in pairs ==>
       ip in r && r[ip].checkpoint == pairs[ip].checkpoint && (IsSeeded(pairs[ip]) ==> r[ip] == pairs[ip])) &&
    (forall ip :: ip in r && ip !in pairs ==> ip != "" && r[ip] == IPPair(ip, "", e))
  }

  lemma GrowsTransitive(a: map<string, IPPair>, b: map<string, IPPair>, c: map<string, IPPair>, e: string)
    requires e != "" && Grows(a, b, e) && Grows(b, c, e)
    ensures Grows(a, c, e)
  {
  }

  /** With nothing but "" in use, seeding a list of non-empty addresses grows the table with one endpoint. */
  lemma SeedAllGrows(pairs: map<string, IPPair>, used: set<string>, port: int, addrs: seq<string>)
    requires KeyedByIp(pairs) && used <= {""} && "" !in addrs
    ensures KeyedByIp(SeedAll(pairs, used, port, addrs).0)
    ensures SeedAll(pairs, used, port, addrs).1 == port
    ensures Grows(pairs, SeedAll(pairs, used, port, addrs).0, Endpoint(port))
  {
    SeedAllFrame(pairs, used, port, addrs);
    SeedAllOneEndpoint(pairs, used, port, addrs);
  }

  /** The addresses of a range, as `ip.String()` gives them, in walking order. */
  function RangeAddresses(c: Cidr): (r: seq<string>)
    requires Shaped(c)
    ensures |r| == BlockSize(c.prefixLen) && "" !in r
  {
    AddressStringsNonEmpty(c.network, BlockSize(c.prefixLen));
    AddressStrings(c.network, BlockSize(c.prefixLen))
  }

  /** The address lists of the ranges, one per range, in order. */
  function RangeLists(cidrs: seq<Cidr>): (r: seq<seq<string>>)
    requires forall i :: 0 <= i < |cidrs| ==> Shaped(cidrs[i])
    ensures |r| == |cidrs| && forall i :: 0 <= i < |cidrs| ==> r[i] == RangeAddresses(cidrs[i])
  {
    seq(|cidrs|, i requires 0 <= i < |cidrs| => RangeAddresses(cidrs[i]))
  }

  /** `insertIP`'s loop over the ranges, each range given by its list of addresses. */
  function SeedLists(pairs: map<string, IPPair>, used: set<string>, port: int, lists: seq<seq<string>>): (r: (map<string, IPPair>, int))
    decreases |lists|
  {
    if lists == [] then (pairs, port)
    else
      var prev := SeedLists(pairs, used, port, lists[..|lists| - 1]);
      SeedAll(prev.0, used, prev.1, lists[|lists| - 1])
  }

  /** Seeding one more list continues from where the earlier lists left the table and the port. */
  lemma SeedListsSnoc(pairs: map<string, IPPair>, used: set<string>, port: int, lists: seq<seq<string>>, i: nat)
    requires i < |lists|
    ensures var prev := SeedLists(pairs, used, port, lists[..i]);
      SeedLists(pairs, used, port, lists[..i + 1]) == SeedAll(prev.0, used, prev.1, lists[i])
  {
    assert lists[..i + 1][..i] == lists[..i];
  }

  /** Every address of `addrs` has a seeded pair in `r`. */
  ghost predicate SeedsEach(r: map<string, IPPair>, addrs: seq<string>) {
    forall a :: a in addrs ==> a in r && IsSeeded(r[a])
  }

  /** With nothing but "" in use, seeding a list of non-empty addresses leaves each with a seeded pair. */
  lemma SeedAllSeeds(pairs: map<string, IPPair>, used: set<string>, port: int, addrs: seq<string>)
    requires KeyedByIp(pairs) && used <= {""} && "" !in addrs
    ensures SeedsEach(SeedAll(pairs, used, port, addrs).0, addrs)
  {
    SeedAllOneEndpoint(pairs, used, port, addrs);
  }

  /**
   * `r` is what seeding `lists` from `pairs` left behind with nothing but ""
   * in use: the table grew with endpoints on `port` only, every listed
   * address has a seeded pair, and the port did not move.
   */
  ghost predicate SeededLists(pairs: map<string, IPPair>, r: (map<string, IPPair>, int), port: int, lists: seq<seq<string>>) {
    KeyedByIp(r.0) && r.1 == port && Grows(pairs, r.0, Endpoint(port)) &&
    forall i :: 0 <= i < |lists| ==> SeedsEach(r.0, lists[i])
  }

  /** One more list keeps what the earlier lists established, and seeds the new one. */
  lemma SeededListsStep(pairs: map<string, IPPair>, prev: (map<string, IPPair>, int), used: set<string>, port: int,
                        init: seq<seq<string>>, addrs: seq<string>)
    requires used <= {""} && "" !in addrs
    requires SeededLists(pairs, prev, port, init)
    ensures SeededLists(pairs, SeedAll(prev.0, used, prev.1, addrs), port, init + [addrs])
  {
    var r := SeedAll(prev.0, used, port, addrs).0;
    SeedAllGrows(prev.0, used, port, addrs);
    SeedAllSeeds(prev.0, used, port, addrs);
    GrowsTransitive(pairs, prev.0, r, Endpoint(port));
    forall i | 0 <= i < |init + [addrs]|
      ensures SeedsEach(r, (init + [addrs])[i])
    {
      if i < |init| {
        assert (init + [addrs])[i] == init[i];
      }
    }
  }

  /**
   * With nothing but "" in use, seeding lists of non-empty addresses seeds
   * every listed address, grows the table with endpoints on `port` only, and
   * never moves the port.
   */
  lemma {:induction false} SeedListsCover(pairs: map<string, IPPair>, used: set<string>, port: int, lists: seq<seq<string>>)
    requires KeyedByIp(pairs) && used <= {""}
    requires forall i :: 0 <= i < |lists| ==> "" !in lists[i]
    ensures SeededLists(pairs, SeedLists(pairs, used, port, lists), port, lists)
    decreases |lists|
  {
    if lists != [] {
      var init := lists[..|lists| - 1];
      var addrs := lists[|lists| - 1];
      SeedListsCover(pairs, used, port, init);
      SeededListsStep(pairs, SeedLists(pairs, used, port, init), used, port, init, addrs);
      assert lists == init + [addrs];
    }
  }

  /** The k-th address of a seeded range, network address plus k, has a seeded pair. */
  lemma SeededAddress(r: map<string, IPPair>, c: Cidr, k: nat)
    requires Shaped(c) && SeedsEach(r, RangeAddresses(c)) && k < BlockSize(c.prefixLen)
    ensures DottedQuad(Iterate(c.network, k)) in r && IsSeeded(r[DottedQuad(Iterate(c.network, k))])
  {
    AddressStringsAt(c.network, BlockSize(c.prefixLen), k);
    assert RangeAddresses(c)[k] in RangeAddresses(c);
  }

  lemma CidrsWellFormed()
    ensures forall i :: 0 <= i < |CIDRS| ==> WellFormed(CIDRS[i]) && BlockSize(CIDRS[i].prefixLen) == 256
  {
    assert Pow2(8) == 256 by {
      assert Pow2(4) == 16;
    }
  }

  /** What `insertIP` does to the pair table. */
  function SeedPool(pairs: map<string, IPPair>): (r: map<string, IPPair>)
  {
    CidrsWellFormed();
    SeedLists(pairs, UsedEndpoints(pairs), FIRST_PORT, RangeLists(CIDRS)).0
  }

  /** `SeedPool` is `SeedLists` over the five ranges from the first port. */
  lemma SeedPoolIs(pairs: map<string, IPPair>, used: set<string>)
    requires used == UsedEndpoints(pairs)
    ensures SeedPool(pairs) == SeedLists(pairs, used, FIRST_PORT, RangeLists(CIDRS)).0
  {
    CidrsWellFormed();
  }

  /**
   * Every address of the five ranges, the k-th of a range being its network
   * address plus k, has a seeded pair in `r`.
   */
  ghost predicate SeedsAllRanges(r: map<string, IPPair>) {
    forall i, k :: 0 <= i < |CIDRS| && 0 <= k < 256 ==>
      |CIDRS[i].network| == 4 &&
      Value(Iterate(CIDRS[i].network, k)) == Value(CIDRS[i].network) + k &&
      DottedQuad(Iterate(CIDRS[i].network, k)) in r &&
      IsSeeded(r[DottedQuad(Iterate(CIDRS[i].network, k))])
  }

  /** A table that holds every address of the ranges is not empty. */
  lemma SeededRangesNonEmpty(r: map<string, IPPair>)
    requires SeedsAllRanges(r)
    ensures r.Keys != {}
  {
    assert DottedQuad(Iterate(CIDRS[0].network, 0)) in r;
  }

  /**
   * After `insertIP` every address of the five ranges, 192.168.95.0 to
   * 192.168.99.255, has a seeded pair; new pairs are free, have non-empty
   * IPs and all carry the endpoint on port 8000; every checkpoint and every
   * seeded pair is kept.
   */
  lemma SeedPoolCoversRanges(pairs: map<string, IPPair>)
    requires KeyedByIp(pairs)
    ensures KeyedByIp(SeedPool(pairs))
    ensures Grows(pairs, SeedPool(pairs), Endpoint(FIRST_PORT))
    ensures SeedsAllRanges(SeedPool(pairs))
  {
    CidrsWellFormed();
    UsedEndpointsAreEmpty(pairs);
    var lists := RangeLists(CIDRS);
    SeedListsCover(pairs, UsedEndpoints(pairs), FIRST_PORT, lists);
    var r := SeedPool(pairs);
    forall i, k | 0 <= i < |CIDRS| && 0 <= k < 256
      ensures Value(Iterate(CIDRS[i].network, k)) == Value(CIDRS[i].network) + k
      ensures DottedQuad(Iterate(CIDRS[i].network, k)) in r && IsSeeded(r[DottedQuad(Iterate(CIDRS[i].network, k))])
    {
      WalkCoversBlock(CIDRS[i], k);
      SeededAddress(r, CIDRS[i], k);
    }
  }
}
