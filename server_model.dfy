/**
 * The two database record shapes of folonet-server/model.go, and what their
 * primary keys and defaults mean for the tables that hold them.
 */
module ServerModel {
  import opened Wrappers

  /** A registered service; `Name` is its primary key. */
  datatype ServerUnit = ServerUnit(
    name: string,
    deployment: string,
    service: string,
    namespace: string,
    ip: string,
    localEndpoint: string)

  /** A virtual address and the local endpoint in front of it; `IP` is its primary key. */
  datatype IPPair = IPPair(ip: string, checkpoint: string, localEndpoint: string)

  /** A pair as created with only its key set: both other columns take their default "". */
  function NewIPPair(ip: string): (p: IPPair)
    ensures p.ip == ip && IsFree(p) && !IsSeeded(p)
  {
    IPPair(ip, "", "")
  }

  /** An empty checkpoint marks a pair that no service holds. */
  predicate IsFree(p: IPPair) {
    p.checkpoint == ""
  }

  /** An empty local endpoint marks a pair that seeding has not reached. */
  predicate IsSeeded(p: IPPair) {
    p.localEndpoint != ""
  }

  /** The server_units table: every row is stored under its own name. */
  predicate KeyedByName(units: map<string, ServerUnit>) {
    forall n :: n in units ==> units[n].name == n
  }

  /** The ip_pairs table: every row is stored under its own IP. */
  predicate KeyedByIp(pairs: map<string, IPPair>) {
    forall ip :: ip in pairs ==> pairs[ip].ip == ip
  }

  /** A unit carries a copy of the IP and local endpoint of the pair it was given. */
  function UnitForPair(name: string, deployment: string, service: string, namespace: string, p: IPPair): (u: ServerUnit)
    ensures u.name == name && u.ip == p.ip && u.localEndpoint == p.localEndpoint
    ensures u.deployment == deployment && u.service == service && u.namespace == namespace
  {
    ServerUnit(name, deployment, service, namespace, p.ip, p.localEndpoint)
  }

  /** Why a table operation failed: `First` found no row, or `Create` met an existing key. */
  datatype DbError = RecordNotFound | DuplicateKey

  /**
   * gorm `Save` of a pair: with an empty primary key it is a `Create`, which
   * fails when the empty key already exists; otherwise every column is
   * written, and the row is created when it is missing.
   */
  function SavePair(pairs: map<string, IPPair>, p: IPPair): (r: Result<map<string, IPPair>, DbError>)
    ensures r.Err? <==> p.ip == "" && "" in pairs
    ensures r.Err? ==> r.error == DuplicateKey
    ensures r.Ok? ==> r.value == pairs[p.ip := p]
  {
    if p.ip == "" && "" in pairs then Err(DuplicateKey) else Ok(pairs[p.ip := p])
  }

  /** `Save` whose error the caller drops: a refused save leaves the table as it was. */
  function SaveIgnoringError(pairs: map<string, IPPair>, p: IPPair): (r: map<string, IPPair>)
    ensures p.ip != "" || "" !in pairs ==> r == pairs[p.ip := p]
    ensures p.ip == "" && "" in pairs ==> r == pairs
  {
    match SavePair(pairs, p)
    case Ok(m) => m
    case Err(_) => pairs
  }

  /** Storing a row under its own key keeps a table keyed by name. */
  lemma KeyedByNameUpdate(units: map<string, ServerUnit>, u: ServerUnit)
    requires KeyedByName(units)
    ensures KeyedByName(units[u.name := u])
    ensures forall n :: KeyedByName(units - {n})
  {
  }

  /** Storing a row under its own key keeps a table keyed by IP. */
  lemma KeyedByIpUpdate(pairs: map<string, IPPair>, p: IPPair)
    requires KeyedByIp(pairs)
    ensures KeyedByIp(pairs[p.ip := p])
  {
  }
}
