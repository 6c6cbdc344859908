/** The runtime's configuration tables: `from_parts` checks the input lists and builds the
    double-indexed lookup tables from them. */
module RuntimeConfig {
  import opened Runs

  datatype Semantics =
    | FunctionCall
    | ParallelCall
    | TaskPool(pool: string)
    | PriorityTaskPool(pool: string, priority: int)

  datatype Service = Service(id: int, name: string, semantics: Semantics)

  datatype Stream = Stream(id: int, name: string)

  datatype Pool = Pool(name: string, executors: nat, capacity: nat)

  datatype Kind = Http | Grpc | Kafka | Cron | Temporal | Custom

  datatype Connector = Connector(id: int, name: string, kind: Kind)

  datatype Endpoint = Endpoint(id: int, name: string, connector: int, kind: Kind, schedule: string, timezone: string)

  datatype Link = Link(from: int, to: int, semantics: Semantics)

  datatype Parts = Parts(
    semantics: Semantics, services: seq<Service>, streams: seq<Stream>, pools: seq<Pool>,
    connectors: seq<Connector>, endpoints: seq<Endpoint>, links: seq<Link>)

  datatype Index<T> = Index(byId: map<int, T>, byName: map<string, T>)

  datatype Tables = Tables(
    semantics: Semantics, services: Index<Service>, streams: Index<Stream>, pools: map<string, Pool>,
    connectors: Index<Connector>, endpoints: Index<Endpoint>, links: map<(int, int), Link>)

  datatype Table = Services | Streams | Pools | Connectors | Endpoints

  datatype Fault =
    | DuplicateId(table: Table, id: int)
    | DuplicateName(table: Table, name: string)
    | UnknownConnector(endpoint: Endpoint)
    | KindMismatch(endpoint: Endpoint)
    | ForbiddenTimezone(endpoint: Endpoint)
    | DuplicateLink(key: (int, int))

  datatype Result<T> = Ok(value: T) | Err(fault: Fault)

  // ---- What the tables must satisfy ----

  /** Two items of the list share a key. */
  ghost predicate Repeated<T, K>(items: seq<T>, key: T -> K, k: K) {
    exists i, j :: 0 <= i < j < |items| && key(items[i]) == k && key(items[j]) == k
  }

  ghost predicate UniqueBy<T, K>(items: seq<T>, key: T -> K) {
    forall i, j :: 0 <= i < j < |items| ==> key(items[i]) != key(items[j])
  }

  /** The table holds exactly the items, each under its own key. */
  ghost predicate Indexes<T, K>(m: map<K, T>, items: seq<T>, key: T -> K) {
    (forall i :: 0 <= i < |items| ==> key(items[i]) in m && m[key(items[i])] == items[i])
    && (forall k :: k in m ==> key(m[k]) == k && m[k] in items)
  }

  ghost predicate IndexesBoth<T>(index: Index<T>, items: seq<T>, id: T -> int, name: T -> string) {
    Indexes(index.byId, items, id) && Indexes(index.byName, items, name)
  }

  predicate TimezoneAllowed(e: Endpoint) {
    match e.kind
    case Cron => e.timezone == "UTC"
    case Temporal => e.schedule == "" || e.timezone == "UTC"
    case _ => true
  }

  predicate Resolves(connectors: seq<Connector>, e: Endpoint) {
    exists c :: c in connectors && c.id == e.connector && c.kind == e.kind
  }

  const LinkKey := (l: Link) => (l.from, l.to)
  const PoolName := (p: Pool) => p.name
  const ServiceId := (s: Service) => s.id
  const ServiceName := (s: Service) => s.name
  const StreamId := (s: Stream) => s.id
  const StreamName := (s: Stream) => s.name
  const ConnectorId := (c: Connector) => c.id
  const ConnectorName := (c: Connector) => c.name
  const EndpointId := (e: Endpoint) => e.id
  const EndpointName := (e: Endpoint) => e.name

  ghost predicate Unambiguous(p: Parts) {
    && UniqueBy(p.services, ServiceId) && UniqueBy(p.services, ServiceName)
    && UniqueBy(p.streams, StreamId) && UniqueBy(p.streams, StreamName)
    && UniqueBy(p.pools, PoolName)
    && UniqueBy(p.connectors, ConnectorId) && UniqueBy(p.connectors, ConnectorName)
    && UniqueBy(p.endpoints, EndpointId) && UniqueBy(p.endpoints, EndpointName)
    && UniqueBy(p.links, LinkKey)
  }

  ghost predicate Acceptable(p: Parts) {
    Unambiguous(p)
    && forall i :: 0 <= i < |p.endpoints| ==> Resolves(p.connectors, p.endpoints[i]) && TimezoneAllowed(p.endpoints[i])
  }

  /** The fault is present in the input. */
  ghost predicate Present(p: Parts, f: Fault) {
    match f
    case DuplicateId(Services, id) => Repeated(p.services, ServiceId, id)
    case DuplicateId(Streams, id) => Repeated(p.streams, StreamId, id)
    case DuplicateId(Connectors, id) => Repeated(p.connectors, ConnectorId, id)
    case DuplicateId(Endpoints, id) => Repeated(p.endpoints, EndpointId, id)
    case DuplicateId(Pools, _) => false
    case DuplicateName(Services, name) => Repeated(p.services, ServiceName, name)
    case DuplicateName(Streams, name) => Repeated(p.streams, StreamName, name)
    case DuplicateName(Pools, name) => Repeated(p.pools, PoolName, name)
    case DuplicateName(Connectors, name) => Repeated(p.connectors, ConnectorName, name)
    case DuplicateName(Endpoints, name) => Repeated(p.endpoints, EndpointName, name)
    case DuplicateLink(key) => Repeated(p.links, LinkKey, key)
    case _ => f.endpoint in p.endpoints && Misfit(p.connectors, f)
  }

  ghost predicate Misfit(connectors: seq<Connector>, f: Fault) {
    match f
    case UnknownConnector(e) => forall c :: c in connectors ==> c.id != e.connector
    case KindMismatch(e) => (exists c :: c in connectors && c.id == e.connector) && !Resolves(connectors, e)
    case ForbiddenTimezone(e) => Resolves(connectors, e) && !TimezoneAllowed(e)
    case _ => false
  }

  // ---- Pools that are referenced ----

  function PoolOf(s: Semantics): Option<string> {
    match s
    case TaskPool(pool) => Some(pool)
    case PriorityTaskPool(pool, _) => Some(pool)
    case _ => None
  }

  ghost predicate Refers(p: Parts, pool: string) {
    PoolOf(p.semantics) == Some(pool)
    || (exists s :: s in p.services && PoolOf(s.semantics) == Some(pool))
    || (exists l :: l in p.links && PoolOf(l.semantics) == Some(pool))
  }

  /** The explicit pools, and a default pool for every other referenced name. */
  ghost predicate PoolsFit(p: Parts, pools: map<string, Pool>) {
    (forall i :: 0 <= i < |p.pools| ==> p.pools[i].name in pools && pools[p.pools[i].name] == p.pools[i])
    && (forall name :: name in pools ==> (pools[name] in p.pools && pools[name].name == name)
                                         || (Refers(p, name) && pools[name] == Pool(name, 1, 0)))
    && (forall name :: Refers(p, name) ==> name in pools)
  }

  ghost predicate Fits(p: Parts, t: Tables) {
    t.semantics == p.semantics
    && IndexesBoth(t.services, p.services, ServiceId, ServiceName)
    && IndexesBoth(t.streams, p.streams, StreamId, StreamName)
    && PoolsFit(p, t.pools)
    && IndexesBoth(t.connectors, p.connectors, ConnectorId, ConnectorName)
    && IndexesBoth(t.endpoints, p.endpoints, EndpointId, EndpointName)
    && Indexes(t.links, p.links, LinkKey)
  }

  // ---- Filling one table ----

  lemma UniqueSnoc<T, K>(items: seq<T>, n: nat, m: map<K, T>, key: T -> K)
    requires n < |items| && UniqueBy(items[..n], key) && Indexes(m, items[..n], key)
    ensures key(items[n]) in m ==> !UniqueBy(items, key) && Repeated(items, key, key(items[n]))
    ensures key(items[n]) !in m ==> UniqueBy(items[..n + 1], key)
    ensures key(items[n]) !in m ==> Indexes(m[key(items[n]) := items[n]], items[..n + 1], key)
  {
    var pre, k := items[..n], key(items[n]);
    assert items[..n + 1] == pre + [items[n]];
    if k in m {
      var i :| 0 <= i < |pre| && pre[i] == m[k];
      assert key(items[i]) == key(items[n]);
    }
  }

  /** The loop over services, streams or connectors. */
  method IndexEntries<T>(table: Table, items: seq<T>, id: T -> int, name: T -> string) returns (r: Result<Index<T>>)
    ensures r.Ok? <==> UniqueBy(items, id) && UniqueBy(items, name)
    ensures r.Ok? ==> IndexesBoth(r.value, items, id, name)
    ensures r.Err? ==>
              match r.fault
              case DuplicateId(t, k) => t == table && Repeated(items, id, k)
              case DuplicateName(t, k) => t == table && Repeated(items, name, k)
              case _ => false
  {
    var byId: map<int, T>, byName: map<string, T> := map[], map[];
    for n := 0 to |items|
      invariant UniqueBy(items[..n], id) && UniqueBy(items[..n], name)
      invariant Indexes(byId, items[..n], id) && Indexes(byName, items[..n], name)
    {
      var item := items[n];
      UniqueSnoc(items, n, byId, id);
      if id(item) in byId { return Err(DuplicateId(table, id(item))); }
      UniqueSnoc(items, n, byName, name);
      if name(item) in byName { return Err(DuplicateName(table, name(item))); }
      byId, byName := byId[id(item) := item], byName[name(item) := item];
    }
    assert items[..|items|] == items;
    return Ok(Index(byId, byName));
  }

  /** The loop over pools or links. */
  method IndexUnique<T, K(==)>(items: seq<T>, key: T -> K, fault: K -> Fault) returns (r: Result<map<K, T>>)
    ensures r.Ok? <==> UniqueBy(items, key)
    ensures r.Ok? ==> Indexes(r.value, items, key)
    ensures r.Err? ==> exists k :: r.fault == fault(k) && Repeated(items, key, k)
  {
    var m: map<K, T> := map[];
    for n := 0 to |items|
      invariant UniqueBy(items[..n], key) && Indexes(m, items[..n], key)
    {
      UniqueSnoc(items, n, m, key);
      if key(items[n]) in m { return Err(fault(key(items[n]))); }
      m := m[key(items[n]) := items[n]];
    }
    assert items[..|items|] == items;
    return Ok(m);
  }

  ghost predicate EndpointOk(connectors: seq<Connector>, e: Endpoint) {
    Resolves(connectors, e) && TimezoneAllowed(e)
  }

  ghost predicate EndpointFault(items: seq<Endpoint>, connectors: seq<Connector>, f: Fault) {
    match f
    case DuplicateId(t, k) => t == Endpoints && Repeated(items, EndpointId, k)
    case DuplicateName(t, k) => t == Endpoints && Repeated(items, EndpointName, k)
    case DuplicateLink(_) => false
    case _ => f.endpoint in items && Misfit(connectors, f)
  }

  /** One endpoint against the connector table. */
  method CheckEndpoint(e: Endpoint, table: map<int, Connector>, ghost connectors: seq<Connector>)
      returns (fault: Option<Fault>)
    requires Indexes(table, connectors, ConnectorId)
    ensures fault.None? <==> EndpointOk(connectors, e)
    ensures fault.Some? ==> Misfit(connectors, fault.value) && fault.value.endpoint == e
  {
    if e.connector !in table {
      forall c | c in connectors ensures c.id != e.connector { assert ConnectorId(c) in table; }
      return Some(UnknownConnector(e));
    }
    var found := table[e.connector];
    assert ConnectorId(found) == e.connector;
    forall c | c in connectors && c.id == e.connector ensures c == found { assert table[ConnectorId(c)] == c; }
    if found.kind != e.kind { return Some(KindMismatch(e)); }
    assert Resolves(connectors, e);
    if e.kind == Cron && e.timezone != "UTC" { return Some(ForbiddenTimezone(e)); }
    if e.kind == Temporal && e.schedule != "" && e.timezone != "UTC" { return Some(ForbiddenTimezone(e)); }
    return None;
  }

  /** The loop over endpoints. */
  method IndexEndpoints(items: seq<Endpoint>, table: map<int, Connector>, ghost connectors: seq<Connector>)
      returns (r: Result<Index<Endpoint>>)
    requires Indexes(table, connectors, ConnectorId)
    ensures r.Ok? <==> UniqueBy(items, EndpointId) && UniqueBy(items, EndpointName)
                         && forall i :: 0 <= i < |items| ==> EndpointOk(connectors, items[i])
    ensures r.Ok? ==> IndexesBoth(r.value, items, EndpointId, EndpointName)
    ensures r.Err? ==> EndpointFault(items, connectors, r.fault)
  {
    var byId: map<int, Endpoint>, byName: map<string, Endpoint> := map[], map[];
    for n := 0 to |items|
      invariant UniqueBy(items[..n], EndpointId) && UniqueBy(items[..n], EndpointName)
      invariant Indexes(byId, items[..n], EndpointId) && Indexes(byName, items[..n], EndpointName)
      invariant forall i :: 0 <= i < n ==> EndpointOk(connectors, items[i])
    {
      var e := items[n];
      UniqueSnoc(items, n, byId, EndpointId);
      if e.id in byId { return Err(DuplicateId(Endpoints, e.id)); }
      UniqueSnoc(items, n, byName, EndpointName);
      if e.name in byName { return Err(DuplicateName(Endpoints, e.name)); }
      var fault := CheckEndpoint(e, table, connectors);
      if fault.Some? { return Err(fault.value); }
      byId, byName := byId[e.id := e], byName[e.name := e];
    }
    assert items[..|items|] == items;
    return Ok(Index(byId, byName));
  }

  /** Every pool named by some call semantics gets a default entry unless it has one; the
      semantics come in an arbitrary order. */
  method CompletePools(explicit: map<string, Pool>, used: set<Semantics>) returns (pools: map<string, Pool>)
    ensures forall name :: name in explicit ==> name in pools && pools[name] == explicit[name]
    ensures forall s :: s in used && PoolOf(s).Some? ==> PoolOf(s).value in pools
    ensures forall name :: name in pools && name !in explicit ==>
              pools[name] == Pool(name, 1, 0) && exists s :: s in used && PoolOf(s) == Some(name)
  {
    pools := explicit;
    var rest := used;
    while rest != {}
      invariant rest <= used
      invariant forall name :: name in explicit ==> name in pools && pools[name] == explicit[name]
      invariant forall s :: s in used && s !in rest && PoolOf(s).Some? ==> PoolOf(s).value in pools
      invariant forall name :: name in pools && name !in explicit ==>
                  pools[name] == Pool(name, 1, 0) && exists s :: s in used && PoolOf(s) == Some(name)
      decreases rest
    {
      var s := Pick(rest);
      match PoolOf(s) {
        case None =>
        case Some(name) => if name !in pools { pools := pools[name := Pool(name, 1, 0)]; }
      }
      rest := rest - {s};
    }
  }

  function Used(semantics: Semantics, services: map<int, Service>, links: map<(int, int), Link>): set<Semantics> {
    {semantics} + (set k | k in services :: services[k].semantics) + (set k | k in links :: links[k].semantics)
  }

  lemma UsedIsReferred(p: Parts, services: map<int, Service>, links: map<(int, int), Link>, name: string)
    requires Indexes(services, p.services, ServiceId) && Indexes(links, p.links, LinkKey)
    ensures Refers(p, name) <==> exists s :: s in Used(p.semantics, services, links) && PoolOf(s) == Some(name)
  {
    var used := Used(p.semantics, services, links);
    assert p.semantics in used;
    forall s | s in p.services ensures s.semantics in used { assert services[ServiceId(s)] == s; }
    forall l | l in p.links ensures l.semantics in used { assert links[LinkKey(l)] == l; }
  }

  /** `from_parts` succeeds exactly on acceptable parts, and its tables then hold exactly them;
      otherwise it names a fault that is there. */
  method FromParts(p: Parts) returns (r: Result<Tables>)
    ensures r.Ok? <==> Acceptable(p)
    ensures r.Ok? ==> Fits(p, r.value)
    ensures r.Err? ==> Present(p, r.fault)
  {
    var services := IndexEntries(Services, p.services, ServiceId, ServiceName);
    if services.Err? { return Err(services.fault); }
    var streams := IndexEntries(Streams, p.streams, StreamId, StreamName);
    if streams.Err? { return Err(streams.fault); }
    var pools := IndexUnique(p.pools, PoolName, name => DuplicateName(Pools, name));
    if pools.Err? { return Err(pools.fault); }
    var connectors := IndexEntries(Connectors, p.connectors, ConnectorId, ConnectorName);
    if connectors.Err? { return Err(connectors.fault); }
    var endpoints := IndexEndpoints(p.endpoints, connectors.value.byId, p.connectors);
    if endpoints.Err? { return Err(endpoints.fault); }
    var links := IndexUnique(p.links, LinkKey, key => DuplicateLink(key));
    if links.Err? { return Err(links.fault); }
    var all := CompletePools(pools.value, Used(p.semantics, services.value.byId, links.value));
    CompletedFits(p, services.value.byId, links.value, pools.value, all);
    return Ok(Tables(p.semantics, services.value, streams.value, all, connectors.value, endpoints.value, links.value));
  }

  lemma CompletedFits(p: Parts, services: map<int, Service>, links: map<(int, int), Link>,
                      explicit: map<string, Pool>, pools: map<string, Pool>)
    requires Indexes(services, p.services, ServiceId) && Indexes(links, p.links, LinkKey)
    requires Indexes(explicit, p.pools, PoolName)
    requires forall name :: name in explicit ==> name in pools && pools[name] == explicit[name]
    requires forall s :: s in Used(p.semantics, services, links) && PoolOf(s).Some? ==> PoolOf(s).value in pools
    requires forall name :: name in pools && name !in explicit ==>
               pools[name] == Pool(name, 1, 0)
               && exists s :: s in Used(p.semantics, services, links) && PoolOf(s) == Some(name)
    ensures PoolsFit(p, pools)
  {
    forall i | 0 <= i < |p.pools| ensures p.pools[i].name in pools && pools[p.pools[i].name] == p.pools[i] {
      assert PoolName(p.pools[i]) in explicit;
    }
    forall name | name in pools && name !in explicit ensures Refers(p, name) {
      UsedIsReferred(p, services, links, name);
    }
    forall name | name in explicit ensures explicit[name].name == name {
      assert PoolName(explicit[name]) == name;
    }
    forall name | Refers(p, name) ensures name in pools {
      UsedIsReferred(p, services, links, name);
    }
  }

  // ---- What the tables give ----

  /** The two indexes hold the same entries, and each is found under both of its keys. */
  lemma IndexesAgree<T>(index: Index<T>, items: seq<T>, id: T -> int, name: T -> string)
    requires IndexesBoth(index, items, id, name)
    ensures index.byId.Values == index.byName.Values == AsSet(items)
    ensures forall k :: k in index.byId ==>
              var x := index.byId[k]; name(x) in index.byName && index.byName[name(x)] == x
    ensures forall k :: k in index.byName ==>
              var x := index.byName[k]; id(x) in index.byId && index.byId[id(x)] == x
  {
    forall x | x in items ensures x in index.byId.Values && x in index.byName.Values {
      var i :| 0 <= i < |items| && items[i] == x;
      assert index.byId[id(x)] == x && index.byName[name(x)] == x;
    }
  }

  function AsSet<T>(items: seq<T>): set<T> {
    set x | x in items
  }

  /** The input decides the tables: any two that fit are equal. */
  lemma IndexesDetermine<T, K>(m: map<K, T>, n: map<K, T>, items: seq<T>, key: T -> K)
    requires Indexes(m, items, key) && Indexes(n, items, key)
    ensures m == n
  {
    forall k | k in m ensures k in n && n[k] == m[k] {
      var i :| 0 <= i < |items| && items[i] == m[k];
      assert key(items[i]) in n;
    }
    forall k | k in n ensures k in m {
      var i :| 0 <= i < |items| && items[i] == n[k];
      assert key(items[i]) in m;
    }
  }

  lemma PoolsDetermine(p: Parts, m: map<string, Pool>, n: map<string, Pool>)
    requires PoolsFit(p, m) && PoolsFit(p, n)
    ensures m == n
  {
    forall name | name in m ensures name in n && n[name] == m[name] { PoolIsDecided(p, m, n, name); }
    forall name | name in n ensures name in m { PoolIsDecided(p, n, m, name); }
  }

  lemma PoolIsDecided(p: Parts, m: map<string, Pool>, n: map<string, Pool>, name: string)
    requires PoolsFit(p, m) && PoolsFit(p, n) && name in m
    ensures name in n && n[name] == m[name]
  {
    if m[name] in p.pools && m[name].name == name {
      var i :| 0 <= i < |p.pools| && p.pools[i] == m[name];
      assert p.pools[i].name in n;
    }
  }

  lemma TablesAreDetermined(p: Parts, t: Tables, u: Tables)
    requires Fits(p, t) && Fits(p, u)
    ensures t == u
  {
    IndexesDetermine(t.services.byId, u.services.byId, p.services, ServiceId);
    IndexesDetermine(t.services.byName, u.services.byName, p.services, ServiceName);
    IndexesDetermine(t.streams.byId, u.streams.byId, p.streams, StreamId);
    IndexesDetermine(t.streams.byName, u.streams.byName, p.streams, StreamName);
    PoolsDetermine(p, t.pools, u.pools);
    IndexesDetermine(t.connectors.byId, u.connectors.byId, p.connectors, ConnectorId);
    IndexesDetermine(t.connectors.byName, u.connectors.byName, p.connectors, ConnectorName);
    IndexesDetermine(t.endpoints.byId, u.endpoints.byId, p.endpoints, EndpointId);
    IndexesDetermine(t.endpoints.byName, u.endpoints.byName, p.endpoints, EndpointName);
    IndexesDetermine(t.links, u.links, p.links, LinkKey);
  }

  // ---- In the terms of the configuration ----

  /** Acceptance by the fields themselves: which repetitions and which endpoints are refused. */
  lemma AcceptableByFields(p: Parts)
    ensures Acceptable(p) <==>
              && (forall i, j :: 0 <= i < j < |p.services| ==>
                    p.services[i].id != p.services[j].id && p.services[i].name != p.services[j].name)
              && (forall i, j :: 0 <= i < j < |p.streams| ==>
                    p.streams[i].id != p.streams[j].id && p.streams[i].name != p.streams[j].name)
              && (forall i, j :: 0 <= i < j < |p.pools| ==> p.pools[i].name != p.pools[j].name)
              && (forall i, j :: 0 <= i < j < |p.connectors| ==>
                    p.connectors[i].id != p.connectors[j].id && p.connectors[i].name != p.connectors[j].name)
              && (forall i, j :: 0 <= i < j < |p.endpoints| ==>
                    p.endpoints[i].id != p.endpoints[j].id && p.endpoints[i].name != p.endpoints[j].name)
              && (forall i, j :: 0 <= i < j < |p.links| ==>
                    p.links[i].from != p.links[j].from || p.links[i].to != p.links[j].to)
              && EndpointsByFields(p)
  {
    assert EndpointsByFields(p) <==>
             forall i :: 0 <= i < |p.endpoints| ==>
               Resolves(p.connectors, p.endpoints[i]) && TimezoneAllowed(p.endpoints[i]);
  }

  /** Every endpoint names a connector of its own kind, and a cron endpoint, or a Temporal one with
      a schedule, is in UTC. */
  ghost predicate EndpointsByFields(p: Parts) {
    forall i :: 0 <= i < |p.endpoints| ==>
      var e := p.endpoints[i];
      && (exists c :: c in p.connectors && c.id == e.connector && c.kind == e.kind)
      && (e.kind == Cron || (e.kind == Temporal && e.schedule != "") ==> e.timezone == "UTC")
  }

  /** Every item is found under its own fields. */
  lemma FoundByFields(p: Parts, t: Tables)
    requires Fits(p, t)
    ensures forall x :: x in p.services ==>
              && x.id in t.services.byId && t.services.byId[x.id] == x
              && x.name in t.services.byName && t.services.byName[x.name] == x
    ensures forall x :: x in p.streams ==>
              && x.id in t.streams.byId && t.streams.byId[x.id] == x
              && x.name in t.streams.byName && t.streams.byName[x.name] == x
    ensures forall x :: x in p.connectors ==>
              && x.id in t.connectors.byId && t.connectors.byId[x.id] == x
              && x.name in t.connectors.byName && t.connectors.byName[x.name] == x
    ensures forall x :: x in p.endpoints ==>
              && x.id in t.endpoints.byId && t.endpoints.byId[x.id] == x
              && x.name in t.endpoints.byName && t.endpoints.byName[x.name] == x
    ensures forall x :: x in p.links ==> (x.from, x.to) in t.links && t.links[(x.from, x.to)] == x
    ensures forall x :: x in p.pools ==> x.name in t.pools && t.pools[x.name] == x
  {
    forall x | x in p.links ensures (x.from, x.to) in t.links && t.links[(x.from, x.to)] == x {
      assert LinkKey(x) in t.links;
    }
    FoundIn(t.services, p.services, ServiceId, ServiceName);
    FoundIn(t.streams, p.streams, StreamId, StreamName);
    FoundIn(t.connectors, p.connectors, ConnectorId, ConnectorName);
    FoundIn(t.endpoints, p.endpoints, EndpointId, EndpointName);
  }

  lemma FoundIn<T>(index: Index<T>, items: seq<T>, id: T -> int, name: T -> string)
    requires IndexesBoth(index, items, id, name)
    ensures forall x :: x in items ==>
              && id(x) in index.byId && index.byId[id(x)] == x && name(x) in index.byName && index.byName[name(x)] == x
  {
  }

  /** The call semantics names this pool. */
  predicate Names(s: Semantics, pool: string) {
    s == TaskPool(pool) || (s.PriorityTaskPool? && s.pool == pool)
  }

  ghost predicate Named(p: Parts, pool: string) {
    || Names(p.semantics, pool) || (exists x :: x in p.services && Names(x.semantics, pool))
    || (exists x :: x in p.links && Names(x.semantics, pool))
  }

  /** Every pool named by the default, a service or a link resolves; nothing else is added, and what
      is added is a pool of one executor and capacity zero. */
  lemma PoolsByName(p: Parts, t: Tables, pool: string)
    requires Fits(p, t)
    ensures pool in t.pools <==> Named(p, pool) || exists x :: x in p.pools && x.name == pool
    ensures pool in t.pools && (forall x :: x in p.pools ==> x.name != pool) ==> t.pools[pool] == Pool(pool, 1, 0)
  {
    forall s: Semantics ensures PoolOf(s) == Some(pool) <==> Names(s, pool) { }
    assert Refers(p, pool) <==> Named(p, pool);
    if x :| x in p.pools && x.name == pool {
      var i :| 0 <= i < |p.pools| && p.pools[i] == x;
      assert p.pools[i].name in t.pools;
    }
  }
}
