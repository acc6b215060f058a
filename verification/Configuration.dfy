/** The part of config.rs that the proxy core relies on. */
module Configuration {
  import opened Wrappers
  import opened Addresses
  import opened Headers
  import opened LoadBalancing

  const MAX_UPSTREAM_WEIGHT: nat := 10_000
  const DEFAULT_WEIGHT: nat := 100
  const DEFAULT_TOTAL_TIMEOUT: nat := 30_000
  const DEFAULT_PROBE_PATH := "/"
  const DEFAULT_PROBE_INTERVAL: nat := 10_000
  const DEFAULT_PROBE_TIMEOUT: nat := 2_000

  datatype Upstream = Upstream(addr: string, weight: Option<nat>)

  datatype Mirror = Mirror(addr: string, rate: Option<nat>)

  /** What a configured duration parses to, in milliseconds. */
  datatype Duration = Millis(n: nat) | Malformed

  datatype HealthCheck = HealthCheck(path: Option<string>, interval: Option<Duration>, timeout: Option<Duration>)

  datatype Route = Route(
    name: string,
    host: Option<string>,
    path: Option<string>,
    upstreams: seq<Upstream>,
    mirror: Option<Mirror>,
    totalTimeout: Option<Duration>,
    requestHeaders: Overrides,
    responseHeaders: Overrides,
    healthCheck: Option<HealthCheck>,
    retries: Option<nat>,
    plugin: Option<string>)

  datatype Config = Config(routes: seq<Route>)

  datatype Rejection =
    | NoRoutes
    | EmptyRoute(route: string)
    | RelativePath(route: string)
    | TlsUpstream(addr: string)
    | BadUpstream(addr: string, error: AddressError)
    | TooHeavy(addr: string)
    | BadDuration(route: string)
    | NoAttempts(route: string)
    | BadMirror(addr: string, error: AddressError)
    | BadRate(route: string)
    | BadHeader(name: string)

  function MaxAttempts(r: Route): (n: nat)
    ensures n >= 1
  {
    match r.retries
    case Some(k) => if k < 1 then 1 else k
    case None => if |r.upstreams| > 1 then 2 else 1
  }

  /** A duration that is absent or malformed gives way to the default. */
  function DurationOr(d: Option<Duration>, default: nat): nat {
    match d
    case Some(Millis(n)) => n
    case _ => default
  }

  function TotalTimeout(r: Route): nat {
    DurationOr(r.totalTimeout, DEFAULT_TOTAL_TIMEOUT)
  }

  // ------------------------------------------------------------- validation

  function CheckUpstream(u: Upstream): Option<Rejection> {
    if "https://" <= u.addr then Some(TlsUpstream(u.addr))
    else match HostPort(u.addr)
         case Err(e) => Some(BadUpstream(u.addr, e))
         case Ok(_) =>
           if u.weight.Some? && u.weight.value > MAX_UPSTREAM_WEIGHT then Some(TooHeavy(u.addr)) else None
  }

  function CheckUpstreams(us: seq<Upstream>): Option<Rejection> {
    if us == [] then None
    else match CheckUpstream(us[0])
         case Some(e) => Some(e)
         case None => CheckUpstreams(us[1..])
  }

  function CheckMirror(r: Route): Option<Rejection> {
    match r.mirror
    case None => None
    case Some(m) =>
      match HostPort(m.addr)
      case Err(e) => Some(BadMirror(m.addr, e))
      case Ok(_) => if m.rate.Some? && m.rate.value > 100 then Some(BadRate(r.name)) else None
  }

  /** The total timeout first, then the health check's two durations. */
  function CheckDurations(r: Route): Option<Rejection> {
    if r.totalTimeout == Some(Malformed) then Some(BadDuration(r.name))
    else match r.healthCheck
         case None => None
         case Some(hc) =>
           if hc.interval == Some(Malformed) || hc.timeout == Some(Malformed) then Some(BadDuration(r.name)) else None
  }

  predicate GoodHeader(o: (string, string)) {
    ParseName(o.0).Some? && (o.1 == "" || ValidValue(o.1))
  }

  function CheckHeaders(os: Overrides): Option<Rejection> {
    if os == [] then None
    else if !GoodHeader(os[0]) then Some(BadHeader(os[0].0))
    else CheckHeaders(os[1..])
  }

  function CheckRoute(r: Route): Option<Rejection> {
    if r.upstreams == [] then Some(EmptyRoute(r.name))
    else if r.path.Some? && !("/" <= r.path.value) then Some(RelativePath(r.name))
    else if CheckUpstreams(r.upstreams).Some? then CheckUpstreams(r.upstreams)
    else if CheckDurations(r).Some? then CheckDurations(r)
    else if r.retries == Some(0) then Some(NoAttempts(r.name))
    else if CheckMirror(r).Some? then CheckMirror(r)
    else CheckHeaders(r.requestHeaders + r.responseHeaders)
  }

  function CheckRoutes(rs: seq<Route>): Option<Rejection> {
    if rs == [] then None
    else match CheckRoute(rs[0])
         case Some(e) => Some(e)
         case None => CheckRoutes(rs[1..])
  }

  /** The first reason to reject a configuration, if there is one. */
  function Validate(c: Config): Option<Rejection> {
    if c.routes == [] then Some(NoRoutes) else CheckRoutes(c.routes)
  }

  predicate GoodUpstream(u: Upstream) {
    && !("https://" <= u.addr)
    && HostPort(u.addr).Ok?
    && (u.weight.Some? ==> u.weight.value <= 10_000)
  }

  /** What a usable route looks like. */
  predicate GoodRoute(r: Route) {
    && r.upstreams != []
    && (r.path.Some? ==> "/" <= r.path.value)
    && (forall i :: 0 <= i < |r.upstreams| ==> GoodUpstream(r.upstreams[i]))
    && r.totalTimeout != Some(Malformed)
    && (r.healthCheck.Some? ==>
          r.healthCheck.value.interval != Some(Malformed) && r.healthCheck.value.timeout != Some(Malformed))
    && r.retries != Some(0)
    && (r.mirror.Some? ==>
          && HostPort(r.mirror.value.addr).Ok?
          && (r.mirror.value.rate.Some? ==> r.mirror.value.rate.value <= 100))
    && (forall i :: 0 <= i < |r.requestHeaders| ==> GoodHeader(r.requestHeaders[i]))
    && (forall i :: 0 <= i < |r.responseHeaders| ==> GoodHeader(r.responseHeaders[i]))
  }

  lemma {:induction false} CheckUpstreamsExact(us: seq<Upstream>)
    ensures CheckUpstreams(us) == None <==> forall i :: 0 <= i < |us| ==> GoodUpstream(us[i])
  {
    if us != [] {
      CheckUpstreamsExact(us[1..]);
      assert forall i :: 0 < i < |us| ==> us[i] == us[1..][i - 1];
      assert forall i :: 0 <= i < |us[1..]| ==> us[1..][i] == us[i + 1];
    }
  }

  lemma {:induction false} CheckHeadersExact(os: Overrides)
    ensures CheckHeaders(os) == None <==> forall i :: 0 <= i < |os| ==> GoodHeader(os[i])
  {
    if os != [] {
      hide GoodHeader;
      CheckHeadersExact(os[1..]);
      assert forall i :: 0 < i < |os| ==> os[i] == os[1..][i - 1];
      assert forall i :: 0 <= i < |os[1..]| ==> os[1..][i] == os[i + 1];
    }
  }

  lemma CheckRouteExact(r: Route)
    ensures CheckRoute(r) == None <==> GoodRoute(r)
  {
    hide GoodHeader, GoodUpstream, CheckHeaders, CheckUpstreams;
    CheckUpstreamsExact(r.upstreams);
    var os := r.requestHeaders + r.responseHeaders;
    CheckHeadersExact(os);
    assert forall i :: 0 <= i < |r.responseHeaders| ==> r.responseHeaders[i] == os[|r.requestHeaders| + i];
    assert forall i :: 0 <= i < |r.requestHeaders| ==> r.requestHeaders[i] == os[i];
  }

  lemma {:induction false} CheckRoutesExact(rs: seq<Route>)
    ensures CheckRoutes(rs) == None <==> forall i :: 0 <= i < |rs| ==> GoodRoute(rs[i])
  {
    if rs != [] {
      hide GoodRoute, CheckRoute;
      CheckRouteExact(rs[0]);
      CheckRoutesExact(rs[1..]);
      assert forall i :: 0 < i < |rs| ==> rs[i] == rs[1..][i - 1];
      assert forall i :: 0 <= i < |rs[1..]| ==> rs[1..][i] == rs[i + 1];
    }
  }

  /** Validation accepts exactly the non-empty lists of usable routes. */
  lemma ValidateExact(c: Config)
    ensures Validate(c) == None <==>
            c.routes != [] && forall i :: 0 <= i < |c.routes| ==> GoodRoute(c.routes[i])
  {
    CheckRoutesExact(c.routes);
  }

  /** The parse step of an attempt or a mirror cannot fail under a validated
      configuration, and the attempt limit is the configured one. */
  lemma ValidatedRoute(c: Config, r: Route)
    requires Validate(c) == None && r in c.routes
    ensures forall u :: u in r.upstreams ==> HostPort(u.addr).Ok?
    ensures r.mirror.Some? ==> HostPort(r.mirror.value.addr).Ok?
    ensures r.upstreams != [] && (r.retries.Some? ==> MaxAttempts(r) == r.retries.value)
    ensures forall o :: o in r.requestHeaders + r.responseHeaders ==> GoodHeader(o)
  {
    hide GoodHeader;
    ValidateExact(c);
    assert GoodRoute(r);
    assert forall u :: u in r.upstreams ==> GoodUpstream(u);
  }

  // --------------------------------------------------------- load balancers

  function Pools(us: seq<Upstream>): (ps: seq<UpstreamPool>)
    ensures |ps| == |us|
    ensures forall i :: 0 <= i < |us| ==> ps[i].addr == us[i].addr
  {
    seq(|us|, i requires 0 <= i < |us| => Pool(us[i]))
  }

  function Pool(u: Upstream): UpstreamPool {
    UpstreamPool(u.addr, if u.weight.Some? then u.weight.value else DEFAULT_WEIGHT)
  }

  /** The schedules of a configuration by route name; of routes that share a
      name the last one wins. */
  function LbMap(rs: seq<Route>): map<string, seq<UpstreamPool>> {
    if rs == [] then map[]
    else
      var last := rs[|rs| - 1];
      LbMap(rs[..|rs| - 1])[last.name := Expand(Pools(last.upstreams))]
  }

  /** Route `i` is the last one bearing its name. */
  ghost predicate LastOfItsName(rs: seq<Route>, i: nat) {
    i < |rs| && forall j :: i < j < |rs| ==> rs[j].name != rs[i].name
  }

  /** The schedule kept for a name is that of the last route bearing it. */
  lemma {:induction false} LbMapHolds(rs: seq<Route>, i: nat)
    requires LastOfItsName(rs, i)
    ensures rs[i].name in LbMap(rs) && LbMap(rs)[rs[i].name] == Expand(Pools(rs[i].upstreams))
  {
    hide Expand, Pools;
    if i < |rs| - 1 {
      LbMapHolds(rs[..|rs| - 1], i);
    }
  }

  /** Names that no route bears have no schedule. */
  lemma {:induction false} LbMapNames(rs: seq<Route>, name: string) returns (i: nat)
    requires name in LbMap(rs)
    ensures LastOfItsName(rs, i) && rs[i].name == name
  {
    hide Expand, Pools;
    i := |rs| - 1;
    if rs[i].name != name {
      i := LbMapNames(rs[..i], name);
    }
  }

  lemma {:induction false} LastNamed(rs: seq<Route>, k: nat) returns (i: nat)
    requires k < |rs|
    ensures LastOfItsName(rs, i) && rs[i].name == rs[k].name
  {
    i := |rs| - 1;
    if rs[i].name != rs[k].name {
      i := LastNamed(rs[..i], k);
    }
  }

  ghost predicate NamesDiffer(rs: seq<Route>) {
    forall i, j :: 0 <= i < j < |rs| ==> rs[i].name != rs[j].name
  }

  /** Exactly when each route has a balancer, and so a ticket counter, of its
      own: no two share a name. Routes that do share both, even if they list the
      same upstreams. */
  lemma {:induction false} OneBalancerEachExactly(rs: seq<Route>)
    ensures |LbMap(rs)| <= |rs|
    ensures |LbMap(rs)| == |rs| <==> NamesDiffer(rs)
  {
    hide Expand, Pools;
    if rs != [] {
      var n := |rs| - 1;
      var before, name := LbMap(rs[..n]), rs[n].name;
      OneBalancerEachExactly(rs[..n]);
      assert forall i :: 0 <= i < n ==> rs[..n][i] == rs[i];
      BalancerNames(rs[..n], name);
      assert LbMap(rs).Keys == before.Keys + {name};
    }
  }

  lemma {:induction false} BalancerNames(rs: seq<Route>, name: string)
    ensures name in LbMap(rs) <==> exists i :: 0 <= i < |rs| && rs[i].name == name
  {
    hide Expand, Pools;
    if rs != [] {
      var n := |rs| - 1;
      BalancerNames(rs[..n], name);
      assert forall i :: 0 <= i < n ==> rs[..n][i] == rs[i];
    }
  }

  /** Every route of a validated configuration finds a schedule under its name,
      and every schedule of one can serve. */
  lemma ValidatedSchedules(c: Config, name: string)
    requires Validate(c) == None
    ensures name in LbMap(c.routes) <==> exists r :: r in c.routes && r.name == name
    ensures name in LbMap(c.routes) ==> LbMap(c.routes)[name] != []
  {
    hide Expand;
    if r :| r in c.routes && r.name == name {
      var k :| 0 <= k < |c.routes| && c.routes[k] == r;
      var i := LastNamed(c.routes, k);
      LbMapHolds(c.routes, i);
    }
    if name in LbMap(c.routes) {
      var i := LbMapNames(c.routes, name);
      LbMapHolds(c.routes, i);
      assert c.routes[i] in c.routes;
      ValidatedRoute(c, c.routes[i]);
      ExpandServesAll(Pools(c.routes[i].upstreams), "");
    }
  }
}
