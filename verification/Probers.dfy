/** Which active health checks a configuration asks for (health.rs). */
module Probers {
  import opened Configuration

  datatype ProberSpec = ProberSpec(addr: string, path: string, interval: nat, timeout: nat)

  function SpecOf(hc: HealthCheck, u: Upstream): ProberSpec {
    var path := match hc.path case Some(p) => p case None => DEFAULT_PROBE_PATH;
    ProberSpec(u.addr, path, DurationOr(hc.interval, DEFAULT_PROBE_INTERVAL),
               DurationOr(hc.timeout, DEFAULT_PROBE_TIMEOUT))
  }

  function RouteSpecs(hc: HealthCheck, us: seq<Upstream>): (r: seq<ProberSpec>)
    ensures |r| == |us|
    ensures forall i :: 0 <= i < |us| ==> r[i].addr == us[i].addr
  {
    seq(|us|, i requires 0 <= i < |us| => SpecOf(hc, us[i]))
  }

  function SpecsOf(r: Route): seq<ProberSpec> {
    match r.healthCheck
    case None => []
    case Some(hc) => RouteSpecs(hc, r.upstreams)
  }

  /** One prober for each upstream entry of each health-checked route. */
  function ProberSpecs(rs: seq<Route>): seq<ProberSpec> {
    if rs == [] then [] else ProberSpecs(rs[..|rs| - 1]) + SpecsOf(rs[|rs| - 1])
  }

  /** Number probers from `first` on, in the order they are spawned. */
  function Ids(first: nat, n: nat): (r: seq<nat>)
    ensures |r| == n && forall i :: 0 <= i < n ==> r[i] == first + i
  {
    seq(n, i requires 0 <= i < n => first + i)
  }

  /** A route that asks for its upstream `addr` to be probed. */
  ghost predicate AsksFor(r: Route, addr: string) {
    r.healthCheck.Some? && exists i :: 0 <= i < |r.upstreams| && r.upstreams[i].addr == addr
  }

  ghost predicate Probes(specs: seq<ProberSpec>, addr: string) {
    exists i :: 0 <= i < |specs| && specs[i].addr == addr
  }

  lemma ProbesConcat(a: seq<ProberSpec>, b: seq<ProberSpec>, addr: string)
    ensures Probes(a + b, addr) <==> Probes(a, addr) || Probes(b, addr)
  {
    if i :| 0 <= i < |a| && a[i].addr == addr {
      assert (a + b)[i].addr == addr;
    }
    if i :| 0 <= i < |b| && b[i].addr == addr {
      assert (a + b)[|a| + i].addr == addr;
    }
  }

  lemma RouteProbes(r: Route, addr: string)
    ensures Probes(SpecsOf(r), addr) <==> AsksFor(r, addr)
  {
    if AsksFor(r, addr) {
      var i :| 0 <= i < |r.upstreams| && r.upstreams[i].addr == addr;
      assert SpecsOf(r)[i].addr == addr;
    }
  }

  /** An address is probed exactly when a health-checked route lists it. */
  lemma {:induction false} ProbedAddresses(rs: seq<Route>, addr: string)
    ensures Probes(ProberSpecs(rs), addr) <==> exists i :: 0 <= i < |rs| && AsksFor(rs[i], addr)
  {
    hide SpecsOf, Probes, AsksFor;
    if rs == [] {
      NothingProbed(addr);
    } else {
      var n := |rs| - 1;
      ProbedAddresses(rs[..n], addr);
      ProbesConcat(ProberSpecs(rs[..n]), SpecsOf(rs[n]), addr);
      RouteProbes(rs[n], addr);
      assert forall i :: 0 <= i < n ==> rs[..n][i] == rs[i];
    }
  }

  function ProberCount(rs: seq<Route>): nat {
    if rs == [] then 0
    else ProberCount(rs[..|rs| - 1]) + if rs[|rs| - 1].healthCheck.Some? then |rs[|rs| - 1].upstreams| else 0
  }

  /** A prober works with the path, interval and timeout its route configures,
      or with the root, ten seconds and two. */
  lemma ProberSettings(r: Route, j: nat)
    requires r.healthCheck.Some? && j < |r.upstreams|
    ensures |SpecsOf(r)| == |r.upstreams|
    ensures var hc, spec := r.healthCheck.value, SpecsOf(r)[j];
            && spec.addr == r.upstreams[j].addr
            && spec.path == (if hc.path.Some? then hc.path.value else "/")
            && (hc.interval.None? ==> spec.interval == 10_000)
            && (hc.interval.Some? && hc.interval.value.Millis? ==> spec.interval == hc.interval.value.n)
            && (hc.timeout.None? ==> spec.timeout == 2_000)
            && (hc.timeout.Some? && hc.timeout.value.Millis? ==> spec.timeout == hc.timeout.value.n)
  {
  }

  /** Upstream entry `j` of health-checked route `k` has its own prober, and there
      are no others. */
  lemma {:induction false} ProberForEntry(rs: seq<Route>, k: nat, j: nat)
    requires k < |rs| && rs[k].healthCheck.Some? && j < |rs[k].upstreams|
    ensures |ProberSpecs(rs)| == ProberCount(rs)
    ensures var i := ProberCount(rs[..k]) + j;
            i < |ProberSpecs(rs)| && ProberSpecs(rs)[i] == SpecsOf(rs[k])[j]
  {
    var n := |rs| - 1;
    assert |SpecsOf(rs[k])| == |rs[k].upstreams|;
    ProbersCounted(rs);
    ProbersCounted(rs[..n]);
    if k < n {
      ProberForEntry(rs[..n], k, j);
      hide SpecsOf, ProberCount;
      assert rs[..n][..k] == rs[..k] && rs[..n][k] == rs[k];
    } else {
      hide SpecsOf, ProberCount;
      assert ProberSpecs(rs) == ProberSpecs(rs[..n]) + SpecsOf(rs[n]);
    }
  }

  lemma {:induction false} ProbersCounted(rs: seq<Route>)
    ensures |ProberSpecs(rs)| == ProberCount(rs)
  {
    if rs != [] {
      ProbersCounted(rs[..|rs| - 1]);
    }
  }

  lemma NothingProbed(addr: string)
    ensures !Probes([], addr)
  {
  }

  /** Collect the probers to spawn, route by route and upstream by upstream. */
  method SpawnAll(rs: seq<Route>) returns (handles: seq<ProberSpec>)
    ensures handles == ProberSpecs(rs)
  {
    handles := [];
    for i := 0 to |rs|
      invariant handles == ProberSpecs(rs[..i])
    {
      assert rs[..i + 1][..i] == rs[..i];
      if rs[i].healthCheck.Some? {
        var hc := rs[i].healthCheck.value;
        for j := 0 to |rs[i].upstreams|
          invariant handles == ProberSpecs(rs[..i]) + RouteSpecs(hc, rs[i].upstreams)[..j]
        {
          handles := handles + [SpecOf(hc, rs[i].upstreams[j])];
        }
      }
    }
    assert rs[..|rs|] == rs;
  }
}
