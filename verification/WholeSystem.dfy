/** The parts together: a request served while the reloader, the probers and
    other requests run. */
module WholeSystem {
  import opened Wrappers
  import opened Headers
  import opened LoadBalancing
  import opened Configuration
  import opened Engine
  import opened AttemptProperties
  import opened RetryProgress
  import opened Routing
  import opened Generations
  import opened Probing

  // ----------------------------------------------------------------- health

  /** In state `i` `addr` is up, and no prober reports it down up to state `j`. */
  ghost predicate StaysUp(run: seq<HealthRegistry.State>, i: nat, j: nat, addr: string) {
    && i <= j < |run| && HealthRegistry.Verdict(run[i], addr)
    && forall k :: i <= k < j ==> !HealthRegistry.SwapsIn(run[k], run[k + 1], addr, false)
  }

  lemma {:induction false} VerdictStaysUp(run: seq<HealthRegistry.State>, i: nat, j: nat, addr: string)
    requires HealthRegistry.IsRun(run) && StaysUp(run, i, j, addr)
    ensures HealthRegistry.Verdict(run[j], addr)
  {
    hide HealthRegistry.IsRun, HealthRegistry.SwapsIn, HealthRegistry.Verdict;
    if i < j {
      VerdictStaysUp(run, i, j - 1, addr);
      assert !HealthRegistry.SwapsIn(run[j - 1], run[j - 1 + 1], addr, false);
      if HealthRegistry.SwapsIn(run[j - 1], run[j], addr, true) {
        HealthRegistry.SwapSets(run, j - 1, addr, true);
      } else {
        HealthRegistry.NoSwapKeeps(run, j - 1, addr);
      }
    }
  }

  /** The request's health reads are lookups in a run of the registry: the
      n-th read of attempt `k` takes effect in state `at(k, n)`, between the
      states `from` and `to`. */
  ghost predicate ReadsRegistry(
      w: World, run: seq<HealthRegistry.State>, from: nat, to: nat, at: (nat, nat) -> nat)
  {
    && to < |run|
    && (forall k: nat, n: nat :: from <= at(k, n) <= to)
    && forall k: nat, n: nat, a :: w.health(k, n, a) == HealthRegistry.Verdict(run[at(k, n)], a)
  }

  lemma UpMeansHealthy(
      w: World, run: seq<HealthRegistry.State>, from: nat, to: nat, at: (nat, nat) -> nat, addr: string)
    requires HealthRegistry.IsRun(run) && ReadsRegistry(w, run, from, to, at) && StaysUp(run, from, to, addr)
    ensures HealthyThroughout(w, addr)
  {
    forall k: nat, n: nat
      ensures w.health(k, n, addr)
    {
      VerdictStaysUp(run, from, at(k, n), addr);
    }
  }

  // ----------------------------------------------------------------- reload

  /** The schedule that generation `g` keeps for the request's route name. */
  function ScheduleFor(gens: seq<Config>, q: Reload.Request): Option<seq<UpstreamPool>>
    requires q.configGen < |gens|
  {
    var lbs := LbMap(gens[q.configGen].routes);
    if q.route.name in lbs then Some(lbs[q.route.name]) else None
  }

  /** No reload got as far as its own generation since the route was matched:
      every attempt meets the schedule of the configuration it came from. */
  lemma NoOverlapMeansSteady(run: seq<Reload.State>, i: nat, r: Reload.RequestId, w: World, limit: nat)
    requires Reload.IsRun(run) && i < |run|
    requires r in run[i].clients.requests && run[i].clients.requests[r].Running?
    requires limit <= |run[i].clients.requests[r].lookups|
    requires ReloadProperties.Meets(w, run[i].clients.requests[r].lookups)
    requires run[i].targets.lbGen == run[i].clients.requests[r].configGen
    ensures var q := run[i].clients.requests[r];
            && q.configGen < |run[i].gens| && q.route in run[i].gens[q.configGen].routes
            && ScheduleFor(run[i].gens, q).Some?
            && SteadySchedule(w, ScheduleFor(run[i].gens, q).value, limit)
  {
    ReloadProperties.RunKeepsInv(run, i);
    SteadyLookups(run[i].gens, run[i].clients.requests[r], run[i].targets, w, limit);
  }

  lemma SteadyLookups(gens: seq<Config>, q: Reload.Request, t: Reload.Targets, w: World, limit: nat)
    requires q.Running? && Reload.Sourced(gens, q) && Reload.Ordered(q, t.configGen, t.lbGen)
    requires forall g :: 0 <= g < |gens| ==> Validate(gens[g]) == None
    requires t.lbGen == q.configGen && limit <= |q.lookups| && ReloadProperties.Meets(w, q.lookups)
    ensures ScheduleFor(gens, q).Some? && SteadySchedule(w, ScheduleFor(gens, q).value, limit)
  {
    hide LbMap, Validate;
    ValidatedSchedules(gens[q.configGen], q.route.name);
    forall k: nat | k < limit
      ensures w.schedule(k) == ScheduleFor(gens, q)
    {
      assert Reload.LookupFits(gens, q.route.name, q.lookups[k]);
    }
  }

  /** The addresses a request can be sent to are those its route lists, unless
      a later route bears the same name. */
  lemma ScheduleAddresses(rs: seq<Route>, i: nat)
    requires LastOfItsName(rs, i)
    ensures rs[i].name in LbMap(rs)
    ensures AddressesOf(LbMap(rs)[rs[i].name]) == set u | u in rs[i].upstreams :: u.addr
  {
    hide LbMap, Expand, Pools, AddressesOf;
    LbMapHolds(rs, i);
    ExpandedAddresses(rs[i].upstreams);
  }

  lemma ExpandedAddresses(us: seq<Upstream>)
    ensures AddressesOf(Expand(Pools(us))) == set u | u in us :: u.addr
  {
    hide Expand, Pools;
    var s := Expand(Pools(us));
    forall addr
      ensures addr in AddressesOf(s) <==> addr in set u | u in us :: u.addr
    {
      ExpandServesAll(Pools(us), addr);
      if j :| 0 <= j < |us| && us[j].addr == addr {
        assert Pools(us)[j].addr == addr;
      }
    }
  }

  // --------------------------------------------------------------- attempts

  /** `w`, going on with `s` and the first ticket where the request no longer
      looks. */
  function Prolonged(w: World, n: nat, s: seq<UpstreamPool>): World {
    w.(schedule := (k: nat) => if k < n then w.schedule(k) else Some(s),
       ticket := (k: nat) => TicketAt(w, n, k))
  }

  function TicketAt(w: World, n: nat, k: nat): usize {
    if k < n then w.ticket(k) else w.ticket(0)
  }

  ghost predicate SameLookup(w: World, w': World, k: nat) {
    w'.schedule(k) == w.schedule(k) && w'.ticket(k) == w.ticket(k)
  }

  /** Schedules that are never looked up and tickets never drawn make no
      difference. */
  lemma {:induction false} OnlyLookupsMatter(job: Job, w: World, w': World, k: nat, tried: seq<string>)
    requires w' == w.(schedule := w'.schedule, ticket := w'.ticket)
    requires forall j: nat :: k <= j < k + LookupsMade(Attempts(job, w, k, tried)) ==> SameLookup(w, w', j)
    ensures Attempts(job, w', k, tried) == Attempts(job, w, k, tried)
    decreases job.limit - k
  {
    hide Sent, Select, Strip, ApplyOverrides;
    if k < job.limit {
      assert SameLookup(w, w', k);
      assert Chosen(w', k, tried) == Chosen(w, k, tried);
      hide Chosen;
      if GoesOn(job, w, k, tried) {
        var addr := Chosen(w, k, tried).value;
        AttemptsAfterFailure(job, w, k, tried, addr);
        AttemptsAfterFailure(job, w', k, tried, addr);
        OnlyLookupsMatter(job, w, w', k + 1, tried + [addr]);
      }
    }
  }

  lemma SomeLookup(job: Job, w: World)
    requires job.limit > 0
    ensures LookupsMade(Attempts(job, w, 0, [])) > 0
  {
    hide Chosen, Sent, Strip, ApplyOverrides;
  }

  lemma ProlongedReaches(w: World, n: nat, s: seq<UpstreamPool>, h: set<string>, limit: nat)
    requires n > 0 && ScansReach(w, s, h, n)
    ensures ScansReach(Prolonged(w, n, s), s, h, limit)
  {
    hide Scan;
    forall k: nat, a | k < limit && a in h
      ensures ScanReaches(Prolonged(w, n, s), s, k, a)
    {
      assert ScanReaches(w, s, if k < n then k else 0, a);
    }
  }

  /** What a request achieves with upstreams `h` of its schedule. */
  ghost predicate Progress(
      req: Engine.Request, route: Route, client: Client, w: World, s: seq<UpstreamPool>, h: set<string>)
  {
    var job := JobOf(req, route, client);
    var (attempts, reply) := Attempts(job, w, 0, []);
    && (forall j, k :: 0 <= j < k < |attempts| && k < |h| ==> attempts[j].addr != attempts[k].addr)
    && (|AddressesOf(s)| <= job.limit && (exists a :: a in h && AnswersAt(job, w, s, a)) ==> reply.Proxied?)
  }

  lemma ProgressWithLookups(
      req: Engine.Request, route: Route, client: Client, w: World, n: nat, s: seq<UpstreamPool>, h: set<string>)
    requires SteadySchedule(w, s, n) && LookupsMade(Attempts(JobOf(req, route, client), w, 0, [])) <= n
    requires ScansReach(w, s, h, n) && forall a :: a in h ==> HealthyThroughout(w, a)
    ensures Progress(req, route, client, w, s, h)
  {
    hide Attempts, AddressesOf, OutcomeAt, ScansReach;
    var job := JobOf(req, route, client);
    var w' := Prolonged(w, n, s);
    SomeLookup(job, w);
    ProlongedReaches(w, n, s, h, job.limit);
    OnlyLookupsMatter(job, w, w', 0, []);
    assert forall a :: HealthyThroughout(w, a) ==> HealthyThroughout(w', a);
    assert forall k: nat, b :: OutcomeAt(job, w', k, b) == OutcomeAt(job, w, k, b) by {
      SameOutcomes(job, w, w');
    }
    assert forall a :: AnswersAt(job, w, s, a) ==> AnswersAt(job, w', s, a);
    RetriesProgress(req, route, client, w', s, h);
  }

  lemma SameOutcomes(job: Job, w: World, w': World)
    requires w'.outcome == w.outcome
    ensures forall k: nat, b :: OutcomeAt(job, w', k, b) == OutcomeAt(job, w, k, b)
  {
    hide Sent;
  }

  // ----------------------------------------------------------------- result

  /** Request `req` arrives in state `a` under the number `r`, while no reload
      is between its first swap and that of the configuration, and makes its
      lookups and health reads up to state `z`, the balancers not being swapped
      meanwhile. */
  ghost predicate ServedWithoutReload(
      run: seq<System>, a: nat, z: nat, r: Reload.RequestId, at: (nat, nat) -> nat,
      req: Engine.Request, client: Client, w: World)
  {
    && IsSystemRun(run) && a < z < |run|
    && Reload.Arrive(run[a].reload, run[a + 1].reload, r, HostOf(req), req.path)
    && !HalfSwapped(run[a].reload.reloader) && NoLbSwap(Reloads(run), a, z)
    && r in run[z].reload.clients.requests
    && var q := run[z].reload.clients.requests[r];
       && q.Running? && ReloadProperties.Meets(w, q.lookups)
       && LookupsMade(Attempts(JobOf(req, q.route, client), w, 0, [])) <= |q.lookups|
       && ReadsRegistry(w, Registries(run), a, z, at)
  }

  lemma StillSameBalancers(
      run: seq<Reload.State>, a: nat, z: nat, r: Reload.RequestId, host: Option<string>, path: string)
    requires Reload.IsRun(run) && a < z < |run| && Reload.Arrive(run[a], run[a + 1], r, host, path)
    requires !HalfSwapped(run[a].reloader) && NoLbSwap(run, a, z)
    ensures r in run[z].clients.requests && run[z].targets.lbGen == run[z].clients.requests[r].configGen
    ensures SelectRoute(run[a].targets.config.routes, host, path) == Some(run[z].clients.requests[r].route)
  {
    hide Reload.IsRun, Reload.Arrive, NoLbSwap;
    hide Reload.ContentInv, Reload.ValidInv, Reload.ReaderInv, Reload.OrderInv, Reload.SourceInv;
    hide ReloadProperties.PoolInv;
    ReloadProperties.RunKeepsInv(run, a);
    SwapsCount(run, a, z);
    ArrivedStays(run, a, z, r, host, path);
  }

  /** Retry progress in the whole system. Let a request arrive and be served
      while any number of other requests, the probers and the reloader run, no
      reload having swapped the balancers since. Whatever tickets the others
      draw and whatever other flags flip: its first |h| attempts go to pairwise
      different upstreams, where `h` are upstreams within reach of its scans
      that are up and not reported down meanwhile; and with as many attempts as
      addresses, one of `h` answering and all others answering or failing to
      connect, the client gets an answer. */
  lemma SystemRetryProgress(
      run: seq<System>, a: nat, z: nat, r: Reload.RequestId, at: (nat, nat) -> nat,
      req: Engine.Request, client: Client, w: World, h: set<string>)
    requires ServedWithoutReload(run, a, z, r, at, req, client, w)
    requires forall addr :: addr in h ==> StaysUp(Registries(run), a, z, addr)
    ensures var q := run[z].reload.clients.requests[r];
            && SelectRoute(run[a].reload.targets.config.routes, HostOf(req), req.path) == Some(q.route)
            && q.configGen < |run[z].reload.gens| && ScheduleFor(run[z].reload.gens, q).Some?
            && var s := ScheduleFor(run[z].reload.gens, q).value;
               ScansReach(w, s, h, |q.lookups|) ==> Progress(req, q.route, client, w, s, h)
  {
    hide Progress, Attempts, HealthyThroughout, Reload.IsRun, HealthRegistry.IsRun, IsSystemRun, ScheduleFor, StaysUp;
    hide ReadsRegistry, NoLbSwap, Reload.Arrive, ScansReach, ReloadProperties.Meets;
    RunsOfParts(run);
    var q := run[z].reload.clients.requests[r];
    StillSameBalancers(Reloads(run), a, z, r, HostOf(req), req.path);
    NoOverlapMeansSteady(Reloads(run), z, r, w, |q.lookups|);
    forall addr | addr in h
      ensures HealthyThroughout(w, addr)
    {
      UpMeansHealthy(w, Registries(run), a, z, at, addr);
    }
    var s := ScheduleFor(run[z].reload.gens, q).value;
    if ScansReach(w, s, h, |q.lookups|) {
      ProgressWithLookups(req, q.route, client, w, |q.lookups|, s, h);
    }
  }
}
