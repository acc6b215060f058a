/** What reloads guarantee in every interleaving: ordered generations, all or
    nothing, conserved probers, and no unexplained "no upstreams" reply. */
module ReloadProperties {
  import opened Wrappers
  import opened Configuration
  import opened Probers
  import opened Engine
  import opened AttemptProperties
  import opened Reload

  // ----------------------------------------------------------------- probers

  ghost predicate DistinctIds(ids: seq<ProberId>) {
    forall i, j :: 0 <= i < j < |ids| ==> ids[i] != ids[j]
  }

  /** The handles are of different running probers, one for each of `specs`. */
  ghost predicate ProbersRun(live: map<ProberId, ProberSpec>, ids: seq<ProberId>, specs: seq<ProberSpec>) {
    && |ids| == |specs| && DistinctIds(ids)
    && forall i :: 0 <= i < |ids| ==> ids[i] in live && live[ids[i]] == specs[i]
  }

  /** Nothing runs but the probers of these handles. */
  ghost predicate LiveAre(live: map<ProberId, ProberSpec>, a: seq<ProberId>, b: seq<ProberId>) {
    && (forall id :: id in live <==> id in a || id in b)
    && forall id :: id in a ==> id !in b
  }

  ghost predicate PoolInv(gens: seq<Config>, p: ProberPool, pc: ReloaderPc) {
    && (forall id :: id in p.live ==> id < p.next)
    && (Preparing(pc) ==>
          && |gens| >= 1
          && ProbersRun(p.live, p.handles, ProberSpecs(gens[|gens| - 1].routes))
          && LiveAre(p.live, p.handles, []))
    && (!Preparing(pc) && !pc.Aborting? ==>
          && |gens| >= 2
          && ProbersRun(p.live, p.handles, ProberSpecs(gens[|gens| - 2].routes))
          && ProbersRun(p.live, pc.started, ProberSpecs(gens[|gens| - 1].routes))
          && LiveAre(p.live, p.handles, pc.started))
    && (pc.Aborting? ==>
          && |gens| >= 1
          && ProbersRun(p.live, p.handles, ProberSpecs(gens[|gens| - 1].routes))
          && DistinctIds(pc.previous)
          && LiveAre(p.live, p.handles, pc.previous))
  }

  lemma FirstPoolRuns(specs: seq<ProberSpec>)
    ensures var p := FirstPool(specs);
            && ProbersRun(p.live, p.handles, specs) && LiveAre(p.live, p.handles, [])
            && forall id :: id in p.live ==> id < p.next
  {
    StartedRun(map[], specs, 0);
  }

  lemma IdsMembers(first: nat, n: nat, id: nat)
    ensures id in Ids(first, n) <==> first <= id < first + n
  {
    if first <= id < first + n {
      assert Ids(first, n)[id - first] == id;
    }
  }

  lemma IdsRange(first: nat, n: nat)
    ensures forall id: nat :: id in Ids(first, n) <==> first <= id < first + n
    ensures DistinctIds(Ids(first, n))
  {
    forall id: nat
      ensures id in Ids(first, n) <==> first <= id < first + n
    {
      IdsMembers(first, n, id);
    }
  }

  /** The numbers of the new probers, and what they probe. */
  lemma NumberedMembers(specs: seq<ProberSpec>, next: nat)
    ensures forall id: nat :: id in Numbered(specs, next) <==> id in Ids(next, |specs|)
    ensures forall id: nat :: id in Ids(next, |specs|) <==> next <= id < next + |specs|
    ensures ProbersRun(Numbered(specs, next), Ids(next, |specs|), specs)
  {
    var ids := Ids(next, |specs|);
    IdsRange(next, |specs|);
    hide DistinctIds;
    forall i | 0 <= i < |specs|
      ensures ids[i] in Numbered(specs, next) && Numbered(specs, next)[ids[i]] == specs[i]
    {
      assert ids[i] == next + i;
    }
  }

  /** Starting probers under new numbers leaves the running ones alone. */
  lemma StartedRun(live: map<ProberId, ProberSpec>, specs: seq<ProberSpec>, next: nat)
    requires forall id :: id in live ==> id < next
    ensures var live' := live + Numbered(specs, next);
            && ProbersRun(live', Ids(next, |specs|), specs)
            && (forall id :: id in live ==> id in live' && live'[id] == live[id])
            && (forall id :: id in live' <==> id in live || id in Ids(next, |specs|))
            && (forall id :: id in live ==> id !in Ids(next, |specs|))
            && (forall id :: id in live' ==> id < next + |specs|)
  {
    NumberedMembers(specs, next);
    hide Numbered, Ids;
  }

  lemma StillRunning(live: map<ProberId, ProberSpec>, live': map<ProberId, ProberSpec>,
                     ids: seq<ProberId>, specs: seq<ProberSpec>)
    requires ProbersRun(live, ids, specs)
    requires forall id :: id in live ==> id in live' && live'[id] == live[id]
    ensures ProbersRun(live', ids, specs)
  {
  }

  lemma SpawnKeepsPool(s: State, s': State)
    requires PoolInv(s.gens, s.pool, s.reloader) && Spawn(s, s')
    ensures PoolInv(s'.gens, s'.pool, s'.reloader)
  {
    hide ProberSpecs, Numbered, Ids, ProbersRun;
    var specs := ProberSpecs(s.reloader.config.routes);
    StartedRun(s.pool.live, specs, s.pool.next);
    StillRunning(s.pool.live, s'.pool.live, s.pool.handles, ProberSpecs(s.gens[|s.gens| - 1].routes));
  }

  lemma AbortKeepsPool(s: State, s': State)
    requires PoolInv(s.gens, s.pool, s.reloader) && Abort(s, s')
    ensures PoolInv(s'.gens, s'.pool, s'.reloader)
  {
    hide ProberSpecs;
    if s.reloader.previous != [] {
      var x, rest := s.reloader.previous[0], s.reloader.previous[1..];
      assert s.reloader.previous == [x] + rest;
      assert forall i :: 0 <= i < |s.pool.handles| ==> s.pool.handles[i] in s.pool.handles;
      assert x in s.reloader.previous && x !in rest;
    }
  }

  lemma SwapKeepsPool(s: State, s': State)
    requires PoolInv(s.gens, s.pool, s.reloader) && (SwapStep(s, s') || Prepare(s, s'))
    ensures PoolInv(s'.gens, s'.pool, s'.reloader)
  {
    hide ProberSpecs, LbMap, PluginsOf, Validate;
  }

  lemma StepKeepsPool(s: State, s': State)
    requires PoolInv(s.gens, s.pool, s.reloader) && Next(s, s')
    ensures PoolInv(s'.gens, s'.pool, s'.reloader)
  {
    hide PoolInv, Spawn, Abort, SwapStep, Prepare, ClientStep;
    if Spawn(s, s') {
      SpawnKeepsPool(s, s');
    } else if Abort(s, s') {
      AbortKeepsPool(s, s');
    } else if SwapStep(s, s') || Prepare(s, s') {
      SwapKeepsPool(s, s');
    } else if s' != s {
      var r :| ClientStep(s, s', r);
      ClientLeavesTheRest(s, s', r);
    }
  }

  // -------------------------------------------------------------------- runs

  lemma StepKeepsInv(s: State, s': State)
    requires Inv(s) && Next(s, s')
    ensures Inv(s')
  {
    hide Inv, Spawn, Abort, SwapStep, Prepare, ClientStep;
    if Spawn(s, s') {
      SpawnKeepsInv(s, s');
    } else if Abort(s, s') {
      AbortKeepsInv(s, s');
    } else if SwapStep(s, s') {
      SwapKeepsInv(s, s');
    } else if Prepare(s, s') {
      PrepareKeepsInv(s, s');
    } else if s' != s {
      var r :| ClientStep(s, s', r);
      ClientKeepsInv(s, s', r);
    }
  }

  lemma InitTargets(s: State)
    requires Init(s)
    ensures Inv(s)
  {
    hide ProberSpecs, FirstPool, LbMap, PluginsOf, Validate;
  }

  lemma InitPool(gens: seq<Config>)
    requires |gens| == 1
    ensures PoolInv(gens, FirstPool(ProberSpecs(gens[0].routes)), Idle)
  {
    hide ProberSpecs, FirstPool, ProbersRun, LiveAre;
    FirstPoolRuns(ProberSpecs(gens[0].routes));
  }

  lemma InitUnpacked(s: State)
    requires Init(s)
    ensures |s.gens| == 1 && s.pool == FirstPool(ProberSpecs(s.gens[0].routes)) && s.reloader == Idle
  {
    hide ProberSpecs, FirstPool, LbMap, PluginsOf, Validate;
  }

  lemma {:induction false} RunKeepsInv(run: seq<State>, i: nat)
    requires IsRun(run) && i < |run|
    ensures Inv(run[i]) && PoolInv(run[i].gens, run[i].pool, run[i].reloader)
  {
    hide Inv, PoolInv, Next, Init;
    if i == 0 {
      InitTargets(run[0]);
      InitUnpacked(run[0]);
      InitPool(run[0].gens);
    } else {
      RunKeepsInv(run, i - 1);
      assert Next(run[i - 1], run[i - 1 + 1]);
      StepKeepsInv(run[i - 1], run[i]);
      StepKeepsPool(run[i - 1], run[i]);
    }
  }

  /** Reload ordering, in every interleaving of the reloader with any number of
      requests: each attempt's balancers are of a generation no older than the
      configuration its route was matched in, generations never go back from
      one attempt to the next, and the plugins read under the configuration's
      lock are at most one generation ahead and never newer than the balancers of
      an attempt. The balancers in force are never behind the plugins, nor the
      plugins behind the configuration. */
  lemma ReloadOrdering(run: seq<State>, i: nat, r: RequestId)
    requires IsRun(run) && i < |run|
    ensures run[i].targets.configGen <= run[i].targets.pluginGen <= run[i].targets.lbGen <= run[i].targets.configGen + 1
    ensures r in run[i].clients.requests && run[i].clients.requests[r].Running? ==>
              var q := run[i].clients.requests[r];
              && (forall k :: 0 <= k < |q.lookups| ==> q.configGen <= q.lookups[k].lbGen <= run[i].targets.lbGen)
              && (forall j, k :: 0 <= j < k < |q.lookups| ==> q.lookups[j].lbGen <= q.lookups[k].lbGen)
              && (q.plugin.Some? ==>
                    && q.configGen <= q.plugin.value.cacheGen <= q.configGen + 1
                    && forall k :: 0 <= k < |q.lookups| ==> q.plugin.value.cacheGen <= q.lookups[k].lbGen)
  {
    RunKeepsInv(run, i);
    hide ContentInv, ValidInv, ReaderInv, SourceInv, PoolInv;
  }

  /** All targets belong to the newest generation. At start, and only then, a
      plugin failure may have left the plugin cache empty. */
  ghost predicate UpToDate(gens: seq<Config>, t: Targets) {
    && gens != []
    && var g := |gens| - 1;
       && Validate(gens[g]) == None
       && t.config == gens[g]
       && t.lbs == LbMap(gens[g].routes)
       && (t.plugins == PluginsOf(gens[g], g) || (g == 0 && t.plugins == map[]))
  }

  lemma IdleTargets(s: State)
    requires Inv(s) && s.reloader == Idle
    ensures UpToDate(s.gens, s.targets)
  {
    hide LbMap, PluginsOf, Validate, ReaderInv, OrderInv, SourceInv;
  }

  lemma IdlePool(p: ProberPool, specs: seq<ProberSpec>)
    requires ProbersRun(p.live, p.handles, specs) && LiveAre(p.live, p.handles, [])
    ensures p.live.Keys == IdSet(p.handles)
    ensures |p.live| == |specs|
  {
    DistinctCount(p.handles);
    assert p.live.Keys == IdSet(p.handles);
    assert |p.live| == |p.live.Keys|;
  }

  /** At every head of the reloader's loop everything belongs to the newest
      generation, and exactly the probers its configuration asks for are alive:
      one for each upstream entry of each health-checked route. */
  lemma LoopHeadIsConsistent(run: seq<State>, i: nat)
    requires IsRun(run) && i < |run| && run[i].reloader == Idle
    ensures UpToDate(run[i].gens, run[i].targets)
    ensures var p, specs := run[i].pool, ProberSpecs(run[i].targets.config.routes);
            && ProbersRun(p.live, p.handles, specs)
            && p.live.Keys == IdSet(p.handles)
            && |p.live| == |specs|
  {
    hide ProbersRun, LiveAre, Inv;
    RunKeepsInv(run, i);
    IdleTargets(run[i]);
    IdlePool(run[i].pool, ProberSpecs(run[i].targets.config.routes));
  }

  function IdSet(ids: seq<ProberId>): set<ProberId> {
    set id | id in ids
  }

  lemma {:induction false} DistinctCount(ids: seq<ProberId>)
    requires DistinctIds(ids)
    ensures |IdSet(ids)| == |ids|
  {
    if ids != [] {
      var n := |ids| - 1;
      assert forall k :: 0 <= k < n ==> ids[..n][k] == ids[k];
      DistinctCount(ids[..n]);
      assert ids[n] !in IdSet(ids[..n]);
      assert IdSet(ids) == IdSet(ids[..n]) + {ids[n]};
    }
  }

  lemma StepWithoutNewGeneration(s: State, s': State)
    requires Next(s, s') && Preparing(s.reloader)
    ensures |s'.gens| >= |s.gens|
    ensures |s'.gens| == |s.gens| ==>
              Preparing(s'.reloader) && s'.targets == s.targets && s'.pool == s.pool && s'.gens == s.gens
  {
    hide ClientStep, ProberSpecs, LbMap, PluginsOf, Numbered, Validate;
    if r :| ClientStep(s, s', r) {
      ClientLeavesTheRest(s, s', r);
    }
  }

  lemma StepKeepsGenerations(s: State, s': State)
    requires Next(s, s')
    ensures s.gens <= s'.gens
  {
    hide ClientStep, ProberSpecs, LbMap, PluginsOf, Numbered, Validate;
    if r :| ClientStep(s, s', r) {
      ClientLeavesTheRest(s, s', r);
    }
  }

  /** All or nothing: a reload that fails to load, to validate or to compile a
      plugin leaves configuration, balancers, plugins and probers as they were,
      whatever requests do meanwhile. */
  lemma {:induction false} FailedReloadChangesNothing(run: seq<State>, i: nat, j: nat)
    requires IsRun(run) && i <= j < |run| && Preparing(run[i].reloader)
    requires |run[j].gens| == |run[i].gens|
    ensures Preparing(run[j].reloader)
    ensures run[j].targets == run[i].targets && run[j].pool == run[i].pool && run[j].gens == run[i].gens
  {
    hide Next, Init;
    if i < j {
      GenerationsGrow(run, i, j - 1);
      GenerationsGrow(run, j - 1, j);
      FailedReloadChangesNothing(run, i, j - 1);
      assert Next(run[j - 1], run[j - 1 + 1]);
      StepWithoutNewGeneration(run[j - 1], run[j]);
    }
  }

  lemma {:induction false} GenerationsGrow(run: seq<State>, i: nat, j: nat)
    requires IsRun(run) && i <= j < |run|
    ensures run[i].gens <= run[j].gens
  {
    hide Next, Init;
    if i < j {
      GenerationsGrow(run, i, j - 1);
      assert Next(run[j - 1], run[j - 1 + 1]);
      StepKeepsGenerations(run[j - 1], run[j]);
    }
  }

  /** A lookup that finds nothing to serve met a newer generation without the
      route's name. */
  lemma MissMeansReload(gens: seq<Config>, q: Reload.Request, k: nat)
    requires q.Running? && Sourced(gens, q) && k < |q.lookups|
    requires q.configGen <= q.lookups[k].lbGen
    requires forall g :: 0 <= g < |gens| ==> Validate(gens[g]) == None
    requires q.lookups[k].found == None || q.lookups[k].found == Some([])
    ensures q.configGen < q.lookups[k].lbGen < |gens|
    ensures forall route :: route in gens[q.lookups[k].lbGen].routes ==> route.name != q.route.name
  {
    hide LbMap, Validate;
    var g := q.lookups[k].lbGen;
    assert LookupFits(gens, q.route.name, q.lookups[k]);
    ValidatedSchedules(gens[g], q.route.name);
    assert q.route.name !in LbMap(gens[g].routes);
    assert forall route :: route in gens[g].routes ==> route.name != q.route.name;
  }

  /** The attempts of a job meet the lookups a request made. */
  ghost predicate Meets(w: World, lookups: seq<Lookup>) {
    forall k: nat :: k < |lookups| ==> w.schedule(k) == lookups[k].found
  }

  /** One of the request's lookups met a generation newer than the one its
      route was matched in, and no route there bears the route's name. */
  ghost predicate RouteReloadedAway(gens: seq<Config>, q: Reload.Request)
    requires q.Running?
  {
    exists k :: 0 <= k < |q.lookups| && q.configGen < q.lookups[k].lbGen < |gens| &&
                forall route :: route in gens[q.lookups[k].lbGen].routes ==> route.name != q.route.name
  }

  lemma NoUpstreamsMeansReload(gens: seq<Config>, q: Reload.Request, configGen: nat, lbGen: nat, job: Job, w: World)
    requires q.Running? && Sourced(gens, q) && Ordered(q, configGen, lbGen)
    requires forall g :: 0 <= g < |gens| ==> Validate(gens[g]) == None
    requires Meets(w, q.lookups) && LookupsMade(Attempts(job, w, 0, [])) <= |q.lookups|
    requires Attempts(job, w, 0, []).1.NoUpstreams?
    ensures RouteReloadedAway(gens, q)
  {
    hide Attempts, Validate, LookupFits;
    NoUpstreamsExact(job, w, 0, []);
    MissMeansReload(gens, q, |Attempts(job, w, 0, []).0|);
  }

  lemma OverlapShows(gens: seq<Config>, q: Reload.Request, configGen: nat, lbGen: nat)
    requires q.Running? && Ordered(q, configGen, lbGen)
    ensures RouteReloadedAway(gens, q) ==> q.configGen < lbGen
  {
  }

  /** No spurious "no upstreams available": when a request's attempts meet the
      lookups it made, it gets that reply only if a reload overlapped it and
      took its route's name away. */
  lemma NoSpuriousNoUpstreams(run: seq<State>, i: nat, r: RequestId, job: Job, w: World)
    requires IsRun(run) && i < |run|
    requires r in run[i].clients.requests && run[i].clients.requests[r].Running?
    requires Meets(w, run[i].clients.requests[r].lookups)
    requires LookupsMade(Attempts(job, w, 0, [])) <= |run[i].clients.requests[r].lookups|
    requires Attempts(job, w, 0, []).1.NoUpstreams?
    ensures RouteReloadedAway(run[i].gens, run[i].clients.requests[r])
    ensures run[i].clients.requests[r].configGen < run[i].targets.lbGen
  {
    hide Attempts, RouteReloadedAway, PoolInv, Sourced, Ordered, GenerationInv, ContentInv, ReaderInv, Validate;
    RunKeepsInv(run, i);
    var s := run[i];
    OverlapShows(s.gens, s.clients.requests[r], s.targets.configGen, s.targets.lbGen);
    NoUpstreamsMeansReload(s.gens, s.clients.requests[r], s.targets.configGen, s.targets.lbGen, job, w);
  }
}
