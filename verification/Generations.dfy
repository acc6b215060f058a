/** When a request meets a single generation of what a reload replaces, and that
    it need not. */
module Generations {
  import opened Wrappers
  import opened Configuration
  import opened Routing
  import opened Probers
  import opened Reload
  import opened ReloadProperties

  /** Everything the request read was of the configuration it was matched in. */
  ghost predicate SingleGeneration(q: Reload.Request)
    requires q.Running?
  {
    && (q.plugin.Some? ==> q.plugin.value.cacheGen == q.configGen)
    && forall k :: 0 <= k < |q.lookups| ==> q.lookups[k].lbGen == q.configGen
  }

  /** The new balancers are installed but the new configuration is not. */
  predicate HalfSwapped(pc: ReloaderPc) {
    pc.LbsSwapped? || pc.PluginsSwapped?
  }

  ghost predicate NoLbSwap(run: seq<State>, i: nat, j: nat)
    requires j < |run|
  {
    forall k :: i <= k < j ==> !SwapLbs(run[k], run[k + 1])
  }

  ghost predicate NoPluginSwap(run: seq<State>, i: nat, j: nat)
    requires j < |run|
  {
    forall k :: i <= k < j ==> !SwapPlugins(run[k], run[k + 1])
  }

  /** Each target's generation moves with its own swap and with nothing else. */
  lemma StepGenerations(s: State, s': State)
    requires Inv(s) && Next(s, s')
    ensures s'.targets.lbGen == s.targets.lbGen + if SwapLbs(s, s') then 1 else 0
    ensures s'.targets.pluginGen == s.targets.pluginGen + if SwapPlugins(s, s') then 1 else 0
  {
    hide ContentInv, ValidInv, ReaderInv, OrderInv, SourceInv;
    hide ProberSpecs, LbMap, PluginsOf, Numbered, Validate, ClientStep;
    if r :| ClientStep(s, s', r) {
      ClientLeavesTheRest(s, s', r);
    }
  }

  lemma {:induction false} SwapsCount(run: seq<State>, i: nat, j: nat)
    requires IsRun(run) && i <= j < |run|
    ensures run[i].targets.lbGen <= run[j].targets.lbGen && run[i].targets.pluginGen <= run[j].targets.pluginGen
    ensures run[j].targets.lbGen == run[i].targets.lbGen <==> NoLbSwap(run, i, j)
    ensures run[j].targets.pluginGen == run[i].targets.pluginGen <==> NoPluginSwap(run, i, j)
  {
    hide Next, Init, Inv, PoolInv, SwapLbs, SwapPlugins, NoLbSwap, NoPluginSwap;
    NoSwapsBegin(run, i);
    if i < j {
      SwapsCount(run, i, j - 1);
      RunKeepsInv(run, j - 1);
      assert Next(run[j - 1], run[j - 1 + 1]);
      StepGenerations(run[j - 1], run[j]);
      NoSwapsExtend(run, i, j);
    }
  }

  lemma NoSwapsBegin(run: seq<State>, i: nat)
    requires i < |run|
    ensures NoLbSwap(run, i, i) && NoPluginSwap(run, i, i)
  {
  }

  lemma NoSwapsExtend(run: seq<State>, i: nat, j: nat)
    requires i < j < |run|
    ensures NoLbSwap(run, i, j) <==> NoLbSwap(run, i, j - 1) && !SwapLbs(run[j - 1], run[j])
    ensures NoPluginSwap(run, i, j) <==> NoPluginSwap(run, i, j - 1) && !SwapPlugins(run[j - 1], run[j])
  {
    hide SwapLbs, SwapPlugins;
    assert run[j] == run[j - 1 + 1];
  }

  lemma RequestStays(s: State, s': State, r: RequestId)
    requires Next(s, s') && r in s.clients.requests
    ensures r in s'.clients.requests && s'.clients.requests[r].configGen == s.clients.requests[r].configGen
    ensures s'.clients.requests[r].route == s.clients.requests[r].route
  {
    hide ProberSpecs, LbMap, PluginsOf, Numbered, Validate, SelectRoute, LookUp;
  }

  lemma JustArrived(s: State, s': State, r: RequestId, host: Option<string>, path: string)
    requires Arrive(s, s', r, host, path)
    ensures r in s'.clients.requests && s'.clients.requests[r].configGen == s.targets.configGen
    ensures SelectRoute(s.targets.config.routes, host, path) == Some(s'.clients.requests[r].route)
  {
    hide SelectRoute;
  }

  lemma {:induction false} ArrivedStays(
      run: seq<State>, a: nat, j: nat, r: RequestId, host: Option<string>, path: string)
    requires IsRun(run) && a < j < |run| && Arrive(run[a], run[a + 1], r, host, path)
    ensures r in run[j].clients.requests && run[j].clients.requests[r].configGen == run[a].targets.configGen
    ensures SelectRoute(run[a].targets.config.routes, host, path) == Some(run[j].clients.requests[r].route)
  {
    hide Next, Init, Arrive;
    if a + 1 < j {
      ArrivedStays(run, a, j - 1, r, host, path);
      assert Next(run[j - 1], run[j - 1 + 1]);
      RequestStays(run[j - 1], run[j], r);
    } else {
      JustArrived(run[a], run[a + 1], r, host, path);
    }
  }

  lemma LastReadDecides(q: Reload.Request, configGen: nat, lbGen: nat)
    requires q.Running? && Ordered(q, configGen, lbGen) && q.lookups != []
    ensures SingleGeneration(q) <==> q.lookups[|q.lookups| - 1].lbGen == q.configGen
    ensures q.configGen <= q.lookups[|q.lookups| - 1].lbGen
  {
  }

  /** Exactly when all a request has read up to some attempt is of a single
      generation: it did not arrive between the swap of the balancers and that
      of the configuration, and the balancers were not swapped since. */
  lemma SingleGenerationExactly(
      run: seq<State>, a: nat, l: nat, r: RequestId, host: Option<string>, path: string)
    requires IsRun(run) && a < l && l + 1 < |run|
    requires Arrive(run[a], run[a + 1], r, host, path) && ReadLb(run[l], run[l + 1], r)
    ensures r in run[l + 1].clients.requests && run[l + 1].clients.requests[r].Running?
    ensures SingleGeneration(run[l + 1].clients.requests[r]) <==>
            !HalfSwapped(run[a].reloader) && NoLbSwap(run, a, l)
  {
    hide Next, Init, Arrive, PoolInv, ContentInv, ValidInv, ReaderInv, SourceInv, SingleGeneration, NoLbSwap, Ordered;
    RunKeepsInv(run, a);
    RunKeepsInv(run, l + 1);
    SwapsCount(run, a, l);
    ArrivedStays(run, a, l + 1, r, host, path);
    var s := run[l + 1];
    LastReadDecides(s.clients.requests[r], s.targets.configGen, s.targets.lbGen);
  }

  /** The same for the plugins alone, read once under the configuration's
      lock. */
  lemma PluginGenerationExactly(
      run: seq<State>, a: nat, p: nat, r: RequestId, host: Option<string>, path: string)
    requires IsRun(run) && a < p && p + 1 < |run|
    requires Arrive(run[a], run[a + 1], r, host, path) && ReadPlugin(run[p], run[p + 1], r)
    ensures r in run[p + 1].clients.requests && run[p + 1].clients.requests[r].PluginRead?
    ensures run[p + 1].clients.requests[r].lookup.cacheGen == run[p + 1].clients.requests[r].configGen <==>
            !run[a].reloader.PluginsSwapped? && NoPluginSwap(run, a, p)
  {
    hide Next, Init, Arrive, PoolInv, ContentInv, ValidInv, ReaderInv, OrderInv, SourceInv, NoPluginSwap;
    RunKeepsInv(run, a);
    SwapsCount(run, a, p);
    ArrivedStays(run, a, p + 1, r, host, path);
  }

  // ------------------------------------------------------------ not atomic

  function StartState(c: Config): State {
    State([c], Targets(c, 0, LbMap(c.routes), 0, PluginsOf(c, 0), 0), FirstPool(ProberSpecs(c.routes)), Idle,
          Clients({}, map[]))
  }

  /** A reload to `c'`, up to where it has swapped the balancers and nothing
      else. */
  function HalfReloaded(c: Config, c': Config): State {
    var s := StartState(c);
    var specs := ProberSpecs(c'.routes);
    s.(gens := [c, c'],
       targets := s.targets.(lbs := LbMap(c'.routes), lbGen := 1),
       pool := s.pool.(live := s.pool.live + Numbered(specs, s.pool.next), next := s.pool.next + |specs|),
       reloader := LbsSwapped(Ids(s.pool.next, |specs|)))
  }

  /** Consecutive states of a run, from anywhere on. */
  ghost predicate IsPath(path: seq<State>) {
    |path| >= 1 && forall i :: 0 <= i < |path| - 1 ==> Next(path[i], path[i + 1])
  }

  function WithRequest(s: State, q: Reload.Request): State {
    s.(clients := Clients({}, map[0 := q]))
  }

  lemma ReachesHalf(c: Config, c': Config, clients: Clients) returns (path: seq<State>)
    requires Validate(c') == None
    ensures |path| == 7
    ensures path[0] == StartState(c).(clients := clients) && path[6] == HalfReloaded(c, c').(clients := clients)
    ensures IsPath(path)
  {
    hide Validate, LbMap, PluginsOf, ProberSpecs, Numbered, FirstPool, ClientStep;
    var s := StartState(c).(clients := clients);
    var specs := ProberSpecs(c'.routes);
    var ids := Ids(s.pool.next, |specs|);
    var pool := s.pool.(live := s.pool.live + Numbered(specs, s.pool.next), next := s.pool.next + |specs|);
    var started := s.(gens := [c, c'], pool := pool, reloader := Spawned(ids));
    path := [s, s.(reloader := Signalled), s.(reloader := Loaded(c')), s.(reloader := Validated(c')),
             s.(reloader := Compiled(c')), started, HalfReloaded(c, c').(clients := clients)];
    assert Prepare(path[0], path[1]) && Prepare(path[1], path[2]);
    assert Prepare(path[2], path[3]) && Prepare(path[3], path[4]);
    assert [c] + [c'] == [c, c'];
    assert Spawn(path[4], path[5]);
    assert SwapLbs(path[5], path[6]);
  }

  lemma ReachesSwapped(c: Config, c': Config) returns (path: seq<State>)
    ensures |path| >= 1 && IsPath(path) && path[0] == HalfReloaded(c, c')
    ensures path[|path| - 1].reloader.Aborting? && path[|path| - 1].targets.config == c'
  {
    hide LbMap, PluginsOf, ProberSpecs, Numbered, FirstPool;
    var half := HalfReloaded(c, c');
    var started := half.reloader.started;
    var plugins := half.(targets := half.targets.(plugins := PluginsOf(c', 1), pluginGen := 1),
                         reloader := PluginsSwapped(started));
    var config := plugins.(targets := plugins.targets.(config := c', configGen := 1),
                           reloader := ConfigSwapped(started));
    var last := config.(pool := config.pool.(handles := started), reloader := Aborting(config.pool.handles));
    assert SwapPlugins(half, plugins) && SwapConfig(plugins, config) && SwapHandles(config, last);
    path := [half, plugins, config, last];
  }

  lemma {:induction false} ReachesIdle(s: State) returns (path: seq<State>)
    requires s.reloader.Aborting?
    ensures |path| >= 1 && IsPath(path) && path[0] == s
    ensures path[|path| - 1].reloader == Idle && path[|path| - 1].targets == s.targets
    decreases |s.reloader.previous|
  {
    var previous := s.reloader.previous;
    if previous == [] {
      path := [s, s.(reloader := Idle)];
      assert Abort(s, path[1]);
    } else {
      var s' := s.(pool := s.pool.(live := s.pool.live - {previous[0]}), reloader := Aborting(previous[1..]));
      assert Abort(s, s');
      var rest := ReachesIdle(s');
      OneMoreState(s, s', rest);
      path := [s, s'] + rest[1..];
    }
  }

  lemma OneMoreState(s: State, s': State, rest: seq<State>)
    requires Abort(s, s') && IsPath(rest) && rest[0] == s'
    ensures IsPath([s, s'] + rest[1..]) && ([s, s'] + rest[1..])[|rest|] == rest[|rest| - 1]
  {
    assert |rest| >= 1;
    hide Abort, IsPath;
    assert Next(s, s');
    PairIsPath(s, s');
    Concatenated([s, s'], rest);
    assert |[s, s'] + rest[1..]| - 1 == |rest|;
  }

  lemma PairIsPath(s: State, s': State)
    requires Next(s, s')
    ensures IsPath([s, s'])
  {
    hide Next;
  }

  /** A whole reload, with no request around. */
  lemma ReachesHead(c: Config, c': Config) returns (path: seq<State>)
    requires Validate(c') == None
    ensures |path| >= 1 && IsPath(path) && path[0] == StartState(c)
    ensures path[|path| - 1].reloader == Idle && path[|path| - 1].targets.config == c'
  {
    hide IsPath, Validate, LbMap, PluginsOf, ProberSpecs, Numbered, FirstPool;
    var half := ReachesHalf(c, c', Clients({}, map[]));
    var swapped := ReachesSwapped(c, c');
    Concatenated(half, swapped);
    var idle := ReachesIdle(swapped[|swapped| - 1]);
    Concatenated(half + swapped[1..], idle);
    path := half + swapped[1..] + idle[1..];
  }

  /** What a request matched in the first configuration is like once it has
      given back the lock. */
  function Admitted(c: Config, route: Route): Reload.Request {
    var plugin := if route.plugin.Some? then Some(LookUpPlugin(StartState(c).targets, route.plugin.value)) else None;
    Reload.Request.Running(route, 0, plugin, [])
  }

  lemma ReachesAdmitted(c: Config, host: Option<string>, path: string) returns (steps: seq<State>)
    requires SelectRoute(c.routes, host, path).Some?
    ensures IsPath(steps) && steps[0] == StartState(c)
    ensures steps[|steps| - 1] == WithRequest(StartState(c), Admitted(c, SelectRoute(c.routes, host, path).value))
  {
    hide LbMap, PluginsOf, ProberSpecs, FirstPool, SelectRoute;
    var route := SelectRoute(c.routes, host, path).value;
    var s := StartState(c);
    var arrived := s.(clients := Clients({0}, map[0 := Locked(route, 0)]));
    var last := WithRequest(s, Admitted(c, route));
    assert Arrive(s, arrived, 0, host, path);
    assert ClientStep(s, arrived, 0);
    if route.plugin.Some? {
      var l := LookUpPlugin(s.targets, route.plugin.value);
      var read := s.(clients := Clients({0}, map[0 := PluginRead(route, 0, l)]));
      assert ReadPlugin(arrived, read, 0);
      assert Release(read, last, 0);
      assert ClientStep(arrived, read, 0) && ClientStep(read, last, 0);
      steps := [s, arrived, read, last];
    } else {
      assert Release(arrived, last, 0);
      assert ClientStep(arrived, last, 0);
      steps := [s, arrived, last];
    }
  }

  lemma StartIsInit(c: Config)
    requires Validate(c) == None
    ensures Init(StartState(c))
  {
    hide Validate, LbMap, PluginsOf, ProberSpecs, FirstPool;
  }

  lemma Concatenated(p: seq<State>, q: seq<State>)
    requires IsPath(p) && IsPath(q) && p[|p| - 1] == q[0]
    ensures IsPath(p + q[1..]) && (p + q[1..])[|p + q[1..]| - 1] == q[|q| - 1]
  {
    hide Next;
    var r := p + q[1..];
    forall i | 0 <= i < |r| - 1
      ensures Next(r[i], r[i + 1])
    {
      if i >= |p| - 1 {
        var k := i - (|p| - 1);
        assert Next(q[k], q[k + 1]);
        assert r[i] == q[k] && r[i + 1] == q[k + 1];
      }
    }
  }

  /** Reloads are not atomic for requests: whatever valid configuration replaces
      another, a request matched in the old one can meet the balancers of the
      new one while the old configuration is still installed, and finds none if
      its route's name is gone. */
  lemma SwapsAreNotAtomic(c: Config, c': Config, host: Option<string>, path: string) returns (run: seq<State>)
    requires Validate(c) == None && Validate(c') == None
    requires SelectRoute(c.routes, host, path).Some?
    ensures IsRun(run)
    ensures var s := run[|run| - 1];
            var route := SelectRoute(c.routes, host, path).value;
            && s.targets.config == c && s.targets.configGen == 0
            && 0 in s.clients.requests
            && s.clients.requests[0] == Admitted(c, route).(lookups :=
                 [Lookup(1, if route.name in LbMap(c'.routes) then Some(LbMap(c'.routes)[route.name]) else None)])
  {
    hide Init, Next, Validate, LbMap, PluginsOf, ProberSpecs, Numbered, FirstPool, SelectRoute;
    var q := Admitted(c, SelectRoute(c.routes, host, path).value);
    var admitted := ReachesAdmitted(c, host, path);
    var middle := ReachesHalf(c, c', Clients({}, map[0 := q]));
    Concatenated(admitted, middle);
    var half := middle[6];
    var l := LookUp(half.targets, q.route.name);
    var last := WithRequest(half, q.(lookups := [l]));
    LookupIsNext(half, last, q);
    Concatenated(admitted + middle[1..], [half, last]);
    StartIsInit(c);
    run := admitted + middle[1..] + [half, last][1..];
  }

  lemma LookupIsNext(half: State, last: State, q: Reload.Request)
    requires q.Running? && q.lookups == [] && half.clients == Clients({}, map[0 := q])
    requires last == WithRequest(half, q.(lookups := [LookUp(half.targets, q.route.name)]))
    ensures Next(half, last)
  {
    hide LookUp;
    var l := LookUp(half.targets, q.route.name);
    assert [] + [l] == [l];
    assert ReadLb(half, last, 0);
    assert ClientStep(half, last, 0);
  }
}
