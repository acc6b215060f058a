/** When a request finds the plugin of its route, and so is filtered by it. */
module Plugins {
  import opened Wrappers
  import opened Configuration
  import opened Routing
  import opened Probers
  import opened Reload
  import opened ReloadProperties
  import opened Generations

  /** Some route of the configuration has this plugin. */
  ghost predicate NamesPlugin(c: Config, path: string) {
    exists r :: r in c.routes && r.plugin == Some(path)
  }

  lemma CompiledExactly(c: Config, gen: nat, path: string)
    ensures path in PluginsOf(c, gen) <==> NamesPlugin(c, path)
    ensures path in PluginsOf(c, gen) ==> PluginsOf(c, gen)[path] == gen
  {
  }

  /** The process started although a plugin did not compile. */
  ghost predicate StartFailed(run: seq<State>)
    requires IsRun(run)
  {
    run[0].targets.plugins != PluginsOf(run[0].gens[0], 0)
  }

  lemma PluginsStay(s: State, s': State)
    requires Next(s, s') && !SwapPlugins(s, s')
    ensures s'.targets.plugins == s.targets.plugins
  {
    hide ProberSpecs, LbMap, PluginsOf, Numbered, Validate, ClientStep;
    if r :| ClientStep(s, s', r) {
      ClientLeavesTheRest(s, s', r);
    }
  }

  /** The plugins of the start stay in force up to the first swap. */
  lemma {:induction false} FirstPlugins(run: seq<State>, i: nat)
    requires IsRun(run) && i < |run| && run[i].targets.pluginGen == 0
    ensures run[i].targets.plugins == run[0].targets.plugins
  {
    hide Next, Init, Inv, PoolInv, SwapPlugins;
    if i > 0 {
      RunKeepsInv(run, i - 1);
      assert Next(run[i - 1], run[i - 1 + 1]);
      StepGenerations(run[i - 1], run[i]);
      FirstPlugins(run, i - 1);
      PluginsStay(run[i - 1], run[i]);
    }
  }

  lemma StartPlugins(run: seq<State>)
    requires IsRun(run)
    ensures |run[0].gens| == 1
    ensures run[0].targets.plugins == if StartFailed(run) then map[] else PluginsOf(run[0].gens[0], 0)
  {
    hide Next, PluginsOf, LbMap, ProberSpecs, FirstPool, Validate;
  }

  /** What the cache holds for the route of a request that is about to read it. */
  lemma CacheOfRequest(s: State, r: RequestId)
    requires Inv(s) && r in s.clients.requests && s.clients.requests[r].Locked?
    ensures var q, t := s.clients.requests[r], s.targets;
            && q.configGen < |s.gens| && q.route in s.gens[q.configGen].routes && t.pluginGen < |s.gens|
            && q.configGen <= t.pluginGen <= q.configGen + 1
            && (t.pluginGen > 0 ==> t.plugins == PluginsOf(s.gens[t.pluginGen], t.pluginGen))
  {
    hide PluginsOf, LbMap, Validate, ValidInv, OrderInv;
    PluginsWhileLocked(s, r);
    assert Sourced(s.gens, s.clients.requests[r]);
  }

  /** Exactly when a route's plugin is not found, and its request goes on
      unfiltered: the plugins are still those of a failed start, or the cache is
      one generation ahead of the request's configuration and no route there
      has the plugin. A plugin that is found is of the cache's generation. */
  lemma PluginMissedExactly(run: seq<State>, p: nat, r: RequestId)
    requires IsRun(run) && p + 1 < |run| && ReadPlugin(run[p], run[p + 1], r)
    ensures r in run[p + 1].clients.requests && run[p + 1].clients.requests[r].PluginRead?
    ensures var q := run[p + 1].clients.requests[r];
            && q.route.plugin.Some? && q.lookup.cacheGen < |run[p].gens|
            && (q.lookup.found.None? <==>
                  || (q.lookup.cacheGen == 0 && StartFailed(run))
                  || (q.lookup.cacheGen == q.configGen + 1 &&
                      !NamesPlugin(run[p].gens[q.lookup.cacheGen], q.route.plugin.value)))
            && (q.lookup.found.Some? ==> q.lookup.found.value == q.lookup.cacheGen)
  {
    hide Next, Init, Inv, PoolInv, PluginsOf, NamesPlugin, StartFailed;
    RunKeepsInv(run, p);
    GenerationsGrow(run, 0, p);
    StartPlugins(run);
    var s := run[p];
    CacheOfRequest(s, r);
    var q, t := s.clients.requests[r], s.targets;
    var path := q.route.plugin.value;
    CompiledExactly(s.gens[t.pluginGen], t.pluginGen, path);
    if t.pluginGen == 0 {
      FirstPlugins(run, p);
    }
    RouteNames(s.gens[q.configGen], q.route);
  }

  lemma RouteNames(c: Config, route: Route)
    requires route in c.routes && route.plugin.Some?
    ensures NamesPlugin(c, route.plugin.value)
  {
  }

  /** The two cases arise. After a failed start every request of a route with a
      plugin goes on unfiltered. */
  lemma UnfilteredAfterFailedStart(c: Config, host: Option<string>, path: string) returns (run: seq<State>)
    requires Validate(c) == None
    requires SelectRoute(c.routes, host, path).Some? && SelectRoute(c.routes, host, path).value.plugin.Some?
    ensures IsRun(run) && StartFailed(run)
    ensures var route := SelectRoute(c.routes, host, path).value;
            var s := run[|run| - 1];
            0 in s.clients.requests && s.clients.requests[0] == PluginRead(route, 0, PluginLookup(0, None))
  {
    hide LbMap, PluginsOf, ProberSpecs, FirstPool, SelectRoute, Validate;
    var route := SelectRoute(c.routes, host, path).value;
    var start := StartState(c);
    var s := start.(targets := start.targets.(plugins := map[]));
    var arrived := s.(clients := Clients({0}, map[0 := Locked(route, 0)]));
    var read := s.(clients := Clients({0}, map[0 := PluginRead(route, 0, PluginLookup(0, None))]));
    assert Arrive(s, arrived, 0, host, path);
    assert ReadPlugin(arrived, read, 0);
    assert ClientStep(s, arrived, 0) && ClientStep(arrived, read, 0);
    assert Init(s);
    run := [s, arrived, read];
    RouteNames(c, route);
    CompiledExactly(c, 0, route.plugin.value);
  }

  /** And while a reload that drops the plugin swaps, a request matched in the
      old configuration can miss it. */
  lemma UnfilteredDuringReload(c: Config, c': Config, host: Option<string>, path: string) returns (run: seq<State>)
    requires Validate(c) == None && Validate(c') == None
    requires SelectRoute(c.routes, host, path).Some? && SelectRoute(c.routes, host, path).value.plugin.Some?
    requires !NamesPlugin(c', SelectRoute(c.routes, host, path).value.plugin.value)
    ensures IsRun(run) && !StartFailed(run)
    ensures var route := SelectRoute(c.routes, host, path).value;
            var s := run[|run| - 1];
            && s.targets.config == c
            && 0 in s.clients.requests && s.clients.requests[0] == PluginRead(route, 0, PluginLookup(1, None))
  {
    hide LbMap, PluginsOf, ProberSpecs, FirstPool, Numbered, SelectRoute, Validate, Init, Next, NamesPlugin;
    var route := SelectRoute(c.routes, host, path).value;
    var start, locked := StartState(c), Clients({0}, map[0 := Locked(route, 0)]);
    ArriveIsPath(c, host, path);
    var middle := ReachesHalf(c, c', locked);
    var before := [start, middle[0]];
    Concatenated(before, middle);
    var half := middle[6];
    var swapped := half.(targets := half.targets.(plugins := PluginsOf(c', 1), pluginGen := 1),
                         reloader := PluginsSwapped(half.reloader.started));
    var last := swapped.(clients := Clients({0}, map[0 := PluginRead(route, 0, PluginLookup(1, None))]));
    CompiledExactly(c', 1, route.plugin.value);
    SwapThenRead(half, swapped, last);
    Concatenated(before + middle[1..], [half, swapped, last]);
    StartIsInit(c);
    run := before + middle[1..] + [half, swapped, last][1..];
  }

  lemma ArriveIsPath(c: Config, host: Option<string>, path: string)
    requires SelectRoute(c.routes, host, path).Some?
    ensures var route := SelectRoute(c.routes, host, path).value;
            Generations.IsPath([StartState(c), StartState(c).(clients := Clients({0}, map[0 := Locked(route, 0)]))])
  {
    hide LbMap, PluginsOf, ProberSpecs, FirstPool, SelectRoute;
    var s := StartState(c);
    var arrived := s.(clients := Clients({0}, map[0 := Locked(SelectRoute(c.routes, host, path).value, 0)]));
    assert Arrive(s, arrived, 0, host, path);
    assert ClientStep(s, arrived, 0);
  }

  lemma SwapThenRead(half: State, swapped: State, last: State)
    requires SwapPlugins(half, swapped) && ReadPlugin(swapped, last, 0)
    ensures Generations.IsPath([half, swapped, last])
  {
    hide SwapPlugins, ReadPlugin;
    assert SwapStep(half, swapped) && ClientStep(swapped, last, 0);
    hide SwapStep, ClientStep;
  }
}
