/** Configuration reload of reload.rs, interleaved with any number of requests:
    one reloader swaps its targets one after the other, each under its own
    lock, while requests read them in the opposite order. */
module Reload {
  import opened Wrappers
  import opened LoadBalancing
  import opened Configuration
  import opened Routing
  import opened Probers

  type RequestId = nat
  type ProberId = nat

  /** The compiled plugins by path; a plugin is told apart by the generation it
      was compiled for. */
  type PluginCache = map<string, nat>

  /** What requests read, each part with the generation it belongs to. */
  datatype Targets = Targets(
    config: Config,
    configGen: nat,
    lbs: map<string, seq<UpstreamPool>>,
    lbGen: nat,
    plugins: PluginCache,
    pluginGen: nat)

  /** The kept handles, and the probers that are running. */
  datatype ProberPool = ProberPool(handles: seq<ProberId>, live: map<ProberId, ProberSpec>, next: nat)

  /** Where the reloader is. From `Spawned` on its new configuration is the
      last generation; `started` are the handles of the probers started for
      it. */
  datatype ReloaderPc =
    | Idle
    | Signalled
    | Loaded(config: Config)
    | Validated(config: Config)
    | Compiled(config: Config)
    | Spawned(started: seq<ProberId>)
    | LbsSwapped(started: seq<ProberId>)
    | PluginsSwapped(started: seq<ProberId>)
    | ConfigSwapped(started: seq<ProberId>)
    | Aborting(previous: seq<ProberId>)

  datatype Lookup = Lookup(lbGen: nat, found: Option<seq<UpstreamPool>>)

  /** What the plugin cache held for a route's plugin, and the cache's
      generation. A request whose plugin is not found is not filtered. */
  datatype PluginLookup = PluginLookup(cacheGen: nat, found: Option<nat>)

  /** A request: while `Locked` or `PluginRead` it holds the configuration's
      read lock; each attempt then looks its route's name up in the
      load-balancer cache. */
  datatype Request =
    | Locked(route: Route, configGen: nat)
    | PluginRead(route: Route, configGen: nat, lookup: PluginLookup)
    | Running(route: Route, configGen: nat, plugin: Option<PluginLookup>, lookups: seq<Lookup>)

  datatype Clients = Clients(readers: set<RequestId>, requests: map<RequestId, Request>)

  /** `gens` lists every configuration that got past validation and plugin
      compilation, the one the process started with first. */
  datatype State = State(
    gens: seq<Config>,
    targets: Targets,
    pool: ProberPool,
    reloader: ReloaderPc,
    clients: Clients)

  function PluginsOf(c: Config, gen: nat): PluginCache {
    map r | r in c.routes && r.plugin.Some? :: r.plugin.value := gen
  }

  function LookUp(t: Targets, name: string): Lookup {
    Lookup(t.lbGen, if name in t.lbs then Some(t.lbs[name]) else None)
  }

  function LookUpPlugin(t: Targets, path: string): PluginLookup {
    PluginLookup(t.pluginGen, if path in t.plugins then Some(t.plugins[path]) else None)
  }

  function SpecFor(specs: seq<ProberSpec>, first: nat, id: nat): ProberSpec
    requires first <= id < first + |specs|
  {
    specs[id - first]
  }

  /** The probers of `specs`, numbered from `first` on. */
  function Numbered(specs: seq<ProberSpec>, first: nat): map<ProberId, ProberSpec> {
    map id: nat | first <= id < first + |specs| :: SpecFor(specs, first, id)
  }

  // ---------------------------------------------------------------- startup

  /** At start a plugin that fails to compile leaves the cache empty instead of
      stopping the process. */
  ghost predicate Init(s: State) {
    && |s.gens| == 1 && Validate(s.gens[0]) == None
    && s.targets.config == s.gens[0] && s.targets.configGen == 0
    && s.targets.lbs == LbMap(s.gens[0].routes) && s.targets.lbGen == 0
    && (s.targets.plugins == PluginsOf(s.gens[0], 0) || s.targets.plugins == map[]) && s.targets.pluginGen == 0
    && s.pool == FirstPool(ProberSpecs(s.gens[0].routes))
    && s.reloader == Idle
    && s.clients == Clients({}, map[])
  }

  function FirstPool(specs: seq<ProberSpec>): ProberPool {
    ProberPool(Ids(0, |specs|), Numbered(specs, 0), |specs|)
  }

  // --------------------------------------------------------------- reloader

  /** Up to here nothing shared is touched; any failure returns to the head of
      the loop. */
  ghost predicate Prepare(s: State, s': State) {
    && s' == s.(reloader := s'.reloader)
    && match s.reloader
       case Idle => s'.reloader == Signalled
       case Signalled => s'.reloader == Idle || s'.reloader.Loaded?
       case Loaded(c) => s'.reloader == if Validate(c) == None then Validated(c) else Idle
       case Validated(c) => s'.reloader == Idle || s'.reloader == Compiled(c)
       case _ => false
  }

  /** The new probers start before anything is swapped. */
  ghost predicate Spawn(s: State, s': State) {
    s.reloader.Compiled? &&
    var c := s.reloader.config;
    var specs := ProberSpecs(c.routes);
    s' == s.(gens := s.gens + [c],
             pool := s.pool.(live := s.pool.live + Numbered(specs, s.pool.next), next := s.pool.next + |specs|),
             reloader := Spawned(Ids(s.pool.next, |specs|)))
  }

  ghost predicate SwapLbs(s: State, s': State) {
    s.reloader.Spawned? && s.gens != [] &&
    var g := |s.gens| - 1;
    s' == s.(targets := s.targets.(lbs := LbMap(s.gens[g].routes), lbGen := g),
             reloader := LbsSwapped(s.reloader.started))
  }

  ghost predicate SwapPlugins(s: State, s': State) {
    s.reloader.LbsSwapped? && s.gens != [] &&
    var g := |s.gens| - 1;
    s' == s.(targets := s.targets.(plugins := PluginsOf(s.gens[g], g), pluginGen := g),
             reloader := PluginsSwapped(s.reloader.started))
  }

  /** The write lock of the configuration waits for its readers. */
  ghost predicate SwapConfig(s: State, s': State) {
    s.reloader.PluginsSwapped? && s.gens != [] && s.clients.readers == {} &&
    var g := |s.gens| - 1;
    s' == s.(targets := s.targets.(config := s.gens[g], configGen := g),
             reloader := ConfigSwapped(s.reloader.started))
  }

  ghost predicate SwapHandles(s: State, s': State) {
    && s.reloader.ConfigSwapped?
    && s' == s.(pool := s.pool.(handles := s.reloader.started), reloader := Aborting(s.pool.handles))
  }

  /** The previous probers are stopped one by one. */
  ghost predicate Abort(s: State, s': State) {
    s.reloader.Aborting? &&
    if s.reloader.previous == [] then s' == s.(reloader := Idle)
    else s' == s.(pool := s.pool.(live := s.pool.live - {s.reloader.previous[0]}),
                  reloader := Aborting(s.reloader.previous[1..]))
  }

  // --------------------------------------------------------------- requests

  /** Take the configuration's read lock and match a route; a request that
      matches none is done at once. */
  ghost predicate Arrive(s: State, s': State, r: RequestId, host: Option<string>, path: string) {
    && r !in s.clients.requests
    && SelectRoute(s.targets.config.routes, host, path).Some?
    && var q := Locked(SelectRoute(s.targets.config.routes, host, path).value, s.targets.configGen);
       s' == s.(clients := Clients(s.clients.readers + {r}, s.clients.requests[r := q]))
  }

  /** Read the plugin cache, still under the configuration's lock. */
  ghost predicate ReadPlugin(s: State, s': State, r: RequestId) {
    && r in s.clients.requests && s.clients.requests[r].Locked? && s.clients.requests[r].route.plugin.Some?
    && var q := s.clients.requests[r];
       var l := LookUpPlugin(s.targets, q.route.plugin.value);
       s' == s.(clients := s.clients.(requests :=
                  s.clients.requests[r := PluginRead(q.route, q.configGen, l)]))
  }

  ghost predicate Release(s: State, s': State, r: RequestId) {
    && r in s.clients.requests
    && var q := s.clients.requests[r];
       && (q.PluginRead? || (q.Locked? && q.route.plugin.None?))
       && var p := if q.PluginRead? then Some(q.lookup) else None;
          s' == s.(clients := Clients(s.clients.readers - {r},
                                      s.clients.requests[r := Running(q.route, q.configGen, p, [])]))
  }

  /** One attempt reads the load-balancer cache. */
  ghost predicate ReadLb(s: State, s': State, r: RequestId) {
    && r in s.clients.requests && s.clients.requests[r].Running?
    && var q := s.clients.requests[r];
       s' == s.(clients := s.clients.(requests :=
                  s.clients.requests[r := q.(lookups := q.lookups + [LookUp(s.targets, q.route.name)])]))
  }

  ghost predicate SwapStep(s: State, s': State) {
    SwapLbs(s, s') || SwapPlugins(s, s') || SwapConfig(s, s') || SwapHandles(s, s')
  }

  ghost predicate ClientStep(s: State, s': State, r: RequestId) {
    || (exists host, path :: Arrive(s, s', r, host, path))
    || ReadPlugin(s, s', r) || Release(s, s', r) || ReadLb(s, s', r)
  }

  /** One of the parties moves, or something else in the process does. */
  ghost predicate Next(s: State, s': State) {
    || s' == s
    || Prepare(s, s') || Spawn(s, s') || SwapStep(s, s') || Abort(s, s')
    || exists r :: ClientStep(s, s', r)
  }

  ghost predicate IsRun(run: seq<State>) {
    && run != [] && Init(run[0])
    && forall i :: 0 <= i < |run| - 1 ==> Next(run[i], run[i + 1])
  }

  // ------------------------------------------------------------- invariants

  predicate Preparing(pc: ReloaderPc) {
    pc.Idle? || pc.Signalled? || pc.Loaded? || pc.Validated? || pc.Compiled?
  }

  /** How far each target has got, by the reloader's position: the balancers
      first, then the plugins, then the configuration. */
  ghost predicate GenerationInv(n: nat, t: Targets, pc: ReloaderPc) {
    var settled := Preparing(pc) || pc.ConfigSwapped? || pc.Aborting?;
    && n >= (if settled then 1 else 2)
    && t.configGen == (if settled then n - 1 else n - 2)
    && t.pluginGen == (if settled || pc.PluginsSwapped? then n - 1 else n - 2)
    && t.lbGen == (if settled || pc.PluginsSwapped? || pc.LbsSwapped? then n - 1 else n - 2)
  }

  /** Each target holds what its generation's configuration says. */
  ghost predicate ContentInv(gens: seq<Config>, t: Targets) {
    && t.configGen < |gens| && t.lbGen < |gens| && t.pluginGen < |gens|
    && t.config == gens[t.configGen]
    && t.lbs == LbMap(gens[t.lbGen].routes)
    && (t.plugins == PluginsOf(gens[t.pluginGen], t.pluginGen) || (t.pluginGen == 0 && t.plugins == map[]))
  }

  /** Every installed configuration passed validation. */
  ghost predicate ValidInv(gens: seq<Config>, pc: ReloaderPc) {
    && (forall i :: 0 <= i < |gens| ==> Validate(gens[i]) == None)
    && (pc.Validated? || pc.Compiled? ==> Validate(pc.config) == None)
  }

  predicate HoldsLock(q: Request) {
    q.Locked? || q.PluginRead?
  }

  /** Readers of the configuration are the requests between taking and giving
      back the lock; what they matched in is still installed. */
  ghost predicate ReaderInv(c: Clients, configGen: nat) {
    && (forall r :: r in c.readers <==> r in c.requests && HoldsLock(c.requests[r]))
    && (forall r :: r in c.readers ==> c.requests[r].configGen == configGen)
  }

  ghost predicate LookupFits(gens: seq<Config>, name: string, l: Lookup) {
    && l.lbGen < |gens|
    && var lbs := LbMap(gens[l.lbGen].routes);
       l.found == if name in lbs then Some(lbs[name]) else None
  }

  /** The generations a request has met: its balancers are never older than its
      configuration or its plugins and never go back, and the plugin cache was
      at most one generation ahead. */
  ghost predicate Ordered(q: Request, configGen: nat, lbGen: nat) {
    && q.configGen <= configGen
    && (q.PluginRead? ==> q.configGen <= q.lookup.cacheGen <= q.configGen + 1 && q.lookup.cacheGen <= lbGen)
    && (q.Running? ==>
          && (q.plugin.Some? ==>
                && q.configGen <= q.plugin.value.cacheGen <= q.configGen + 1 && q.plugin.value.cacheGen <= lbGen
                && forall k :: 0 <= k < |q.lookups| ==> q.plugin.value.cacheGen <= q.lookups[k].lbGen)
          && (forall k :: 0 <= k < |q.lookups| ==> q.configGen <= q.lookups[k].lbGen <= lbGen)
          && (forall j, k :: 0 <= j < k < |q.lookups| ==> q.lookups[j].lbGen <= q.lookups[k].lbGen))
  }

  /** Its route stems from its configuration's generation, and its lookups
      returned what their generations hold. */
  ghost predicate Sourced(gens: seq<Config>, q: Request) {
    && q.configGen < |gens|
    && q.route in gens[q.configGen].routes
    && (q.Running? ==> forall k :: 0 <= k < |q.lookups| ==> LookupFits(gens, q.route.name, q.lookups[k]))
  }

  ghost predicate OrderInv(c: Clients, t: Targets) {
    forall r :: r in c.requests ==> Ordered(c.requests[r], t.configGen, t.lbGen)
  }

  ghost predicate SourceInv(c: Clients, gens: seq<Config>) {
    forall r :: r in c.requests ==> Sourced(gens, c.requests[r])
  }

  ghost predicate Inv(s: State) {
    && GenerationInv(|s.gens|, s.targets, s.reloader)
    && ContentInv(s.gens, s.targets)
    && ValidInv(s.gens, s.reloader)
    && ReaderInv(s.clients, s.targets.configGen)
    && OrderInv(s.clients, s.targets)
    && SourceInv(s.clients, s.gens)
  }

  lemma MoreGenerations(c: Clients, gens: seq<Config>, added: Config)
    requires SourceInv(c, gens)
    ensures SourceInv(c, gens + [added])
  {
    forall r | r in c.requests
      ensures Sourced(gens + [added], c.requests[r])
    {
      assert Sourced(gens, c.requests[r]);
    }
  }

  lemma PrepareKeepsInv(s: State, s': State)
    requires Inv(s) && Prepare(s, s')
    ensures Inv(s')
  {
    hide ContentInv, ReaderInv, OrderInv, SourceInv, Validate;
  }

  lemma SpawnKeepsInv(s: State, s': State)
    requires Inv(s) && Spawn(s, s')
    ensures Inv(s')
  {
    hide ReaderInv, OrderInv, SourceInv, Validate, LbMap, PluginsOf, ProberSpecs, Numbered;
    MoreGenerations(s.clients, s.gens, s.reloader.config);
  }

  lemma AbortKeepsInv(s: State, s': State)
    requires Inv(s) && Abort(s, s')
    ensures Inv(s')
  {
    hide ContentInv, ReaderInv, OrderInv, SourceInv, Validate;
  }

  lemma LaterTargets(c: Clients, t: Targets, t': Targets)
    requires OrderInv(c, t) && t.configGen <= t'.configGen && t.lbGen <= t'.lbGen
    ensures OrderInv(c, t')
  {
    forall r | r in c.requests
      ensures Ordered(c.requests[r], t'.configGen, t'.lbGen)
    {
      assert Ordered(c.requests[r], t.configGen, t.lbGen);
    }
  }

  lemma SwapKeepsInv(s: State, s': State)
    requires Inv(s) && SwapStep(s, s')
    ensures Inv(s')
  {
    hide OrderInv, SourceInv, Validate, LbMap, PluginsOf;
    LaterTargets(s.clients, s.targets, s'.targets);
  }

  lemma ClientKeepsReaders(s: State, s': State, r: RequestId)
    requires ReaderInv(s.clients, s.targets.configGen) && ClientStep(s, s', r)
    ensures ReaderInv(s'.clients, s'.targets.configGen)
  {
    hide SelectRoute, LookUp;
  }

  /** One request moves on; the others stay as they are. */
  lemma OneRequestMoves(s: State, s': State, r: RequestId, q: Request)
    requires OrderInv(s.clients, s.targets) && SourceInv(s.clients, s.gens)
    requires s'.gens == s.gens && s'.targets == s.targets
    requires s'.clients.requests == s.clients.requests[r := q]
    requires Ordered(q, s.targets.configGen, s.targets.lbGen) && Sourced(s.gens, q)
    ensures OrderInv(s'.clients, s'.targets) && SourceInv(s'.clients, s'.gens)
  {
    hide Ordered, Sourced;
  }

  /** A request matches a route of the configuration installed at that time. */
  lemma ArriveKeepsOrder(s: State, s': State, r: RequestId, host: Option<string>, path: string)
    requires Inv(s) && Arrive(s, s', r, host, path)
    ensures OrderInv(s'.clients, s'.targets) && SourceInv(s'.clients, s'.gens)
  {
    hide SelectRoute, OrderInv, SourceInv;
    OneRequestMoves(s, s', r, s'.clients.requests[r]);
  }

  /** Under the configuration's lock the plugins are at most one swap ahead. */
  lemma PluginsWhileLocked(s: State, r: RequestId)
    requires Inv(s) && r in s.clients.requests && HoldsLock(s.clients.requests[r])
    ensures s.clients.requests[r].configGen == s.targets.configGen
    ensures s.targets.configGen <= s.targets.pluginGen <= s.targets.configGen + 1
    ensures s.targets.pluginGen <= s.targets.lbGen
  {
    assert r in s.clients.readers;
  }

  lemma ReadPluginKeepsOrder(s: State, s': State, r: RequestId)
    requires Inv(s) && ReadPlugin(s, s', r)
    ensures OrderInv(s'.clients, s'.targets) && SourceInv(s'.clients, s'.gens)
  {
    PluginsWhileLocked(s, r);
    var q := s.clients.requests[r];
    assert Sourced(s.gens, q);
    hide OrderInv, SourceInv, GenerationInv, ContentInv, ValidInv, ReaderInv;
    var q' := PluginRead(q.route, q.configGen, LookUpPlugin(s.targets, q.route.plugin.value));
    assert Ordered(q', s.targets.configGen, s.targets.lbGen);
    assert Sourced(s.gens, q');
    hide Ordered, Sourced, LookUpPlugin;
    OneRequestMoves(s, s', r, q');
  }

  lemma ReleaseKeepsOrder(s: State, s': State, r: RequestId)
    requires Inv(s) && Release(s, s', r)
    ensures OrderInv(s'.clients, s'.targets) && SourceInv(s'.clients, s'.gens)
  {
    var q := s.clients.requests[r];
    assert Sourced(s.gens, q) && Ordered(q, s.targets.configGen, s.targets.lbGen);
    hide OrderInv, SourceInv, GenerationInv, ContentInv, ValidInv, ReaderInv;
    var q' := s'.clients.requests[r];
    assert q'.Running? && q'.configGen == q.configGen && q'.route == q.route && q'.lookups == [];
    assert Ordered(q', s.targets.configGen, s.targets.lbGen);
    assert Sourced(s.gens, q');
    hide Ordered, Sourced, LookupFits;
    OneRequestMoves(s, s', r, q');
  }

  lemma OrderedAfterLookup(q: Request, configGen: nat, lbGen: nat, l: Lookup)
    requires q.Running? && Ordered(q, configGen, lbGen) && configGen <= lbGen == l.lbGen
    ensures Ordered(q.(lookups := q.lookups + [l]), configGen, lbGen)
  {
  }

  lemma SourcedAfterLookup(gens: seq<Config>, q: Request, l: Lookup)
    requires q.Running? && Sourced(gens, q) && LookupFits(gens, q.route.name, l)
    ensures Sourced(gens, q.(lookups := q.lookups + [l]))
  {
    hide LookupFits;
  }

  lemma LookUpFits(s: State, name: string)
    requires Inv(s)
    ensures LookupFits(s.gens, name, LookUp(s.targets, name))
    ensures s.targets.configGen <= s.targets.lbGen
  {
    hide LbMap;
  }

  /** A lookup meets the balancers of the moment, which never go back. */
  lemma ReadLbKeepsOrder(s: State, s': State, r: RequestId)
    requires Inv(s) && ReadLb(s, s', r)
    ensures OrderInv(s'.clients, s'.targets) && SourceInv(s'.clients, s'.gens)
  {
    var q := s.clients.requests[r];
    var l := LookUp(s.targets, q.route.name);
    assert Ordered(q, s.targets.configGen, s.targets.lbGen) && Sourced(s.gens, q);
    LookUpFits(s, q.route.name);
    OrderedAfterLookup(q, s.targets.configGen, s.targets.lbGen, l);
    SourcedAfterLookup(s.gens, q, l);
    hide OrderInv, SourceInv, Ordered, Sourced, LookupFits, GenerationInv, ContentInv, ValidInv, ReaderInv;
    OneRequestMoves(s, s', r, s'.clients.requests[r]);
  }

  lemma ClientLeavesTheRest(s: State, s': State, r: RequestId)
    requires ClientStep(s, s', r)
    ensures s'.gens == s.gens && s'.targets == s.targets && s'.reloader == s.reloader && s'.pool == s.pool
  {
    hide SelectRoute, LookUp;
  }

  lemma ClientKeepsOrder(s: State, s': State, r: RequestId)
    requires Inv(s) && ClientStep(s, s', r)
    ensures OrderInv(s'.clients, s'.targets) && SourceInv(s'.clients, s'.gens)
  {
    hide Inv, Arrive, ReadPlugin, Release, ReadLb, OrderInv, SourceInv;
    if host, path :| Arrive(s, s', r, host, path) {
      ArriveKeepsOrder(s, s', r, host, path);
    } else if ReadLb(s, s', r) {
      ReadLbKeepsOrder(s, s', r);
    } else if Release(s, s', r) {
      ReleaseKeepsOrder(s, s', r);
    } else {
      ReadPluginKeepsOrder(s, s', r);
    }
  }

  lemma ClientKeepsInv(s: State, s': State, r: RequestId)
    requires Inv(s) && ClientStep(s, s', r)
    ensures Inv(s')
  {
    hide ClientStep, ReaderInv, OrderInv, SourceInv, GenerationInv, ContentInv, ValidInv;
    ClientKeepsReaders(s, s', r);
    ClientKeepsOrder(s, s', r);
    ClientLeavesTheRest(s, s', r);
  }
}
