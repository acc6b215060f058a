/** Probers, reloads and the health registry together: who may report on an
    address, and what becomes of its verdict when its check is dropped. */
module Probing {
  import opened Wrappers
  import opened Configuration
  import opened Probers
  import opened HealthRegistry
  import Reload
  import ReloadProperties
  import Generations

  datatype System = System(reload: Reload.State, registry: HealthRegistry.State)

  /** The task of a prober; requests run in odd-numbered ones. */
  function Task(id: Reload.ProberId): Thread {
    2 * id
  }

  /** A prober reports on its own address and only while it runs, and requests
      only look verdicts up. */
  ghost predicate MayBegin(pool: Reload.ProberPool, t: Thread, pc: Pc) {
    match pc
    case SetBegun(addr, _) => exists id :: id in pool.live && t == Task(id) && pool.live[id].addr == addr
    case GetBegun(_) => t % 2 == 1
    case _ => true
  }

  ghost predicate RegistryStep(s: System, s': System, t: Thread) {
    && s'.reload == s.reload
    && Step(s.registry, s'.registry, t)
    && (t in s'.registry.pcs ==> MayBegin(s.reload.pool, t, s'.registry.pcs[t]))
  }

  ghost predicate ReloadStep(s: System, s': System) {
    Reload.Next(s.reload, s'.reload) && s'.registry == s.registry
  }

  ghost predicate Moves(s: System, s': System) {
    ReloadStep(s, s') || exists t :: RegistryStep(s, s', t)
  }

  ghost predicate IsPath(run: seq<System>) {
    |run| >= 1 && forall i :: 0 <= i < |run| - 1 ==> Moves(run[i], run[i + 1])
  }

  ghost predicate IsSystemRun(run: seq<System>) {
    IsPath(run) && Reload.Init(run[0].reload) && Init(run[0].registry)
  }

  function Reloads(run: seq<System>): (r: seq<Reload.State>)
    ensures |r| == |run| && forall i :: 0 <= i < |run| ==> r[i] == run[i].reload
  {
    seq(|run|, i requires 0 <= i < |run| => run[i].reload)
  }

  function Registries(run: seq<System>): (r: seq<HealthRegistry.State>)
    ensures |r| == |run| && forall i :: 0 <= i < |run| ==> r[i] == run[i].registry
  {
    seq(|run|, i requires 0 <= i < |run| => run[i].registry)
  }

  /** Seen from either part, a run of the system is a run of that part. */
  lemma RunsOfParts(run: seq<System>)
    requires IsSystemRun(run)
    ensures Reload.IsRun(Reloads(run)) && IsRun(Registries(run))
  {
    hide Reload.Next, Step, Reload.Init, Init;
    forall i | 0 <= i < |run| - 1
      ensures Reload.Next(Reloads(run)[i], Reloads(run)[i + 1])
      ensures Next(Registries(run)[i], Registries(run)[i + 1])
    {
      assert Moves(run[i], run[i + 1]);
      Stutter(run[i].reload);
    }
  }

  lemma Stutter(s: Reload.State)
    ensures Reload.Next(s, s)
  {
  }

  // -------------------------------------------------------- dropped checks

  /** The configuration has a health-checked route that lists `addr`. */
  ghost predicate Asks(c: Config, addr: string) {
    exists i :: 0 <= i < |c.routes| && AsksFor(c.routes[i], addr)
  }

  predicate SetsVerdictOf(pc: Pc, addr: string) {
    match pc
    case SetBegun(a, _) => a == addr
    case SetReading(a, _) => a == addr
    case SetLookedUp(a, _, _) => a == addr
    case SetMissed(a, _) => a == addr
    case SetWriting(a, _) => a == addr
    case SetVacant(a, _) => a == addr
    case SetEntered(a, _, _) => a == addr
    case SetSwapping(a, _, _) => a == addr
    case _ => false
  }

  ghost predicate NoSetUnderWay(r: HealthRegistry.State, addr: string) {
    forall t :: t in r.pcs ==> !SetsVerdictOf(r.pcs[t], addr)
  }

  ghost predicate NoProberOf(pool: Reload.ProberPool, addr: string) {
    forall id :: id in pool.live ==> pool.live[id].addr != addr
  }

  /** A running prober was running before, or was started for a configuration
      that asks for it. */
  ghost predicate LiveStep(s: Reload.State, s': Reload.State) {
    && s.gens <= s'.gens
    && forall id :: id in s'.pool.live ==>
         || (id in s.pool.live && s'.pool.live[id] == s.pool.live[id])
         || (|s'.gens| > |s.gens| && Asks(s'.gens[|s.gens|], s'.pool.live[id].addr))
  }

  lemma StartedAreAsked(c: Config, first: nat, id: nat)
    requires id in Reload.Numbered(ProberSpecs(c.routes), first)
    ensures Asks(c, Reload.Numbered(ProberSpecs(c.routes), first)[id].addr)
  {
    hide ProberSpecs, AsksFor;
    var specs := ProberSpecs(c.routes);
    var addr := Reload.Numbered(specs, first)[id].addr;
    assert specs[id - first].addr == addr;
    assert Probes(specs, addr);
    ProbedAddresses(c.routes, addr);
  }

  lemma SpawnIsLiveStep(s: Reload.State, s': Reload.State)
    requires Reload.Spawn(s, s')
    ensures LiveStep(s, s')
  {
    hide Asks, Reload.Numbered, ProberSpecs;
    var c := s.reloader.config;
    forall id | id in s'.pool.live
      ensures (id in s.pool.live && s'.pool.live[id] == s.pool.live[id]) || Asks(c, s'.pool.live[id].addr)
    {
      if id in Reload.Numbered(ProberSpecs(c.routes), s.pool.next) {
        StartedAreAsked(c, s.pool.next, id);
      }
    }
    assert s'.gens[|s.gens|] == c;
  }

  lemma NextIsLiveStep(s: Reload.State, s': Reload.State)
    requires Reload.Next(s, s')
    ensures LiveStep(s, s')
  {
    hide Asks, Reload.Spawn, Reload.ClientStep, LbMap, Reload.PluginsOf, Validate;
    if Reload.Spawn(s, s') {
      SpawnIsLiveStep(s, s');
    } else if r :| Reload.ClientStep(s, s', r) {
      Reload.ClientLeavesTheRest(s, s', r);
    }
  }

  lemma SetStepKeepsAddress(s: HealthRegistry.State, s': HealthRegistry.State, t: Thread, addr: string)
    requires t in s.pcs && SetStep(s, s', t) && t in s'.pcs
    ensures SetsVerdictOf(s'.pcs[t], addr) ==> SetsVerdictOf(s.pcs[t], addr)
  {
  }

  lemma OtherStepSetsNothing(s: HealthRegistry.State, s': HealthRegistry.State, t: Thread, addr: string)
    requires t in s.pcs && (BeginStep(s, s', t) || GetStep(s, s', t) || DropStep(s, s', t)) && t in s'.pcs
    ensures SetsVerdictOf(s'.pcs[t], addr) ==> s'.pcs[t].SetBegun?
  {
  }

  /** A task works on the address it began with. */
  lemma StepKeepsAddress(s: HealthRegistry.State, s': HealthRegistry.State, t: Thread, addr: string)
    requires Step(s, s', t)
    ensures t in s.pcs && t in s'.pcs && s'.pcs == s.pcs[t := s'.pcs[t]]
    ensures SetsVerdictOf(s'.pcs[t], addr) ==> SetsVerdictOf(s.pcs[t], addr) || s'.pcs[t].SetBegun?
  {
    hide BeginStep, SetStep, GetStep, DropStep, SetsVerdictOf;
    StepMovesOneThread(s, s', t);
    if SetStep(s, s', t) {
      SetStepKeepsAddress(s, s', t, addr);
    } else {
      OtherStepSetsNothing(s, s', t, addr);
    }
  }

  /** Nothing that runs will report on `addr` any more. */
  ghost predicate Settled(s: System, addr: string) {
    NoProberOf(s.reload.pool, addr) && NoSetUnderWay(s.registry, addr)
  }

  lemma NothingToSwap(r: HealthRegistry.State, r': HealthRegistry.State, addr: string)
    requires NoSetUnderWay(r, addr)
    ensures !SwapsOn(r, r', addr)
  {
    hide Step;
    assert forall t, h :: t in r.pcs && AboutToSwap(r.pcs[t], addr, h) ==> SetsVerdictOf(r.pcs[t], addr);
  }

  lemma SettledStep(s: System, s': System, addr: string)
    requires Moves(s, s') && Settled(s, addr)
    requires |s'.reload.gens| > |s.reload.gens| ==> !Asks(s'.reload.gens[|s.reload.gens|], addr)
    ensures Settled(s', addr)
  {
    hide Reload.Next, Step, Asks, SetsVerdictOf;
    if ReloadStep(s, s') {
      NextIsLiveStep(s.reload, s'.reload);
    } else {
      var t :| RegistryStep(s, s', t);
      StepKeepsAddress(s.registry, s'.registry, t, addr);
      SetBegunIsOf(s'.registry.pcs[t], addr);
    }
  }

  lemma SetBegunIsOf(pc: Pc, addr: string)
    ensures pc.SetBegun? ==> (SetsVerdictOf(pc, addr) <==> pc.addr == addr)
  {
  }

  /** No configuration installed after state `i` and up to state `j` asks for
      `addr`. */
  ghost predicate NotAskedSince(run: seq<System>, i: nat, j: nat, addr: string)
    requires i < |run| && j < |run|
  {
    forall g :: |run[i].reload.gens| <= g < |run[j].reload.gens| ==> !Asks(run[j].reload.gens[g], addr)
  }

  lemma {:induction false} SettledStays(run: seq<System>, i: nat, j: nat, addr: string)
    requires IsSystemRun(run) && i <= j < |run| && Settled(run[i], addr) && NotAskedSince(run, i, j, addr)
    ensures Settled(run[j], addr) && Unswapped(Registries(run), i, j, addr)
  {
    hide Moves, Settled, Asks, Reload.Init, Init, SwapsOn;
    if i < j {
      var s, s' := run[j - 1], run[j];
      GenerationsGrow(run, i, j - 1);
      GenerationsGrow(run, j - 1, j);
      assert forall g :: 0 <= g < |s.reload.gens| ==> s'.reload.gens[g] == s.reload.gens[g];
      SettledStays(run, i, j - 1, addr);
      assert Moves(run[j - 1], run[j - 1 + 1]);
      SettledStep(s, s', addr);
      SettledIsQuiet(s, s', addr);
      assert Registries(run)[j - 1 + 1] == s'.registry;
    }
  }

  lemma SettledIsQuiet(s: System, s': System, addr: string)
    requires Settled(s, addr)
    ensures !SwapsOn(s.registry, s'.registry, addr)
  {
    hide SwapsOn, NoSetUnderWay, NoProberOf;
    NothingToSwap(s.registry, s'.registry, addr);
  }

  lemma GenerationsGrow(run: seq<System>, i: nat, j: nat)
    requires IsSystemRun(run) && i <= j < |run|
    ensures run[i].reload.gens <= run[j].reload.gens
  {
    hide IsSystemRun, Reload.IsRun, IsRun;
    RunsOfParts(run);
    ReloadProperties.GenerationsGrow(Reloads(run), i, j);
  }

  lemma LoopHeadProbers(run: seq<System>, i: nat, addr: string)
    requires IsSystemRun(run) && i < |run| && run[i].reload.reloader == Reload.Idle
    requires !Asks(run[i].reload.targets.config, addr)
    ensures NoProberOf(run[i].reload.pool, addr)
  {
    hide IsSystemRun, Reload.IsRun, IsRun, AsksFor, ProberSpecs;
    RunsOfParts(run);
    ReloadProperties.LoopHeadIsConsistent(Reloads(run), i);
    var p, c := run[i].reload.pool, run[i].reload.targets.config;
    var specs := ProberSpecs(c.routes);
    forall id | id in p.live
      ensures p.live[id].addr != addr
    {
      assert id in ReloadProperties.IdSet(p.handles);
      var k :| 0 <= k < |p.handles| && p.handles[k] == id;
      assert p.live[p.handles[k]] == specs[k];
      assert Probes(specs, specs[k].addr);
      ProbedAddresses(c.routes, specs[k].addr);
    }
  }

  /** What becomes of an address whose health check a reload drops: once the
      reload is over and no set of the address is under way, its verdict is
      final until a configuration asks for the address again: it reads healthy
      exactly if no verdict was ever swapped in or the last one was healthy. */
  lemma DroppedCheckIsFinal(run: seq<System>, i: nat, j: nat, addr: string)
    requires IsSystemRun(run) && i <= j < |run| && run[i].reload.reloader == Reload.Idle
    requires !Asks(run[i].reload.targets.config, addr) && NoSetUnderWay(run[i].registry, addr)
    requires NotAskedSince(run, i, j, addr)
    ensures Verdict(run[j].registry, addr) == Verdict(run[i].registry, addr)
    ensures Verdict(run[j].registry, addr) <==>
            Unswapped(Registries(run), 0, i, addr) || LastSwapped(Registries(run), i, addr, true)
    ensures NoProberOf(run[j].reload.pool, addr) && NoSetUnderWay(run[j].registry, addr)
  {
    hide IsSystemRun, Verdict, Unswapped, LastSwapped, Asks, IsRun, NotAskedSince;
    LoopHeadProbers(run, i, addr);
    SettledStays(run, i, j, addr);
    RunsOfParts(run);
    VerdictPersists(Registries(run), i, j, addr);
    HealthyExactly(Registries(run), i, addr);
  }

  /** Without a health check in any configuration so far, an address reads
      healthy. */
  lemma NeverCheckedReadsHealthy(run: seq<System>, i: nat, addr: string)
    requires IsSystemRun(run) && i < |run|
    requires forall g :: 0 <= g < |run[i].reload.gens| ==> !Asks(run[i].reload.gens[g], addr)
    ensures Verdict(run[i].registry, addr)
  {
    hide Verdict, Unswapped, Asks, IsRun, Moves;
    GenerationsGrow(run, 0, i);
    StartIsSettled(run[0], addr);
    SettledStays(run, 0, i, addr);
    RunsOfParts(run);
    HealthyExactly(Registries(run), i, addr);
  }

  lemma StartIsSettled(s: System, addr: string)
    requires Reload.Init(s.reload) && Init(s.registry) && !Asks(s.reload.gens[0], addr)
    ensures Settled(s, addr)
  {
    hide Asks, ProberSpecs, LbMap, Reload.PluginsOf, Validate, Reload.Numbered;
    forall id | id in s.reload.pool.live
      ensures s.reload.pool.live[id].addr != addr
    {
      StartedAreAsked(s.reload.gens[0], 0, id);
    }
  }

  // ------------------------------------------------------- a stale verdict

  lemma Concatenated(p: seq<System>, q: seq<System>)
    requires IsPath(p) && IsPath(q) && p[|p| - 1] == q[0]
    ensures IsPath(p + q[1..]) && (p + q[1..])[|p + q[1..]| - 1] == q[|q| - 1]
  {
    hide Moves;
    var r := p + q[1..];
    forall i | 0 <= i < |r| - 1
      ensures Moves(r[i], r[i + 1])
    {
      if i >= |p| - 1 {
        var k := i - (|p| - 1);
        assert Moves(q[k], q[k + 1]);
        assert r[i] == q[k] && r[i + 1] == q[k + 1];
      }
    }
  }

  /** A reload path is a path of the system while the registry rests. */
  lemma WhileRegistryRests(path: seq<Reload.State>, registry: HealthRegistry.State) returns (p: seq<System>)
    requires Generations.IsPath(path)
    ensures |p| >= 1 && IsPath(p) && p[0] == System(path[0], registry)
    ensures p[|p| - 1] == System(path[|path| - 1], registry)
  {
    hide Reload.Next;
    p := seq(|path|, i requires 0 <= i < |path| => System(path[i], registry));
    forall i | 0 <= i < |p| - 1
      ensures Moves(p[i], p[i + 1])
    {
      assert Reload.Next(path[i], path[i + 1]);
      assert ReloadStep(p[i], p[i + 1]);
    }
  }

  /** One call by task `t`, from its first step on. */
  ghost predicate IsCall(path: seq<HealthRegistry.State>, t: Thread) {
    && |path| >= 2
    && (forall i :: 0 <= i < |path| - 1 ==> Step(path[i], path[i + 1], t))
    && forall i :: 1 < i < |path| ==>
         t in path[i].pcs && !path[i].pcs[t].SetBegun? && !path[i].pcs[t].GetBegun?
  }

  /** A call is a path of the system while the reloader rests. */
  lemma WhileReloaderRests(path: seq<HealthRegistry.State>, t: Thread, reload: Reload.State) returns (p: seq<System>)
    requires IsCall(path, t)
    requires t in path[1].pcs && MayBegin(reload.pool, t, path[1].pcs[t])
    ensures |p| >= 1 && IsPath(p) && p[0] == System(reload, path[0]) && p[|p| - 1] == System(reload, path[|path| - 1])
  {
    hide Step;
    p := seq(|path|, i requires 0 <= i < |path| => System(reload, path[i]));
    forall i | 0 <= i < |p| - 1
      ensures Moves(p[i], p[i + 1])
    {
      assert Step(path[i], path[i + 1], t);
      assert i > 0 ==> MayBegin(reload.pool, t, path[i + 1].pcs[t]);
      assert RegistryStep(p[i], p[i + 1], t);
    }
  }

  /** No lock held, nobody in a call. */
  function Resting(t: Thread, registry: map<string, Flag>, flags: map<Flag, bool>, log: seq<Transition>)
    : HealthRegistry.State
  {
    HealthRegistry.State({}, None, registry, flags, map[t := Idle, 1 := Idle], log)
  }

  /** The states of a first, unhealthy set of `addr` by task `t`. */
  function Stage(t: Thread, addr: string, k: nat): HealthRegistry.State {
    var s := Resting(t, map[], map[], []);
    var put := Resting(t, map[addr := 0], map[0 := true], []);
    if k == 0 then s
    else if k == 1 then Goto(s, t, SetBegun(addr, false))
    else if k == 2 then Goto(s, t, SetReading(addr, false)).(readers := {t})
    else if k == 3 then Goto(s, t, SetLookedUp(addr, false, None)).(readers := {t})
    else if k == 4 then Goto(s, t, SetMissed(addr, false))
    else if k == 5 then Goto(s, t, SetWriting(addr, false)).(writer := Some(t))
    else if k == 6 then Goto(s, t, SetVacant(addr, false)).(writer := Some(t))
    else if k == 7 then Goto(put, t, SetEntered(addr, false, 0)).(writer := Some(t))
    else if k == 8 then Goto(put, t, SetSwapping(addr, false, 0))
    else Resting(t, map[addr := 0], map[0 := false], [Transition(addr, false)])
  }

  lemma EarlyStage(t: Thread, addr: string, k: nat)
    requires t != 1 && k < 5
    ensures Step(Stage(t, addr, k), Stage(t, addr, k + 1), t)
  {
    hide GetStep, DropStep;
    if k == 0 {
      assert BeginStep(Stage(t, addr, 0), Stage(t, addr, 1), t);
    } else {
      hide BeginStep;
      assert SetStep(Stage(t, addr, k), Stage(t, addr, k + 1), t);
    }
  }

  lemma LateStage(t: Thread, addr: string, k: nat)
    requires t != 1 && 5 <= k < 9
    ensures Step(Stage(t, addr, k), Stage(t, addr, k + 1), t)
  {
    hide BeginStep, GetStep, DropStep;
    if k == 6 {
      InsertStage(t, addr);
    } else if k == 8 {
      SwapStage(t, addr);
    } else {
      assert SetStep(Stage(t, addr, k), Stage(t, addr, k + 1), t);
    }
  }

  lemma InsertStage(t: Thread, addr: string)
    requires t != 1
    ensures Step(Stage(t, addr, 6), Stage(t, addr, 7), t)
  {
    hide BeginStep, GetStep, DropStep;
    assert Insert(Stage(t, addr, 6), Stage(t, addr, 7), t, addr, false, 0);
    assert SetStep(Stage(t, addr, 6), Stage(t, addr, 7), t);
  }

  lemma SwapStage(t: Thread, addr: string)
    requires t != 1
    ensures Step(Stage(t, addr, 8), Stage(t, addr, 9), t)
  {
    hide BeginStep, GetStep, DropStep;
    assert Swap(Stage(t, addr, 8), Stage(t, addr, 9), t, addr, false, 0);
    assert SetStep(Stage(t, addr, 8), Stage(t, addr, 9), t);
  }

  lemma StagePosition(t: Thread, addr: string, k: nat)
    requires t != 1
    ensures t in Stage(t, addr, k).pcs
    ensures k > 1 ==> !Stage(t, addr, k).pcs[t].SetBegun? && !Stage(t, addr, k).pcs[t].GetBegun?
  {
  }

  lemma CallOfSet(t: Thread, addr: string) returns (p: seq<HealthRegistry.State>)
    requires t != 1
    ensures |p| == 10 && IsCall(p, t) && p[0] == Resting(t, map[], map[], [])
    ensures p[1] == Goto(p[0], t, SetBegun(addr, false))
    ensures p[9] == Resting(t, map[addr := 0], map[0 := false], [Transition(addr, false)])
  {
    p := seq(10, k requires 0 <= k < 10 => Stage(t, addr, k));
    assert p[0] == Stage(t, addr, 0) && p[1] == Stage(t, addr, 1) && p[9] == Stage(t, addr, 9);
    hide Stage, Step;
    forall i | 0 <= i < 10
      ensures i < 9 ==> Step(p[i], p[i + 1], t)
      ensures i > 1 ==> t in p[i].pcs && !p[i].pcs[t].SetBegun? && !p[i].pcs[t].GetBegun?
    {
      StagePosition(t, addr, i);
      if i < 5 {
        EarlyStage(t, addr, i);
      } else if i < 9 {
        LateStage(t, addr, i);
      }
    }
  }

  lemma CallOfLookup(s: HealthRegistry.State, addr: string) returns (p: seq<HealthRegistry.State>)
    requires s.writer == None && s.readers == {} && 1 in s.pcs && s.pcs[1] == Idle
    requires addr in s.registry && s.registry[addr] in s.flags
    ensures |p| >= 2 && IsCall(p, 1) && p[0] == s && p[1] == Goto(s, 1, GetBegun(addr))
    ensures p[|p| - 1].pcs == s.pcs[1 := GetDone(addr, Verdict(s, addr))]
  {
    var begun := Goto(s, 1, GetBegun(addr));
    var reading := Goto(s, 1, GetReading(addr)).(readers := {1});
    var found := Goto(s, 1, GetFound(addr, s.registry[addr])).(readers := {1});
    var last := Goto(s, 1, GetDone(addr, Verdict(s, addr))).(readers := {1});
    assert BeginStep(s, begun, 1);
    assert GetStep(begun, reading, 1) && GetStep(reading, found, 1) && GetStep(found, last, 1);
    hide BeginStep, SetStep, GetStep;
    p := [s, begun, reading, found, last];
  }

  lemma SomeProber(c: Config, addr: string) returns (id: Reload.ProberId)
    requires Asks(c, addr)
    ensures MayBegin(Generations.StartState(c).pool, Task(id), SetBegun(addr, false))
  {
    hide ProberSpecs, AsksFor, LbMap, Reload.PluginsOf;
    var specs := ProberSpecs(c.routes);
    ProbedAddresses(c.routes, addr);
    assert Probes(specs, addr);
    id :| 0 <= id < |specs| && specs[id].addr == addr;
    var live := Generations.StartState(c).pool.live;
    assert id in live && live[id] == specs[id];
  }

  /** The system at start, with a task for the prober and one for a request. */
  lemma StartsSystem(c: Config, t: Thread)
    requires Validate(c) == None
    ensures Reload.Init(Generations.StartState(c)) && Init(Resting(t, map[], map[], []))
  {
    hide Reload.Init, Validate;
    Generations.StartIsInit(c);
  }

  lemma AllDone(r: HealthRegistry.State, t: Thread, addr: string)
    requires t != 1 && r.pcs.Keys == {t, 1} && r.pcs[t] == Idle && r.pcs[1].GetDone?
    ensures NoSetUnderWay(r, addr)
  {
  }

  /** The comment that an address without an active health check reads healthy
      fails: whatever valid configuration with a check of `addr` is replaced by
      one without, the last verdict can be unhealthy, and is still read when
      the reload is over and no prober of `addr` is left. */
  lemma StaleVerdict(c: Config, c': Config, addr: string) returns (run: seq<System>)
    requires Validate(c) == None && Validate(c') == None && Asks(c, addr) && !Asks(c', addr)
    ensures IsSystemRun(run)
    ensures var s := run[|run| - 1];
            && s.reload.reloader == Reload.Idle && s.reload.targets.config == c'
            && NoProberOf(s.reload.pool, addr) && NoSetUnderWay(s.registry, addr)
            && 1 in s.registry.pcs && s.registry.pcs[1] == GetDone(addr, false)
  {
    hide Asks, IsPath, IsCall, Generations.IsPath, Validate, Reload.Init, Init, NoSetUnderWay, NoProberOf;
    hide ProberSpecs, LbMap, Reload.PluginsOf, Reload.Numbered, Generations.StartState;
    var start := Generations.StartState(c);
    var id := SomeProber(c, addr);
    var t := Task(id);
    var report := CallOfSet(t, addr);
    var down := report[|report| - 1];
    var p := WhileReloaderRests(report, t, start);
    var path := Generations.ReachesHead(c, c');
    var q := WhileRegistryRests(path, down);
    Concatenated(p, q);
    var get := CallOfLookup(down, addr);
    var l := WhileReloaderRests(get, 1, path[|path| - 1]);
    Concatenated(p + q[1..], l);
    run := p + q[1..] + l[1..];
    StartsSystem(c, t);
    StaleAtEnd(run, t, addr);
  }

  lemma StaleAtEnd(run: seq<System>, t: Thread, addr: string)
    requires IsSystemRun(run)
    requires run[|run| - 1].reload.reloader == Reload.Idle && !Asks(run[|run| - 1].reload.targets.config, addr)
    requires var r := run[|run| - 1].registry;
             t != 1 && r.pcs.Keys == {t, 1} && r.pcs[t] == Idle && r.pcs[1].GetDone?
    ensures NoProberOf(run[|run| - 1].reload.pool, addr) && NoSetUnderWay(run[|run| - 1].registry, addr)
  {
    assert |run| >= 1;
    hide IsSystemRun, Asks, NoSetUnderWay, NoProberOf;
    LoopHeadProbers(run, |run| - 1, addr);
    AllDone(run[|run| - 1].registry, t, addr);
  }
}
