/** Graceful shutdown of server.rs: listeners and connections hold clones of a
    tracker whose reference count the main task polls, and clones of a
    versioned shutdown flag. */
module Drain {

  type Id = nat

  /** Time in milliseconds. */
  const DRAIN_TIMEOUT: nat := 15_000
  const POLL_INTERVAL: nat := 50

  /** The tracker count the main task itself accounts for. */
  const BASELINE: nat := 1

  /** One strong reference to the tracker, by who holds it. */
  datatype Ref =
    | MainHandler
    | MainTracker
    | ListenerHandler(listener: Id)
    | ConnHandler(conn: Id)
    | ConnGuard(conn: Id)

  /** A listener task: the flag version in its handler and the one its own
      receiver has seen. */
  datatype Listener = Listening(handlerSeen: nat, acceptSeen: nat) | Stopped

  /** A connection task. While serving it watches a receiver cloned from its
      handler; once that has fired it only finishes what is in flight. */
  datatype Conn =
    | Handshaking(handlerSeen: nat)
    | Serving(handlerSeen: nat, connSeen: nat)
    | Draining
    | Finished

  datatype MainPc =
    | Starting
    | Notified
    | Tracking
    | Polling
    | Leaving(drained: bool)
    | Done(leftover: int)

  datatype State = State(
    main: MainPc,
    refs: set<Ref>,
    version: nat,
    mainSeen: nat,
    listeners: map<Id, Listener>,
    conns: map<Id, Conn>,
    now: nat,
    deadline: nat)

  // ------------------------------------------------------------------ steps

  ghost predicate Init(s: State) {
    && s.main == Starting && s.refs == {MainHandler}
    && s.version == 0 && s.mainSeen == 0
    && s.listeners == map[] && s.conns == map[]
  }

  /** Spawning a listener clones the handler, receiver version and all. */
  ghost predicate SpawnListener(s: State, s': State, l: Id) {
    && s.main == Starting && l !in s.listeners
    && s' == s.(listeners := s.listeners[l := Listening(s.mainSeen, s.mainSeen)],
                refs := s.refs + {ListenerHandler(l)})
  }

  /** Accepting clones the listener's handler into a new connection task. The
      listener may still choose this branch after the flag has changed. */
  ghost predicate Accept(s: State, s': State, l: Id, c: Id) {
    && l in s.listeners && s.listeners[l].Listening? && c !in s.conns
    && s' == s.(conns := s.conns[c := Handshaking(s.listeners[l].handlerSeen)],
                refs := s.refs + {ConnHandler(c)})
  }

  /** The listener sees the flag change, leaves its loop and drops its handler. */
  ghost predicate StopListener(s: State, s': State, l: Id) {
    && l in s.listeners && s.listeners[l].Listening? && s.listeners[l].acceptSeen != s.version
    && s' == s.(listeners := s.listeners[l := Stopped], refs := s.refs - {ListenerHandler(l)})
  }

  ghost predicate StartServing(s: State, s': State, c: Id) {
    && c in s.conns && s.conns[c].Handshaking?
    && s' == s.(conns := s.conns[c := Serving(s.conns[c].handlerSeen, s.conns[c].handlerSeen)],
                refs := s.refs + {ConnGuard(c)})
  }

  ghost predicate SeeShutdown(s: State, s': State, c: Id) {
    && c in s.conns && s.conns[c].Serving? && s.conns[c].connSeen != s.version
    && s' == s.(conns := s.conns[c := Draining])
  }

  /** A failed handshake, or the end of a connection before or after it has
      seen the shutdown: its task drops everything it holds. */
  ghost predicate EndConn(s: State, s': State, c: Id) {
    && c in s.conns && !s.conns[c].Finished?
    && s' == s.(conns := s.conns[c := Finished], refs := s.refs - {ConnHandler(c), ConnGuard(c)})
  }

  ghost predicate Notify(s: State, s': State) {
    s.main == Starting && s' == s.(main := Notified, version := s.version + 1)
  }

  ghost predicate Track(s: State, s': State) {
    s.main == Notified && s' == s.(main := Tracking, refs := s.refs + {MainTracker})
  }

  ghost predicate DropHandler(s: State, s': State) {
    && s.main == Tracking
    && s' == s.(main := Polling, refs := s.refs - {MainHandler}, deadline := s.now + DRAIN_TIMEOUT)
  }

  /** One evaluation of the loop condition that ends the wait. */
  ghost predicate StopPolling(s: State, s': State) {
    && s.main == Polling
    && (|s.refs| <= BASELINE || s.now >= s.deadline)
    && s' == s.(main := Leaving(|s.refs| <= BASELINE))
  }

  ghost predicate Report(s: State, s': State) {
    s.main.Leaving? && s' == s.(main := Done(|s.refs| - BASELINE))
  }

  ghost predicate Tick(s: State, s': State) {
    s' == s.(now := s.now + 1)
  }

  ghost predicate ListenerStep(s: State, s': State) {
    || (exists l :: SpawnListener(s, s', l) || StopListener(s, s', l))
    || (exists l, c :: Accept(s, s', l, c))
  }

  ghost predicate ConnStep(s: State, s': State) {
    exists c :: StartServing(s, s', c) || SeeShutdown(s, s', c) || EndConn(s, s', c)
  }

  ghost predicate MainStep(s: State, s': State) {
    || Notify(s, s') || Track(s, s') || DropHandler(s, s')
    || StopPolling(s, s') || Report(s, s') || Tick(s, s')
  }

  ghost predicate Next(s: State, s': State) {
    ListenerStep(s, s') || ConnStep(s, s') || MainStep(s, s')
  }

  ghost predicate IsRun(run: seq<State>) {
    && run != [] && Init(run[0])
    && forall i :: 0 <= i < |run| - 1 ==> Next(run[i], run[i + 1])
  }

  // -------------------------------------------------------------- invariant

  predicate ListenerAlive(s: State, l: Id) {
    l in s.listeners && s.listeners[l].Listening?
  }

  predicate ConnAlive(s: State, c: Id) {
    c in s.conns && !s.conns[c].Finished?
  }

  predicate ConnGuarded(s: State, c: Id) {
    c in s.conns && (s.conns[c].Serving? || s.conns[c].Draining?)
  }

  predicate Holds(s: State, r: Ref) {
    match r
    case MainHandler => s.main.Starting? || s.main.Notified? || s.main.Tracking?
    case MainTracker => !s.main.Starting? && !s.main.Notified?
    case ListenerHandler(l) => ListenerAlive(s, l)
    case ConnHandler(c) => ConnAlive(s, c)
    case ConnGuard(c) => ConnGuarded(s, c)
  }

  /** The tracker's references are those of the live tasks. */
  ghost predicate RefsInv(s: State) {
    forall r :: r in s.refs <==> Holds(s, r)
  }

  /** No receiver that is cloned from has ever been advanced, so every clone
      still has the change of the flag ahead of it. */
  ghost predicate VersionInv(s: State) {
    && s.mainSeen == 0
    && s.version == (if s.main.Starting? then 0 else 1)
    && (forall l :: ListenerAlive(s, l) ==> s.listeners[l].handlerSeen == 0 && s.listeners[l].acceptSeen == 0)
    && (forall c :: c in s.conns && s.conns[c].Handshaking? ==> s.conns[c].handlerSeen == 0)
    && (forall c :: c in s.conns && s.conns[c].Serving? ==> s.conns[c].connSeen == 0)
  }

  ghost predicate NothingAlive(s: State) {
    && (forall l :: !ListenerAlive(s, l))
    && forall c :: !ConnAlive(s, c)
  }

  ghost predicate ExitInv(s: State) {
    && (s.main == Leaving(true) ==> NothingAlive(s))
    && (s.main == Leaving(false) ==> s.now >= s.deadline)
    && (s.main.Done? && s.main.leftover <= 0 ==> NothingAlive(s))
    && (s.main.Done? && s.main.leftover > 0 ==> s.now >= s.deadline)
  }

  ghost predicate Inv(s: State) {
    RefsInv(s) && VersionInv(s) && ExitInv(s)
  }

  lemma SpawnKeepsRefs(s: State, s': State, l: Id)
    requires RefsInv(s) && SpawnListener(s, s', l)
    ensures RefsInv(s')
  {
  }

  lemma StopKeepsRefs(s: State, s': State, l: Id)
    requires RefsInv(s) && StopListener(s, s', l)
    ensures RefsInv(s')
  {
  }

  lemma AcceptKeepsRefs(s: State, s': State, l: Id, c: Id)
    requires RefsInv(s) && Accept(s, s', l, c)
    ensures RefsInv(s')
  {
  }

  lemma ConnStepKeepsRefs(s: State, s': State, c: Id)
    requires RefsInv(s) && (StartServing(s, s', c) || SeeShutdown(s, s', c) || EndConn(s, s', c))
    ensures RefsInv(s')
  {
  }

  lemma OthersUnmoved(s: State, s': State, r: Ref)
    requires s'.listeners == s.listeners && s'.conns == s.conns
    requires !r.MainHandler? && !r.MainTracker?
    ensures Holds(s', r) == Holds(s, r)
  {
  }

  lemma MainStepMovesMainOnly(s: State, s': State)
    requires MainStep(s, s')
    ensures s'.listeners == s.listeners && s'.conns == s.conns
    ensures s'.refs - {MainHandler, MainTracker} == s.refs - {MainHandler, MainTracker}
  {
  }

  lemma MainStepOwnRefs(s: State, s': State, r: Ref)
    requires RefsInv(s) && MainStep(s, s') && (r.MainHandler? || r.MainTracker?)
    ensures r in s'.refs <==> Holds(s', r)
  {
    assert r in s.refs <==> Holds(s, r);
  }

  lemma MainStepKeepsRefs(s: State, s': State)
    requires RefsInv(s) && MainStep(s, s')
    ensures RefsInv(s')
  {
    hide MainStep, Holds;
    MainStepMovesMainOnly(s, s');
    forall r
      ensures r in s'.refs <==> Holds(s', r)
    {
      if r.MainHandler? || r.MainTracker? {
        MainStepOwnRefs(s, s', r);
      } else {
        assert r in s.refs <==> Holds(s, r);
        OthersUnmoved(s, s', r);
        assert r in s.refs - {MainHandler, MainTracker} <==> r in s'.refs - {MainHandler, MainTracker};
      }
    }
  }

  lemma StepKeepsRefs(s: State, s': State)
    requires RefsInv(s) && Next(s, s')
    ensures RefsInv(s')
  {
    hide RefsInv, SpawnListener, StopListener, Accept, StartServing, SeeShutdown, EndConn, MainStep;
    if MainStep(s, s') {
      MainStepKeepsRefs(s, s');
    } else if c :| StartServing(s, s', c) || SeeShutdown(s, s', c) || EndConn(s, s', c) {
      ConnStepKeepsRefs(s, s', c);
    } else if l, c :| Accept(s, s', l, c) {
      AcceptKeepsRefs(s, s', l, c);
    } else {
      var l :| SpawnListener(s, s', l) || StopListener(s, s', l);
      if SpawnListener(s, s', l) {
        SpawnKeepsRefs(s, s', l);
      } else {
        StopKeepsRefs(s, s', l);
      }
    }
  }

  lemma ListenerStepKeepsVersions(s: State, s': State)
    requires VersionInv(s) && ListenerStep(s, s')
    ensures VersionInv(s')
  {
  }

  lemma StepKeepsVersions(s: State, s': State)
    requires VersionInv(s) && Next(s, s')
    ensures VersionInv(s')
  {
    hide ListenerStep;
    if ListenerStep(s, s') {
      ListenerStepKeepsVersions(s, s');
    }
  }

  /** Whenever a listener or a connection, handshaking or serving, is alive
      after the main task made its own reference, the count exceeds the
      baseline. */
  lemma CountWitnessesLife(s: State)
    requires RefsInv(s) && !s.main.Starting? && !s.main.Notified?
    ensures |s.refs| >= BASELINE
    ensures |s.refs| <= BASELINE ==> NothingAlive(s)
  {
    assert MainTracker in s.refs <==> Holds(s, MainTracker);
    var others := s.refs - {MainTracker};
    assert s.refs == others + {MainTracker};
    if |s.refs| <= BASELINE {
      assert others == {};
      forall l
        ensures !ListenerAlive(s, l)
      {
        assert ListenerHandler(l) in s.refs <==> Holds(s, ListenerHandler(l));
        assert ListenerHandler(l) !in others;
      }
      forall c
        ensures !ConnAlive(s, c)
      {
        assert ConnHandler(c) in s.refs <==> Holds(s, ConnHandler(c));
        assert ConnHandler(c) !in others;
      }
    }
  }

  /** With nothing alive only the main task's own reference is left. */
  lemma NothingAliveMeansBaseline(s: State)
    requires RefsInv(s) && NothingAlive(s) && (s.main.Polling? || s.main.Leaving?)
    ensures |s.refs| == BASELINE
  {
    forall r
      ensures r in s.refs <==> r in {MainTracker}
    {
      assert r in s.refs <==> Holds(s, r);
      match r
      case ListenerHandler(l) => assert !ListenerAlive(s, l);
      case ConnHandler(c) => assert !ConnAlive(s, c);
      case ConnGuard(c) => assert !ConnAlive(s, c);
      case _ =>
    }
    assert s.refs == {MainTracker};
  }

  /** After the start-up, only live tasks let tasks take steps. */
  lemma TaskStepsNeedLife(s: State, s': State)
    requires !s.main.Starting? && (ListenerStep(s, s') || ConnStep(s, s'))
    ensures !NothingAlive(s)
  {
    if c :| StartServing(s, s', c) || SeeShutdown(s, s', c) || EndConn(s, s', c) {
      assert ConnAlive(s, c);
    } else if l, c :| Accept(s, s', l, c) {
      assert ListenerAlive(s, l);
    } else {
      var l :| StopListener(s, s', l);
      assert ListenerAlive(s, l);
    }
  }

  lemma MainStepKeepsExit(s: State, s': State)
    requires RefsInv(s) && ExitInv(s) && MainStep(s, s')
    ensures ExitInv(s')
  {
    hide RefsInv, ListenerAlive, ConnAlive;
    if s.main.Polling? || s.main.Leaving? {
      CountWitnessesLife(s);
      if NothingAlive(s) {
        NothingAliveMeansBaseline(s);
      }
    }
    assert NothingAlive(s) && s'.listeners == s.listeners && s'.conns == s.conns ==> NothingAlive(s') by {
      SameTasks(s, s');
    }
  }

  lemma SameTasks(s: State, s': State)
    ensures s'.listeners == s.listeners && s'.conns == s.conns && NothingAlive(s) ==> NothingAlive(s')
  {
    if s'.listeners == s.listeners && s'.conns == s.conns && NothingAlive(s) {
      forall l
        ensures !ListenerAlive(s', l)
      {
        assert !ListenerAlive(s, l);
      }
      forall c
        ensures !ConnAlive(s', c)
      {
        assert !ConnAlive(s, c);
      }
    }
  }

  lemma StepKeepsExit(s: State, s': State)
    requires RefsInv(s) && ExitInv(s) && Next(s, s')
    ensures ExitInv(s')
  {
    hide RefsInv, MainStep;
    if MainStep(s, s') {
      MainStepKeepsExit(s, s');
    } else if !s.main.Starting? {
      TaskStepsNeedLife(s, s');
    }
  }

  lemma {:induction false} RunKeepsInv(run: seq<State>, i: nat)
    requires IsRun(run) && i < |run|
    ensures Inv(run[i])
  {
    if i > 0 {
      hide RefsInv, VersionInv, ExitInv, Next;
      RunKeepsInv(run, i - 1);
      assert Next(run[i - 1], run[i - 1 + 1]);
      StepKeepsRefs(run[i - 1], run[i]);
      StepKeepsVersions(run[i - 1], run[i]);
      StepKeepsExit(run[i - 1], run[i]);
    }
  }

  // ---------------------------------------------------------------- results

  /** Drain safety, in every reachable state: leaving the wait before the
      deadline, or reporting nothing left over, means that all listeners and
      connections have finished; a positive report comes after the deadline. */
  lemma DrainSafety(run: seq<State>, i: nat)
    requires IsRun(run) && i < |run|
    ensures var s := run[i];
            && (s.main == Leaving(true) ==> NothingAlive(s))
            && (s.main.Leaving? && s.now < s.deadline ==> NothingAlive(s))
            && (s.main.Done? && s.now < s.deadline ==> s.main.leftover <= 0)
            && (s.main.Done? && s.main.leftover <= 0 ==> NothingAlive(s))
            && (s.main.Polling? && !NothingAlive(s) ==> |s.refs| > BASELINE)
  {
    RunKeepsInv(run, i);
    if run[i].main.Polling? {
      CountWitnessesLife(run[i]);
    }
  }

  /** The wait lasts at most fifteen seconds from when it begins in state `j`, or
      less if nothing is alive sooner. */
  lemma WaitingTime(run: seq<State>, j: nat, i: nat)
    requires IsRun(run) && j < i < |run| && DropHandler(run[j], run[j + 1])
    ensures run[i].deadline == run[j].now + 15_000 && run[j].now <= run[i].now
    ensures run[i].main == Leaving(false) ==> run[i].now >= run[j].now + 15_000
    ensures run[i].main.Leaving? && run[i].now < run[j].now + 15_000 ==> NothingAlive(run[i])
  {
    hide Next, RefsInv, VersionInv, NothingAlive;
    DeadlineKept(run, j, i);
    RunKeepsInv(run, i);
  }

  lemma {:induction false} DeadlineKept(run: seq<State>, j: nat, i: nat)
    requires IsRun(run) && j < i < |run| && DropHandler(run[j], run[j + 1])
    ensures run[i].deadline == run[j].now + 15_000 && run[j].now <= run[i].now
    ensures run[i].main.Polling? || run[i].main.Leaving? || run[i].main.Done?
  {
    hide Next, Init, DropHandler;
    if j + 1 < i {
      DeadlineKept(run, j, i - 1);
      assert Next(run[i - 1], run[i - 1 + 1]);
      StepKeepsDeadline(run[i - 1], run[i]);
    } else {
      WaitBegins(run[j], run[j + 1]);
    }
  }

  lemma WaitBegins(s: State, s': State)
    requires DropHandler(s, s')
    ensures s'.deadline == s.now + 15_000 && s'.now == s.now && s'.main.Polling?
  {
  }

  lemma StepKeepsDeadline(s: State, s': State)
    requires Next(s, s') && (s.main.Polling? || s.main.Leaving? || s.main.Done?)
    ensures s'.deadline == s.deadline && s.now <= s'.now
    ensures s'.main.Polling? || s'.main.Leaving? || s'.main.Done?
  {
  }

  /** Once the flag has been sent, every listener can stop and every serving
      connection can see it, those accepted afterwards included. */
  lemma ShutdownIsSeen(run: seq<State>, i: nat)
    requires IsRun(run) && i < |run| && run[i].main != Starting
    ensures forall l :: ListenerAlive(run[i], l) ==> exists s' :: StopListener(run[i], s', l)
    ensures forall c :: c in run[i].conns && run[i].conns[c].Serving? ==> exists s' :: SeeShutdown(run[i], s', c)
  {
    RunKeepsInv(run, i);
    var s := run[i];
    forall l | ListenerAlive(s, l)
      ensures exists s' :: StopListener(s, s', l)
    {
      assert StopListener(s, s.(listeners := s.listeners[l := Stopped], refs := s.refs - {ListenerHandler(l)}), l);
    }
    forall c | c in s.conns && s.conns[c].Serving?
      ensures exists s' :: SeeShutdown(s, s', c)
    {
      assert SeeShutdown(s, s.(conns := s.conns[c := Draining]), c);
    }
  }

  function LiveListeners(s: State): set<Id> {
    set l | l in s.listeners && ListenerAlive(s, l)
  }

  function LiveConns(s: State): set<Id> {
    set c | c in s.conns && ConnAlive(s, c)
  }

  function GuardedConns(s: State): set<Id> {
    set c | c in s.conns && ConnGuarded(s, c)
  }

  function Tagged(ids: set<Id>, tag: Id -> Ref): set<Ref> {
    set a | a in ids :: tag(a)
  }

  lemma TaggedSplits(ids: set<Id>, tag: Id -> Ref, x: Id)
    requires forall a, b :: a in ids && b in ids && a != b ==> tag(a) != tag(b)
    requires x in ids
    ensures Tagged(ids, tag) == Tagged(ids - {x}, tag) + {tag(x)} && tag(x) !in Tagged(ids - {x}, tag)
  {
    forall r
      ensures r in Tagged(ids, tag) <==> r in Tagged(ids - {x}, tag) + {tag(x)}
    {
    }
  }

  lemma {:induction false} TaggedSize(ids: set<Id>, tag: Id -> Ref)
    requires forall a, b :: a in ids && b in ids && a != b ==> tag(a) != tag(b)
    ensures |Tagged(ids, tag)| == |ids|
  {
    if ids == {} {
      assert Tagged(ids, tag) == {};
    } else {
      hide Tagged;
      var x :| x in ids;
      TaggedSize(ids - {x}, tag);
      TaggedSplits(ids, tag, x);
    }
  }

  lemma ListenerRefs(s: State) returns (refs: set<Ref>)
    ensures forall r :: r in refs <==> r.ListenerHandler? && Holds(s, r)
    ensures |refs| == |LiveListeners(s)|
  {
    var tag := (l: Id) => ListenerHandler(l);
    refs := Tagged(LiveListeners(s), tag);
    TaggedSize(LiveListeners(s), tag);
    forall r
      ensures r in refs <==> r.ListenerHandler? && Holds(s, r)
    {
      if r.ListenerHandler? && Holds(s, r) {
        assert r == tag(r.listener);
      }
    }
  }

  lemma HandlerRefs(s: State) returns (refs: set<Ref>)
    ensures forall r :: r in refs <==> r.ConnHandler? && Holds(s, r)
    ensures |refs| == |LiveConns(s)|
  {
    var tag := (c: Id) => ConnHandler(c);
    refs := Tagged(LiveConns(s), tag);
    TaggedSize(LiveConns(s), tag);
    forall r
      ensures r in refs <==> r.ConnHandler? && Holds(s, r)
    {
      if r.ConnHandler? && Holds(s, r) {
        assert r == tag(r.conn);
      }
    }
  }

  lemma GuardRefs(s: State) returns (refs: set<Ref>)
    ensures forall r :: r in refs <==> r.ConnGuard? && Holds(s, r)
    ensures |refs| == |GuardedConns(s)|
  {
    var tag := (c: Id) => ConnGuard(c);
    refs := Tagged(GuardedConns(s), tag);
    TaggedSize(GuardedConns(s), tag);
    forall r
      ensures r in refs <==> r.ConnGuard? && Holds(s, r)
    {
      if r.ConnGuard? && Holds(s, r) {
        assert r == tag(r.conn);
      }
    }
  }

  /** What the count above the baseline counts: one for each listener, one for
      each connection in its handshake and two for each one serving. It is not
      the number of open connections. */
  lemma LeftoverCountsReferences(run: seq<State>, i: nat)
    requires IsRun(run) && i < |run| && (run[i].main.Polling? || run[i].main.Leaving?)
    ensures |run[i].refs| - BASELINE ==
            |LiveListeners(run[i])| + |LiveConns(run[i])| + |GuardedConns(run[i])|
    ensures GuardedConns(run[i]) <= LiveConns(run[i])
  {
    RunKeepsInv(run, i);
    RefsByTask(run[i]);
  }

  /** Exactly when that number is the number of open connections: no listener is
      alive and no connection is past its handshake. */
  lemma LeftoverIsConnectionsExactly(run: seq<State>, i: nat)
    requires IsRun(run) && i < |run| && (run[i].main.Polling? || run[i].main.Leaving?)
    ensures |run[i].refs| - BASELINE == |LiveConns(run[i])| <==>
            LiveListeners(run[i]) == {} && GuardedConns(run[i]) == {}
  {
    hide LiveListeners, LiveConns, GuardedConns, IsRun;
    LeftoverCountsReferences(run, i);
  }

  /** A single connection past its handshake, and no listener, counts twice. */
  lemma OneConnectionCountsTwice() returns (run: seq<State>)
    ensures IsRun(run)
    ensures var s := run[|run| - 1];
            && s.main == Polling && s.conns == map[0 := Serving(0, 0)] && s.listeners == map[0 := Stopped]
            && |s.refs| - BASELINE == 2
  {
    var start := State(Starting, {MainHandler}, 0, 0, map[], map[], 0, 0);
    var spawned := start.(listeners := map[0 := Listening(0, 0)], refs := {MainHandler, ListenerHandler(0)});
    var accepted := spawned.(conns := map[0 := Handshaking(0)], refs := spawned.refs + {ConnHandler(0)});
    var serving := accepted.(conns := map[0 := Serving(0, 0)], refs := accepted.refs + {ConnGuard(0)});
    assert SpawnListener(start, spawned, 0);
    assert Accept(spawned, accepted, 0, 0);
    assert StartServing(accepted, serving, 0);
    var shut := ShutDown(serving);
    hide SpawnListener, Accept, StartServing;
    assert ListenerStep(start, spawned) && ListenerStep(spawned, accepted) && ConnStep(accepted, serving);
    hide ListenerStep, ConnStep, MainStep;
    assert Next(start, spawned) && Next(spawned, accepted) && Next(accepted, serving);
    hide Next;
    run := [start, spawned, accepted, serving] + shut[1..];
    forall i | 0 <= i < |run| - 1
      ensures Next(run[i], run[i + 1])
    {
      if i >= 3 {
        assert run[i] == shut[i - 3] && run[i + 1] == shut[i - 3 + 1];
      }
    }
  }

  /** From the signal to the wait, the only listener stopping. */
  lemma ShutDown(s: State) returns (path: seq<State>)
    requires s.main == Starting && s.version == 0 && s.listeners == map[0 := Listening(0, 0)]
    requires s.refs == {MainHandler, ListenerHandler(0), ConnHandler(0), ConnGuard(0)}
    ensures |path| == 5 && path[0] == s && forall i :: 0 <= i < 4 ==> Next(path[i], path[i + 1])
    ensures var last := path[4];
            && last.main == Polling && last.conns == s.conns && last.listeners == map[0 := Stopped]
            && |last.refs| - BASELINE == 2
  {
    var notified := s.(main := Notified, version := 1);
    var stopped := notified.(listeners := map[0 := Stopped], refs := s.refs - {ListenerHandler(0)});
    var tracking := stopped.(main := Tracking, refs := stopped.refs + {MainTracker});
    var polling := tracking.(main := Polling, refs := tracking.refs - {MainHandler}, deadline := s.now + DRAIN_TIMEOUT);
    assert Notify(s, notified) && Track(stopped, tracking) && DropHandler(tracking, polling);
    assert StopListener(notified, stopped, 0);
    assert polling.refs == {MainTracker, ConnHandler(0), ConnGuard(0)};
    assert MainStep(s, notified) && ListenerStep(notified, stopped) && MainStep(stopped, tracking);
    assert MainStep(tracking, polling);
    hide MainStep, ListenerStep, ConnStep;
    path := [s, notified, stopped, tracking, polling];
  }

  lemma RefsByTask(s: State)
    requires RefsInv(s) && (s.main.Polling? || s.main.Leaving?)
    ensures |s.refs| == 1 + |LiveListeners(s)| + |LiveConns(s)| + |GuardedConns(s)|
    ensures GuardedConns(s) <= LiveConns(s)
  {
    var a := ListenerRefs(s);
    var b := HandlerRefs(s);
    var d := GuardRefs(s);
    RefsCovered(s, a, b, d);
    DisjointSizes({MainTracker}, a, b, d);
  }

  lemma RefsCovered(s: State, a: set<Ref>, b: set<Ref>, d: set<Ref>)
    requires RefsInv(s) && (s.main.Polling? || s.main.Leaving?)
    requires forall r :: r in a <==> r.ListenerHandler? && Holds(s, r)
    requires forall r :: r in b <==> r.ConnHandler? && Holds(s, r)
    requires forall r :: r in d <==> r.ConnGuard? && Holds(s, r)
    ensures s.refs == {MainTracker} + a + b + d
    ensures {MainTracker} !! a !! b !! d
  {
    assert Holds(s, MainTracker) && !Holds(s, MainHandler);
    hide Holds;
    forall r
      ensures r in s.refs <==> r in {MainTracker} + a + b + d
    {
      assert r in s.refs <==> Holds(s, r);
    }
  }

  lemma DisjointSizes(m: set<Ref>, a: set<Ref>, b: set<Ref>, d: set<Ref>)
    requires m !! a !! b !! d
    ensures |m + a + b + d| == |m| + |a| + |b| + |d|
  {
  }

  // -------------------------------------------------------------- wait loop

  /** The polling loop itself. `count` and `clock` give the tracker count and
      the time met by each evaluation of the loop condition; a sleep takes at
      least the polling interval. It ends after at most 300 sleeps. */
  method WaitForDrain(count: nat -> nat, clock: nat -> nat) returns (polls: nat, leftover: int)
    requires forall i: nat :: clock(i + 1) >= clock(i) + 50
    ensures polls <= 300
    ensures count(polls) <= 1 || clock(polls) >= clock(0) + 15_000
    ensures forall i: nat :: i < polls ==> count(i) > 1 && clock(i) < clock(0) + 15_000
    ensures leftover == count(polls + 1) - 1
  {
    var deadline := clock(0) + DRAIN_TIMEOUT;
    polls := 0;
    while count(polls) > BASELINE && clock(polls) < deadline
      invariant clock(polls) >= clock(0) + POLL_INTERVAL * polls
      invariant polls <= DRAIN_TIMEOUT / POLL_INTERVAL
      invariant forall i: nat :: i < polls ==> count(i) > BASELINE && clock(i) < deadline
      decreases DRAIN_TIMEOUT / POLL_INTERVAL - polls
    {
      assert clock(polls + 1) >= clock(polls) + POLL_INTERVAL;
      polls := polls + 1;
    }
    leftover := count(polls + 1) - BASELINE;
  }
}
