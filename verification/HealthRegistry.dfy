/** The shared health registry of health.rs under any interleaving of the lock
    steps and atomic steps of its callers. */
module HealthRegistry {
  import opened Wrappers

  type Thread = nat

  /** Identity of one shared atomic flag. */
  type Flag = nat

  /** Where a thread is inside `set` or `is_healthy`. */
  datatype Pc =
    | Idle
    // set: the first lookup, under the read lock
    | SetBegun(addr: string, healthy: bool)
    | SetReading(addr: string, healthy: bool)
    | SetLookedUp(addr: string, healthy: bool, found: Option<Flag>)
    // set: insertion, under the write lock
    | SetMissed(addr: string, healthy: bool)
    | SetWriting(addr: string, healthy: bool)
    | SetVacant(addr: string, healthy: bool)
    | SetEntered(addr: string, healthy: bool, flag: Flag)
    // set: about to swap, without any lock
    | SetSwapping(addr: string, healthy: bool, flag: Flag)
    // is_healthy, under the read lock
    | GetBegun(addr: string)
    | GetReading(addr: string)
    | GetFound(addr: string, flag: Flag)
    | GetDone(addr: string, result: bool)

  datatype Transition = Transition(addr: string, healthy: bool)

  datatype State = State(
    readers: set<Thread>,
    writer: Option<Thread>,
    registry: map<string, Flag>,
    flags: map<Flag, bool>,
    pcs: map<Thread, Pc>,
    log: seq<Transition>)

  /** The verdict in force: an address without a flag reads healthy. */
  function Verdict(s: State, addr: string): bool {
    if addr in s.registry && s.registry[addr] in s.flags then s.flags[s.registry[addr]] else true
  }

  // ------------------------------------------------------------------ steps

  ghost predicate Init(s: State) {
    && s.readers == {} && s.writer == None
    && s.registry == map[] && s.flags == map[] && s.log == []
    && forall t :: t in s.pcs ==> s.pcs[t] == Idle
  }

  function Goto(s: State, t: Thread, pc: Pc): State {
    s.(pcs := s.pcs[t := pc])
  }

  ghost predicate LockRead(s: State, s': State, t: Thread, pc: Pc) {
    s.writer == None && s' == Goto(s, t, pc).(readers := s.readers + {t})
  }

  function UnlockRead(s: State, t: Thread, pc: Pc): State {
    Goto(s, t, pc).(readers := s.readers - {t})
  }

  ghost predicate LockWrite(s: State, s': State, t: Thread, pc: Pc) {
    && s.writer == None && s.readers == {}
    && s' == Goto(s, t, pc).(writer := Some(t))
  }

  /** A vacant entry gets a new flag, initially healthy. */
  ghost predicate Insert(s: State, s': State, t: Thread, addr: string, healthy: bool, f: Flag) {
    && f !in s.flags
    && s' == Goto(s, t, SetEntered(addr, healthy, f)).(registry := s.registry[addr := f], flags := s.flags[f := true])
  }

  /** The atomic swap; a change of the flag is reported. */
  ghost predicate Swap(s: State, s': State, t: Thread, addr: string, healthy: bool, f: Flag) {
    && f in s.flags
    && s' == Goto(s, t, Idle).(
               flags := s.flags[f := healthy],
               log := if s.flags[f] != healthy then s.log + [Transition(addr, healthy)] else s.log)
  }

  /** A call begins. */
  ghost predicate BeginStep(s: State, s': State, t: Thread)
    requires t in s.pcs
  {
    && s.pcs[t].Idle?
    && ((exists addr, healthy :: s' == Goto(s, t, SetBegun(addr, healthy))) ||
        (exists addr :: s' == Goto(s, t, GetBegun(addr))))
  }

  /** `set`: look up, insert if missing after looking again, swap. */
  ghost predicate SetStep(s: State, s': State, t: Thread)
    requires t in s.pcs
  {
    match s.pcs[t]
    case SetBegun(a, h) => LockRead(s, s', t, SetReading(a, h))
    case SetReading(a, h) =>
      s' == Goto(s, t, SetLookedUp(a, h, if a in s.registry then Some(s.registry[a]) else None))
    case SetLookedUp(a, h, found) =>
      s' == UnlockRead(s, t, if found.Some? then SetSwapping(a, h, found.value) else SetMissed(a, h))
    case SetMissed(a, h) => LockWrite(s, s', t, SetWriting(a, h))
    case SetWriting(a, h) =>
      s' == Goto(s, t, if a in s.registry then SetEntered(a, h, s.registry[a]) else SetVacant(a, h))
    case SetVacant(a, h) => exists f :: Insert(s, s', t, a, h, f)
    case SetEntered(a, h, f) => s' == Goto(s, t, SetSwapping(a, h, f)).(writer := None)
    case SetSwapping(a, h, f) => Swap(s, s', t, a, h, f)
    case _ => false
  }

  /** `is_healthy`: look up and load under the read lock. */
  ghost predicate GetStep(s: State, s': State, t: Thread)
    requires t in s.pcs
  {
    match s.pcs[t]
    case GetBegun(a) => LockRead(s, s', t, GetReading(a))
    case GetReading(a) =>
      s' == Goto(s, t, if a in s.registry then GetFound(a, s.registry[a]) else GetDone(a, true))
    case GetFound(a, f) => f in s.flags && s' == Goto(s, t, GetDone(a, s.flags[f]))
    case GetDone(_, _) => s' == UnlockRead(s, t, Idle)
    case _ => false
  }

  /** A call is dropped while it waits for a lock: its prober is stopped, or
      its request's client is gone. */
  ghost predicate DropStep(s: State, s': State, t: Thread)
    requires t in s.pcs
  {
    && (s.pcs[t].SetBegun? || s.pcs[t].SetMissed? || s.pcs[t].GetBegun?)
    && s' == Goto(s, t, Idle)
  }

  ghost predicate Step(s: State, s': State, t: Thread) {
    t in s.pcs && (BeginStep(s, s', t) || SetStep(s, s', t) || GetStep(s, s', t) || DropStep(s, s', t))
  }

  /** One caller moves, or something outside the registry does. */
  ghost predicate Next(s: State, s': State) {
    || s' == s
    || exists t :: Step(s, s', t)
  }

  ghost predicate IsRun(run: seq<State>) {
    && run != [] && Init(run[0])
    && forall i :: 0 <= i < |run| - 1 ==> Next(run[i], run[i + 1])
  }

  // -------------------------------------------------------------- invariant

  predicate HoldsRead(pc: Pc) {
    pc.SetReading? || pc.SetLookedUp? || pc.GetReading? || pc.GetFound? || pc.GetDone?
  }

  predicate HoldsWrite(pc: Pc) {
    pc.SetWriting? || pc.SetVacant? || pc.SetEntered?
  }

  /** Readers and a writer never overlap, and hold the lock exactly while they
      are in their critical sections. */
  ghost predicate LockInv(s: State) {
    && (forall t :: t in s.readers <==> t in s.pcs && HoldsRead(s.pcs[t]))
    && (forall t :: s.writer == Some(t) <==> t in s.pcs && HoldsWrite(s.pcs[t]))
    && (s.writer.Some? ==> s.readers == {})
  }

  /** The flag a thread carries is the one the registry holds for its address. */
  predicate FlagCurrent(registry: map<string, Flag>, pc: Pc) {
    match pc
    case SetLookedUp(a, _, Some(f)) => a in registry && registry[a] == f
    case SetVacant(a, _) => a !in registry
    case SetEntered(a, _, f) => a in registry && registry[a] == f
    case SetSwapping(a, _, f) => a in registry && registry[a] == f
    case GetFound(a, f) => a in registry && registry[a] == f
    case _ => true
  }

  /** One flag per address, none shared. */
  ghost predicate FlagInv(s: State) {
    && (forall a :: a in s.registry ==> s.registry[a] in s.flags)
    && (forall a, b :: a in s.registry && b in s.registry && a != b ==> s.registry[a] != s.registry[b])
    && (forall t :: t in s.pcs ==> FlagCurrent(s.registry, s.pcs[t]))
  }

  /** The transitions reported for one address, in swap order. */
  function History(log: seq<Transition>, addr: string): seq<bool> {
    if log == [] then []
    else
      var last := log[|log| - 1];
      History(log[..|log| - 1], addr) + if last.addr == addr then [last.healthy] else []
  }

  /** Reports alternate, beginning with unhealthy, and the last one reported is
      the verdict in force. */
  ghost predicate Alternates(s: State, addr: string) {
    && (forall k :: 0 <= k < |History(s.log, addr)| ==> History(s.log, addr)[k] == (k % 2 == 1))
    && Verdict(s, addr) == (|History(s.log, addr)| % 2 == 0)
  }

  ghost predicate Inv(s: State) {
    LockInv(s) && FlagInv(s) && forall addr :: Alternates(s, addr)
  }

  /** How one step treats the lock: not at all, or one acquisition or release
      that matches the thread's way into or out of its critical section. */
  ghost predicate LockEffect(s: State, s': State, t: Thread, pc: Pc, pc': Pc) {
    || (s'.readers == s.readers && s'.writer == s.writer &&
        HoldsRead(pc) == HoldsRead(pc') && HoldsWrite(pc) == HoldsWrite(pc'))
    || (s.writer == None && s'.readers == s.readers + {t} && s'.writer == s.writer &&
        !HoldsRead(pc) && HoldsRead(pc') && !HoldsWrite(pc) && !HoldsWrite(pc'))
    || (s'.readers == s.readers - {t} && s'.writer == s.writer &&
        HoldsRead(pc) && !HoldsRead(pc') && !HoldsWrite(pc) && !HoldsWrite(pc'))
    || (s.writer == None && s.readers == {} && s'.readers == {} && s'.writer == Some(t) &&
        !HoldsRead(pc) && !HoldsRead(pc') && !HoldsWrite(pc) && HoldsWrite(pc'))
    || (s'.readers == s.readers && s'.writer == None &&
        !HoldsRead(pc) && !HoldsRead(pc') && HoldsWrite(pc) && !HoldsWrite(pc'))
  }

  lemma StepMovesOneThread(s: State, s': State, t: Thread)
    requires Step(s, s', t)
    ensures t in s.pcs && t in s'.pcs && s'.pcs == s.pcs[t := s'.pcs[t]]
  {
  }

  lemma SetLockEffect(s: State, s': State, t: Thread)
    requires t in s.pcs && SetStep(s, s', t) && t in s'.pcs
    ensures LockEffect(s, s', t, s.pcs[t], s'.pcs[t])
  {
  }

  lemma StepLockEffect(s: State, s': State, t: Thread)
    requires Step(s, s', t)
    ensures t in s.pcs && t in s'.pcs && LockEffect(s, s', t, s.pcs[t], s'.pcs[t])
  {
    hide SetStep;
    StepMovesOneThread(s, s', t);
    if SetStep(s, s', t) {
      SetLockEffect(s, s', t);
    }
  }

  /** Outside insertion and swap only a thread's own position and the lock
      change, and a lookup finishes with the flag's value or the default. */
  ghost predicate Quiet(s: State, s': State, t: Thread) {
    && t in s'.pcs
    && s'.registry == s.registry && s'.flags == s.flags && s'.log == s.log
    && FlagCurrent(s.registry, s'.pcs[t])
    && (s'.pcs[t].GetDone? ==> s'.pcs[t].result == Verdict(s, s'.pcs[t].addr))
  }

  lemma StepIsQuiet(s: State, s': State, t: Thread)
    requires Step(s, s', t) && !s.pcs[t].SetVacant? && !s.pcs[t].SetSwapping?
    requires FlagCurrent(s.registry, s.pcs[t])
    requires forall a :: a in s.registry ==> s.registry[a] in s.flags
    ensures Quiet(s, s', t)
  {
  }

  lemma StepKeepsLocks(s: State, s': State, t: Thread)
    requires LockInv(s) && Step(s, s', t)
    ensures LockInv(s')
  {
    hide Step;
    StepMovesOneThread(s, s', t);
    StepLockEffect(s, s', t);
  }

  lemma FlagsUntouched(s: State, s': State, t: Thread)
    requires FlagInv(s) && t in s'.pcs && s'.pcs == s.pcs[t := s'.pcs[t]]
    requires s'.registry == s.registry && s.flags.Keys <= s'.flags.Keys
    requires FlagCurrent(s.registry, s'.pcs[t])
    ensures FlagInv(s')
  {
  }

  /** Insertion happens under the write lock, so nobody else counts on the
      entry being vacant. */
  lemma InsertKeepsFlags(s: State, s': State, t: Thread, a: string, h: bool, f: Flag)
    requires LockInv(s) && FlagInv(s)
    requires t in s.pcs && s.pcs[t] == SetVacant(a, h) && Insert(s, s', t, a, h, f)
    ensures FlagInv(s')
  {
    forall u | u in s'.pcs
      ensures FlagCurrent(s'.registry, s'.pcs[u])
    {
      if u != t {
        assert FlagCurrent(s.registry, s.pcs[u]);
        assert s.pcs[u].SetVacant? ==> s.writer == Some(u);
      }
    }
  }

  lemma StepKeepsFlags(s: State, s': State, t: Thread)
    requires LockInv(s) && FlagInv(s) && Step(s, s', t)
    ensures FlagInv(s')
  {
    assert FlagCurrent(s.registry, s.pcs[t]);
    match s.pcs[t]
    case SetVacant(a, h) =>
      var f :| Insert(s, s', t, a, h, f);
      InsertKeepsFlags(s, s', t, a, h, f);
    case SetSwapping(a, h, f) =>
      FlagsUntouched(s, s', t);
    case _ =>
      StepMovesOneThread(s, s', t);
      StepIsQuiet(s, s', t);
      hide Step, LockInv;
      FlagsUntouched(s, s', t);
  }

  // ------------------------------------------------------------- refinement

  ghost predicate Grows(s: State, s': State) {
    forall a :: a in s.registry ==> a in s'.registry && s'.registry[a] == s.registry[a]
  }

  /** One step of the registry seen as an atomic map that defaults to healthy:
      the swap is the update, everything else leaves the map alone; a lookup
      returns what the map says at its last read; flags are never replaced. */
  ghost predicate Refines(s: State, s': State, t: Thread) {
    && t in s.pcs && t in s'.pcs
    && Grows(s, s')
    && (match s.pcs[t]
        case SetSwapping(a, h, _) =>
          && (forall b :: Verdict(s', b) == if b == a then h else Verdict(s, b))
          && s'.log == if Verdict(s, a) != h then s.log + [Transition(a, h)] else s.log
        case _ => s'.log == s.log && forall b :: Verdict(s', b) == Verdict(s, b))
    && (s'.pcs[t].GetDone? ==> s'.pcs[t].result == Verdict(s, s'.pcs[t].addr))
  }

  lemma SwapRefines(s: State, s': State, t: Thread, a: string, h: bool, f: Flag)
    requires FlagInv(s) && t in s.pcs && s.pcs[t] == SetSwapping(a, h, f) && Swap(s, s', t, a, h, f)
    ensures Refines(s, s', t)
  {
    assert FlagCurrent(s.registry, s.pcs[t]);
  }

  lemma InsertRefines(s: State, s': State, t: Thread, a: string, h: bool, f: Flag)
    requires FlagInv(s) && t in s.pcs && s.pcs[t] == SetVacant(a, h) && Insert(s, s', t, a, h, f)
    ensures Refines(s, s', t)
  {
    assert FlagCurrent(s.registry, s.pcs[t]);
  }

  lemma StepRefines(s: State, s': State, t: Thread)
    requires FlagInv(s) && Step(s, s', t)
    ensures Refines(s, s', t)
  {
    assert FlagCurrent(s.registry, s.pcs[t]);
    match s.pcs[t]
    case SetVacant(a, h) =>
      var f :| Insert(s, s', t, a, h, f);
      InsertRefines(s, s', t, a, h, f);
    case SetSwapping(a, h, f) =>
      SwapRefines(s, s', t, a, h, f);
    case _ =>
      hide Refines, BeginStep, SetStep, GetStep, DropStep, FlagCurrent;
      StepIsQuiet(s, s', t);
      QuietRefines(s, s', t);
  }

  lemma QuietRefines(s: State, s': State, t: Thread)
    requires t in s.pcs && !s.pcs[t].SetSwapping? && Quiet(s, s', t)
    ensures Refines(s, s', t)
  {
  }

  // ------------------------------------------------------------------- runs

  lemma HistoryExtends(log: seq<Transition>, x: Transition, addr: string)
    ensures History(log + [x], addr) == History(log, addr) + if x.addr == addr then [x.healthy] else []
  {
    assert (log + [x])[..|log|] == log;
  }

  lemma StepKeepsAlternation(s: State, s': State, t: Thread, addr: string)
    requires Refines(s, s', t) && Alternates(s, addr)
    ensures Alternates(s', addr)
  {
    hide History, Verdict;
    match s.pcs[t]
    case SetSwapping(a, h, _) =>
      if Verdict(s, a) != h {
        HistoryExtends(s.log, Transition(a, h), addr);
      }
    case _ =>
  }

  lemma StepKeepsInv(s: State, s': State, t: Thread)
    requires Inv(s) && Step(s, s', t)
    ensures Inv(s') && Refines(s, s', t)
  {
    hide Step, LockInv, FlagInv, Alternates, Refines;
    StepKeepsLocks(s, s', t);
    StepKeepsFlags(s, s', t);
    StepRefines(s, s', t);
    forall addr
      ensures Alternates(s', addr)
    {
      StepKeepsAlternation(s, s', t, addr);
    }
  }

  lemma NextKeepsInv(s: State, s': State)
    requires Inv(s) && Next(s, s')
    ensures Inv(s')
  {
    hide Step, Inv;
    if s' != s {
      var t :| Step(s, s', t);
      StepKeepsInv(s, s', t);
    }
  }

  /** In every run, in every reachable state: lock discipline, one flag per
      address, and per address strictly alternating transition reports that
      begin with unhealthy and agree with the verdict in force. */
  lemma {:induction false} RunKeepsInv(run: seq<State>, i: nat)
    requires IsRun(run) && i < |run|
    ensures Inv(run[i])
  {
    if i > 0 {
      RunKeepsInv(run, i - 1);
      assert Next(run[i - 1], run[i - 1 + 1]);
      NextKeepsInv(run[i - 1], run[i]);
    }
  }

  /** Every step of every run is a step of the atomic map. */
  lemma RunRefines(run: seq<State>, i: nat, t: Thread)
    requires IsRun(run) && i + 1 < |run| && Step(run[i], run[i + 1], t)
    ensures Refines(run[i], run[i + 1], t)
  {
    hide Step, Inv, Refines;
    RunKeepsInv(run, i);
    StepKeepsInv(run[i], run[i + 1], t);
  }

  lemma Moves(run: seq<State>, i: nat) returns (t: Thread)
    requires IsRun(run) && i + 1 < |run| && run[i + 1] != run[i]
    ensures Step(run[i], run[i + 1], t)
  {
    hide Step;
    assert Next(run[i], run[i + 1]);
    t :| Step(run[i], run[i + 1], t);
  }

  /** An address keeps its flag for ever once it has one: entries are neither
      removed nor replaced. */
  lemma {:induction false} FlagsArePermanent(run: seq<State>, i: nat, j: nat, addr: string)
    requires IsRun(run) && i <= j < |run| && addr in run[i].registry
    ensures addr in run[j].registry && run[j].registry[addr] == run[i].registry[addr]
  {
    hide Step, IsRun, Verdict;
    if i < j {
      FlagsArePermanent(run, i, j - 1, addr);
      if run[j] != run[j - 1] {
        var t := Moves(run, j - 1);
        RunRefines(run, j - 1, t);
      }
    }
  }

  predicate AboutToSwap(pc: Pc, addr: string, healthy: bool) {
    match pc
    case SetSwapping(a, h, _) => a == addr && h == healthy
    case _ => false
  }

  /** The step swaps in a verdict on `addr`. */
  ghost predicate SwapsIn(s: State, s': State, addr: string, healthy: bool) {
    exists t :: t in s.pcs && AboutToSwap(s.pcs[t], addr, healthy) && Step(s, s', t)
  }

  ghost predicate SwapsOn(s: State, s': State, addr: string) {
    SwapsIn(s, s', addr, false) || SwapsIn(s, s', addr, true)
  }

  lemma SwapSets(run: seq<State>, k: nat, addr: string, healthy: bool)
    requires IsRun(run) && k + 1 < |run| && SwapsIn(run[k], run[k + 1], addr, healthy)
    ensures Verdict(run[k + 1], addr) == healthy
  {
    hide Step, IsRun, Verdict, Grows;
    var s, s' := run[k], run[k + 1];
    var t :| t in s.pcs && AboutToSwap(s.pcs[t], addr, healthy) && Step(s, s', t);
    RunRefines(run, k, t);
  }

  lemma NoSwapKeeps(run: seq<State>, k: nat, addr: string)
    requires IsRun(run) && k + 1 < |run| && !SwapsOn(run[k], run[k + 1], addr)
    ensures Verdict(run[k + 1], addr) == Verdict(run[k], addr)
  {
    hide Step, IsRun, Verdict, Grows;
    if run[k + 1] != run[k] {
      var t := Moves(run, k);
      RunRefines(run, k, t);
    }
  }

  /** No verdict on `addr` is swapped in from state `i` to state `j`. */
  ghost predicate Unswapped(run: seq<State>, i: nat, j: nat, addr: string)
    requires j < |run|
  {
    forall k :: i <= k < j ==> !SwapsOn(run[k], run[k + 1], addr)
  }

  /** The last verdict swapped in stays in force: an address whose verdicts
      stop coming, after a reload for instance, keeps the one it had. */
  lemma {:induction false} VerdictPersists(run: seq<State>, i: nat, j: nat, addr: string)
    requires IsRun(run) && i <= j < |run|
    requires Unswapped(run, i, j, addr)
    ensures Verdict(run[j], addr) == Verdict(run[i], addr)
  {
    hide IsRun, Verdict, SwapsOn;
    if i < j {
      VerdictPersists(run, i, j - 1, addr);
      assert !SwapsOn(run[j - 1], run[j - 1 + 1], addr);
      NoSwapKeeps(run, j - 1, addr);
    }
  }

  /** The last verdict on `addr` swapped in before state `i` is `healthy`. */
  ghost predicate LastSwapped(run: seq<State>, i: nat, addr: string, healthy: bool)
    requires i < |run|
  {
    exists k :: 0 <= k < i && SwapsIn(run[k], run[k + 1], addr, healthy) && Unswapped(run, k + 1, i, addr)
  }

  lemma LastSwappedExtends(run: seq<State>, i: nat, addr: string, healthy: bool)
    requires i + 1 < |run| && LastSwapped(run, i, addr, healthy) && !SwapsOn(run[i], run[i + 1], addr)
    ensures LastSwapped(run, i + 1, addr, healthy)
  {
    hide SwapsIn;
  }

  lemma {:induction false} SwappedOrNever(run: seq<State>, i: nat, addr: string) returns (healthy: bool)
    requires i < |run| && !Unswapped(run, 0, i, addr)
    ensures LastSwapped(run, i, addr, healthy)
  {
    hide SwapsIn;
    var n := i - 1;
    if SwapsIn(run[n], run[n + 1], addr, true) {
      healthy := true;
    } else if SwapsIn(run[n], run[n + 1], addr, false) {
      healthy := false;
    } else {
      healthy := SwappedOrNever(run, n, addr);
      LastSwappedExtends(run, n, addr, healthy);
    }
  }

  lemma LastSwapInForce(run: seq<State>, i: nat, addr: string, healthy: bool)
    requires IsRun(run) && i < |run| && LastSwapped(run, i, addr, healthy)
    ensures Verdict(run[i], addr) == healthy
  {
    hide IsRun, Verdict, SwapsIn;
    var k :| 0 <= k < i && SwapsIn(run[k], run[k + 1], addr, healthy) && Unswapped(run, k + 1, i, addr);
    SwapSets(run, k, addr, healthy);
    VerdictPersists(run, k + 1, i, addr);
  }

  /** Exactly when an address reads healthy: no verdict on it was ever swapped
      in, or the last one was healthy. Whether it still has a health check is
      no part of the condition. */
  lemma HealthyExactly(run: seq<State>, i: nat, addr: string)
    requires IsRun(run) && i < |run|
    ensures Verdict(run[i], addr) <==> Unswapped(run, 0, i, addr) || LastSwapped(run, i, addr, true)
  {
    hide Next, IsRun, Unswapped, LastSwapped, Verdict;
    if Unswapped(run, 0, i, addr) {
      StartsHealthy(run, addr);
      VerdictPersists(run, 0, i, addr);
    } else {
      var h := SwappedOrNever(run, i, addr);
      LastSwapInForce(run, i, addr, h);
      if LastSwapped(run, i, addr, true) {
        LastSwapInForce(run, i, addr, true);
      }
    }
  }

  lemma StartsHealthy(run: seq<State>, addr: string)
    requires IsRun(run)
    ensures Verdict(run[0], addr)
  {
    hide Next;
  }

  // ------------------------------------------------------------------ class

  /** One shared atomic flag. */
  class AtomicFlag {
    var value: bool

    constructor (initial: bool)
      ensures value == initial
    {
      value := initial;
    }

    method Swap(next: bool) returns (previous: bool)
      modifies this
      ensures previous == old(value) && value == next
    {
      previous := value;
      value := next;
    }
  }

  /** The registry as its callers use it, with each call left undisturbed: the
      same map defaulting to healthy that all interleavings refine. */
  class Registry {
    var inner: map<string, AtomicFlag>
    var log: seq<Transition>

    ghost predicate Valid()
      reads this
    {
      forall a, b :: a in inner && b in inner && a != b ==> inner[a] != inner[b]
    }

    predicate InForce(addr: string)
      reads this, inner.Values
    {
      addr in inner ==> inner[addr].value
    }

    constructor ()
      ensures Valid() && inner == map[] && log == []
    {
      inner, log := map[], [];
    }

    method IsHealthy(addr: string) returns (healthy: bool)
      ensures healthy == InForce(addr)
    {
      if addr in inner {
        return inner[addr].value;
      }
      return true;
    }

    method Set(addr: string, healthy: bool)
      requires Valid()
      modifies this, inner.Values
      ensures Valid()
      ensures forall b :: InForce(b) == if b == addr then healthy else old(InForce(b))
      ensures inner.Keys == old(inner).Keys + {addr}
      ensures forall b :: b in old(inner) ==> inner[b] == old(inner)[b]
      ensures log == old(log) + if old(InForce(addr)) != healthy then [Transition(addr, healthy)] else []
    {
      if addr !in inner {
        var vacant := new AtomicFlag(true);
        inner := inner[addr := vacant];
      }
      var flag := inner[addr];
      assert forall b :: b in inner && b != addr ==> inner[b] != flag;
      var previous := flag.Swap(healthy);
      if previous != healthy {
        log := log + [Transition(addr, healthy)];
      }
    }
  }
}
