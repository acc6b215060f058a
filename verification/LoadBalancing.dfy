/** The load balancer of upstream.rs: the expanded schedule, its atomic ticket
    counter, and health- and retry-aware selection. */
module LoadBalancing {
  import opened Wrappers
  import opened Arithmetic
  import opened Schedule

  datatype UpstreamPool = UpstreamPool(addr: string, weight: nat)

  /** One past the largest `usize` of a 64-bit target. */
  const USIZE_LIMIT: nat := 0x1_0000_0000_0000_0000

  type usize = n: nat | n < USIZE_LIMIT

  /** What each read of the health registry returns: the outcome of the n-th
      read made by one call, for the address it asks about. Flags may flip
      between any two reads. */
  type HealthReads = (nat, string) -> bool

  function Weights(pools: seq<UpstreamPool>): (ws: seq<nat>)
    ensures |ws| == |pools| && forall j :: 0 <= j < |pools| ==> ws[j] == pools[j].weight
  {
    seq(|pools|, j requires 0 <= j < |pools| => pools[j].weight)
  }

  function ReducedPools(pools: seq<UpstreamPool>): (r: seq<UpstreamPool>)
    ensures |r| == |pools|
    ensures forall j :: 0 <= j < |pools| ==> r[j].addr == pools[j].addr
    ensures Weights(r) == Reduced(Weights(pools))
  {
    var ws := Reduced(Weights(pools));
    var r := seq(|pools|, j requires 0 <= j < |pools| => UpstreamPool(pools[j].addr, ws[j]));
    assert Weights(r) == ws;
    r
  }

  function Entries(pools: seq<UpstreamPool>, slots: seq<nat>): (r: seq<UpstreamPool>)
    requires forall k :: 0 <= k < |slots| ==> slots[k] < |pools|
    ensures |r| == |slots| && forall k :: 0 <= k < |slots| ==> r[k] == pools[slots[k]]
  {
    seq(|slots|, k requires 0 <= k < |slots| => pools[slots[k]])
  }

  lemma EntriesConcat(pools: seq<UpstreamPool>, a: seq<nat>, b: seq<nat>)
    requires forall k :: 0 <= k < |a| ==> a[k] < |pools|
    requires forall k :: 0 <= k < |b| ==> b[k] < |pools|
    ensures Entries(pools, a + b) == Entries(pools, a) + Entries(pools, b)
  {
  }

  lemma NothingYet(ws: seq<nat>, i: nat)
    ensures Round(ws[..0], i) == []
  {
  }

  /** Looking at entry `j` of round `i` adds that entry if it still takes part. */
  lemma RoundExtends(pools: seq<UpstreamPool>, ws: seq<nat>, served: seq<nat>, i: nat, j: nat)
    requires j < |ws| == |pools|
    requires forall k :: 0 <= k < |served| ==> served[k] < |pools|
    ensures Entries(pools, served + Round(ws[..j + 1], i)) ==
            Entries(pools, served + Round(ws[..j], i)) + if i < ws[j] then [pools[j]] else []
  {
    assert ws[..j + 1][..j] == ws[..j];
    EntriesConcat(pools, served + Round(ws[..j], i), Last(ws[..j + 1], i));
    assert served + Round(ws[..j + 1], i) == served + Round(ws[..j], i) + Last(ws[..j + 1], i);
  }

  /** The schedule of a list of upstreams, as the entries served. */
  function Expand(pools: seq<UpstreamPool>): (s: seq<UpstreamPool>) {
    Entries(ReducedPools(pools), Slots(Reduced(Weights(pools))))
  }

  /** The schedule serves the configured addresses, all of them and no others. */
  lemma ExpandServesAll(pools: seq<UpstreamPool>, addr: string)
    ensures (exists k :: 0 <= k < |Expand(pools)| && Expand(pools)[k].addr == addr) <==>
            (exists j :: 0 <= j < |pools| && pools[j].addr == addr)
    ensures pools != [] ==> Expand(pools) != []
  {
    var r, s := Reduced(Weights(pools)), Slots(Reduced(Weights(pools)));
    if pools != [] {
      ScheduleLength(Weights(pools));
    }
    if j :| 0 <= j < |pools| && pools[j].addr == addr {
      ReducedExact(Weights(pools), j);
      SlotsCount(r, j);
      var k := CountFinds(s, j);
      assert Expand(pools)[k].addr == addr;
    }
  }

  /** A ticket is served the entry whose index the schedule holds for it. */
  lemma ExpandPick(pools: seq<UpstreamPool>, t: nat)
    requires pools != []
    ensures var s := Slots(Reduced(Weights(pools)));
            && s != [] && |Expand(pools)| == |s|
            && Pick(s, t) < |pools|
            && Pick(Expand(pools), t) == ReducedPools(pools)[Pick(s, t)]
            && Pick(Expand(pools), t).addr == pools[Pick(s, t)].addr
  {
    ScheduleLength(Weights(pools));
  }

  lemma {:induction false} CountFinds(p: seq<nat>, x: nat) returns (k: nat)
    requires Count(p, x) > 0
    ensures k < |p| && p[k] == x
  {
    k := |p| - 1;
    if p[k] != x {
      k := CountFinds(p[..k], x);
    }
  }

  /** The schedule begins with the upstreams it was made of, and is as long as
      their reduced weights add up to. */
  lemma ExpandBegins(pools: seq<UpstreamPool>)
    ensures ReducedPools(pools) <= Expand(pools)
    ensures |Expand(pools)| == Sum(Weights(ReducedPools(pools)))
  {
    hide Reduced, Round, Rounds;
    var ws := Reduced(Weights(pools));
    SlotsLength(ws);
    if pools != [] {
      ReducedScalesBack(Weights(pools));
      FirstRound(ws);
      RoundsBeginWithFirst(ws, MaxWeight(ws));
    }
  }

  lemma SameBeginning(p: seq<UpstreamPool>, q: seq<UpstreamPool>)
    requires Expand(p) == Expand(q) && |p| <= |q|
    ensures ReducedPools(p) == ReducedPools(q)
  {
    hide Expand, Reduced;
    ExpandBegins(p);
    ExpandBegins(q);
    var a, b := ReducedPools(p), ReducedPools(q);
    assert forall k :: 0 <= k < |a| ==> a[k] == b[k];
    if |p| < |q| {
      assert Weights(b)[..|p|] == Weights(a);
      SumOfPrefix(Weights(b), |p|);
      ReducedScalesBack(Weights(q));
    }
  }

  /** The same addresses in the same order, with weights in the same
      proportion. */
  ghost predicate SameShares(p: seq<UpstreamPool>, q: seq<UpstreamPool>) {
    && |p| == |q|
    && (forall k :: 0 <= k < |p| ==> p[k].addr == q[k].addr)
    && SameProportion(Weights(p), Weights(q))
  }

  lemma SameReducedPools(p: seq<UpstreamPool>, q: seq<UpstreamPool>)
    ensures ReducedPools(p) == ReducedPools(q) <==> SameShares(p, q)
  {
    SameReducedExactly(Weights(p), Weights(q));
    hide Reduced, SameProportion, ReducedPools;
    var a, b := ReducedPools(p), ReducedPools(q);
    if a == b {
      assert |p| == |a| == |q|;
      assert forall k :: 0 <= k < |p| ==> p[k].addr == a[k].addr && q[k].addr == b[k].addr;
    }
    if SameShares(p, q) {
      assert forall k :: 0 <= k < |p| ==> a[k].weight == Weights(a)[k] && b[k].weight == Weights(b)[k];
      assert forall k :: 0 <= k < |p| ==> a[k] == UpstreamPool(p[k].addr, Weights(a)[k]);
      assert forall k :: 0 <= k < |p| ==> b[k] == UpstreamPool(q[k].addr, Weights(b)[k]);
      assert a == b;
    }
  }

  /** Two lists of upstreams have the same schedule exactly when they name the
      same addresses in the same order with weights in the same proportion. */
  lemma SameScheduleExactly(p: seq<UpstreamPool>, q: seq<UpstreamPool>)
    ensures Expand(p) == Expand(q) <==> SameShares(p, q)
  {
    SameReducedPools(p, q);
    hide SameShares;
    if ReducedPools(p) == ReducedPools(q) {
      assert Reduced(Weights(p)) == Weights(ReducedPools(p)) == Reduced(Weights(q));
    }
    if Expand(p) == Expand(q) {
      hide Expand, ReducedPools;
      if |p| <= |q| {
        SameBeginning(p, q);
      } else {
        SameBeginning(q, p);
      }
    }
  }

  // -------------------------------------------------------------- selection

  /** How a call of `next_healthy` ended. `offset` counts slots from the
      ticket, `read` is the registry read that saw the address healthy. */
  datatype Choice =
    | Fresh(offset: nat, read: nat)
    | Repeated(offset: nat, read: nat)
    | FailedOpen

  /** First pass over the candidates `w`: the first one that is not excluded
      and is read healthy, with the number of that read; and the number of
      reads made. */
  function Untried(w: seq<UpstreamPool>, exclude: seq<string>, health: HealthReads, i: nat, n: nat)
    : (Option<(nat, nat)>, nat)
    requires i <= |w|
    decreases |w| - i
  {
    if i == |w| then (None, n)
    else if w[i].addr in exclude then Untried(w, exclude, health, i + 1, n)
    else if health(n, w[i].addr) then (Some((i, n)), n + 1)
    else Untried(w, exclude, health, i + 1, n + 1)
  }

  /** Second pass: the first candidate that is read healthy, excluded or not. */
  function AnyHealthy(w: seq<UpstreamPool>, health: HealthReads, i: nat, n: nat): Option<(nat, nat)>
    requires i <= |w|
    decreases |w| - i
  {
    if i == |w| then None
    else if health(n, w[i].addr) then Some((i, n))
    else AnyHealthy(w, health, i + 1, n + 1)
  }

  lemma UntriedStep(w: seq<UpstreamPool>, exclude: seq<string>, health: HealthReads, i: nat, n: nat)
    requires i <= |w|
    ensures Untried(w, exclude, health, i, n) ==
            if i == |w| then (None, n)
            else if w[i].addr in exclude then Untried(w, exclude, health, i + 1, n)
            else if health(n, w[i].addr) then (Some((i, n)), n + 1)
            else Untried(w, exclude, health, i + 1, n + 1)
  {
  }

  lemma AnyHealthyStep(w: seq<UpstreamPool>, health: HealthReads, i: nat, n: nat)
    requires i <= |w|
    ensures AnyHealthy(w, health, i, n) ==
            if i == |w| then None
            else if health(n, w[i].addr) then Some((i, n))
            else AnyHealthy(w, health, i + 1, n + 1)
  {
  }

  function Choose(w: seq<UpstreamPool>, exclude: seq<string>, health: HealthReads): Choice {
    match Untried(w, exclude, health, 0, 0)
    case (Some((i, n)), _) => Fresh(i, n)
    case (None, n) =>
      match AnyHealthy(w, health, 0, n)
      case Some((i, m)) => Repeated(i, m)
      case None => FailedOpen
  }

  function Offset(c: Choice): nat {
    match c
    case Fresh(i, _) => i
    case Repeated(i, _) => i
    case FailedOpen => 0
  }

  /** The candidates of ticket `start` in cyclic order. */
  function Candidates(s: seq<UpstreamPool>, start: nat): (w: seq<UpstreamPool>)
    requires s != []
    ensures |w| == |s|
  {
    Window(s, start, |s|)
  }

  /** The slot `i` places after ticket `start`, when the sum wraps at the end of
      `usize`. */
  function SlotAfter(len: nat, start: nat, i: nat): (x: nat)
    requires len > 0
    ensures x < len
  {
    (start + i) % USIZE_LIMIT % len
  }

  /** What a call with ticket `start` looks at, wrapping included. */
  function Scan(s: seq<UpstreamPool>, start: nat): (w: seq<UpstreamPool>)
    requires s != []
    ensures |w| == |s| && forall i :: 0 <= i < |s| ==> w[i] == s[SlotAfter(|s|, start, i)]
  {
    seq(|s|, i requires 0 <= i < |s| => s[SlotAfter(|s|, start, i)])
  }

  /** The slot `next_healthy` serves ticket `start` from. */
  function ScannedSlot(s: seq<UpstreamPool>, start: nat, exclude: seq<string>, health: HealthReads): (x: nat)
    requires s != []
    ensures x < |s|
  {
    SlotAfter(|s|, start, Offset(Choose(Scan(s, start), exclude, health)))
  }

  /** The upstream `next_healthy` returns for ticket `start`. */
  function Select(s: seq<UpstreamPool>, start: nat, exclude: seq<string>, health: HealthReads): Option<UpstreamPool> {
    if s == [] then None else Some(s[ScannedSlot(s, start, exclude, health)])
  }

  /** The scan of ticket `start` does not pass the end of `usize`, or passes it
      unnoticed. */
  predicate InOrder(len: nat, start: nat) {
    start + len <= USIZE_LIMIT || (len > 0 && USIZE_LIMIT % len == 0)
  }

  lemma ModOfMod(t: nat, range: nat, len: nat)
    requires range > 0 && len > 0 && range % len == 0
    ensures (t % range) % len == t % len
  {
    var r, q := t % range, t / range;
    DivMod(t, range);
    DivMod(range, len);
    DivMod(r, len);
    var k := range / len;
    MulAssoc(q, k, len);
    assert t == (q * k + r / len) * len + r % len;
    ModUnique(t, len, q * k + r / len, r % len);
  }

  /** A scan looks at the slots in cyclic order exactly if it is in order in
      this sense. */
  lemma InOrderExactly(len: nat, start: usize)
    requires len > 0
    ensures InOrder(len, start) <==> forall i: nat :: i < len ==> SlotAfter(len, start, i) == (start + i) % len
  {
    if USIZE_LIMIT % len == 0 {
      forall i: nat | i < len
        ensures SlotAfter(len, start, i) == (start + i) % len
      {
        ModOfMod(start + i, USIZE_LIMIT, len);
      }
    } else if start + len > USIZE_LIMIT {
      var i: nat := USIZE_LIMIT - start;
      assert SlotAfter(len, start, i) == 0;
      assert (start + i) % len != 0;
    }
  }

  /** In order, the scan is the cyclic window that begins at the ticket. */
  lemma ScannedInOrder(s: seq<UpstreamPool>, start: usize)
    requires s != [] && InOrder(|s|, start)
    ensures Scan(s, start) == Candidates(s, start)
    ensures forall i: nat :: i < |s| ==> SlotAfter(|s|, start, i) == (start + i) % |s|
  {
    hide InOrder, SlotAfter;
    InOrderExactly(|s|, start);
    forall i | 0 <= i < |s|
      ensures Scan(s, start)[i] == Candidates(s, start)[i]
    {
      assert SlotAfter(|s|, start, i) == (start + i) % |s|;
    }
  }

  /** Out of order a scan misses slots: the last ticket before the wrap looks
      at the first of three slots twice and at the third not at all. */
  lemma WrapMissesSlot(a: UpstreamPool, b: UpstreamPool, c: UpstreamPool)
    ensures Scan([a, b, c], USIZE_LIMIT - 1) == [a, a, b]
  {
    assert SlotAfter(3, USIZE_LIMIT - 1, 0) == 0;
    assert SlotAfter(3, USIZE_LIMIT - 1, 1) == 0;
    assert SlotAfter(3, USIZE_LIMIT - 1, 2) == 1;
  }

  /** `addr` reads healthy whenever it is asked about. */
  ghost predicate StaysHealthy(health: HealthReads, addr: string) {
    forall m: nat :: health(m, addr)
  }

  lemma {:induction false} UntriedMeaning(
      w: seq<UpstreamPool>, exclude: seq<string>, health: HealthReads, i: nat, n: nat)
    requires i <= |w|
    ensures var (found, _) := Untried(w, exclude, health, i, n);
            match found
            case Some((o, m)) => i <= o < |w| && w[o].addr !in exclude && health(m, w[o].addr)
            case None =>
              forall k :: i <= k < |w| && w[k].addr !in exclude ==> !StaysHealthy(health, w[k].addr)
    decreases |w| - i
  {
    if i < |w| {
      if w[i].addr in exclude {
        UntriedMeaning(w, exclude, health, i + 1, n);
      } else if !health(n, w[i].addr) {
        UntriedMeaning(w, exclude, health, i + 1, n + 1);
      }
    }
  }

  lemma {:induction false} AnyHealthyMeaning(w: seq<UpstreamPool>, health: HealthReads, i: nat, n: nat)
    requires i <= |w|
    ensures match AnyHealthy(w, health, i, n)
            case Some((o, m)) => i <= o < |w| && health(m, w[o].addr)
            case None => forall k :: i <= k < |w| ==> !StaysHealthy(health, w[k].addr)
    decreases |w| - i
  {
    if i < |w| && !health(n, w[i].addr) {
      AnyHealthyMeaning(w, health, i + 1, n + 1);
    }
  }

  ghost predicate Serves(s: seq<UpstreamPool>, addr: string) {
    exists k :: 0 <= k < |s| && s[k].addr == addr
  }

  lemma CandidatesServe(s: seq<UpstreamPool>, start: nat, addr: string)
    requires s != []
    ensures Serves(Candidates(s, start), addr) <==> Serves(s, addr)
  {
    WindowIsRotation(s, start);
    var w, r := Candidates(s, start), start % |s|;
    if k :| 0 <= k < |s| && s[k].addr == addr {
      assert w[if k >= r then k - r else k + |s| - r].addr == addr;
    }
    if i :| 0 <= i < |w| && w[i].addr == addr {
      assert s[if i < |s| - r then i + r else i + r - |s|].addr == addr;
    }
  }

  /** A scan looks at nothing but the schedule, and in order at all of it. */
  lemma ScanServes(s: seq<UpstreamPool>, start: usize, addr: string)
    requires s != []
    ensures Serves(Scan(s, start), addr) ==> Serves(s, addr)
    ensures InOrder(|s|, start) ==> (Serves(Scan(s, start), addr) <==> Serves(s, addr))
  {
    hide InOrder, SlotAfter;
    if i :| 0 <= i < |s| && Scan(s, start)[i].addr == addr {
      assert s[SlotAfter(|s|, start, i)].addr == addr;
    }
    if InOrder(|s|, start) {
      ScannedInOrder(s, start);
      CandidatesServe(s, start, addr);
    }
  }

  /** Whatever flips between the reads of one call, and wherever it starts: the
      result is a schedule entry; a fresh or repeated choice was read healthy
      during the call, a fresh one is not excluded; an upstream looked at that
      stays healthy rules out failing open, and one that is not excluded either
      rules out a repeat. A scan in order looks at every upstream. */
  lemma SelectionUnderInterference(s: seq<UpstreamPool>, start: usize, exclude: seq<string>, health: HealthReads)
    requires s != []
    ensures var w := Scan(s, start);
            var c := Choose(w, exclude, health);
            var u := s[ScannedSlot(s, start, exclude, health)];
            && Select(s, start, exclude, health) == Some(u)
            && Offset(c) < |s| && u in s && u == w[Offset(c)]
            && (c.Fresh? ==> u.addr !in exclude && health(c.read, u.addr))
            && (c.Repeated? ==> health(c.read, u.addr))
            && (!c.Fresh? ==> forall a :: Serves(w, a) && StaysHealthy(health, a) ==> a in exclude)
            && (c.FailedOpen? ==> forall a :: Serves(w, a) ==> !StaysHealthy(health, a))
    ensures InOrder(|s|, start) ==> forall a :: Serves(Scan(s, start), a) <==> Serves(s, a)
  {
    hide SlotAfter, InOrder;
    var w := Scan(s, start);
    var (_, n) := Untried(w, exclude, health, 0, 0);
    UntriedMeaning(w, exclude, health, 0, 0);
    AnyHealthyMeaning(w, health, 0, n);
    var c := Choose(w, exclude, health);
    forall a
      ensures InOrder(|s|, start) ==> (Serves(w, a) <==> Serves(s, a))
      ensures Serves(w, a) && StaysHealthy(health, a) ==> !c.FailedOpen? && (!c.Fresh? ==> a in exclude)
    {
      ScanServes(s, start, a);
    }
  }

  // ------------------------------------------------------------------ class

  class LoadBalancer {
    const upstreams: seq<UpstreamPool>
    var counter: usize

    constructor (pools: seq<UpstreamPool>)
      ensures upstreams == Expand(pools) && counter == 0
    {
      hide Round, Reduced, ReducedPools;
      var reduced := ReducedPools(pools);
      ghost var ws := Reduced(Weights(pools));
      var maxWeight := MaxWeight(Weights(reduced));
      var expanded: seq<UpstreamPool> := [];
      for i := 0 to maxWeight
        invariant expanded == Entries(reduced, Rounds(ws, i))
      {
        NothingYet(ws, i);
        for j := 0 to |reduced|
          invariant expanded == Entries(reduced, Rounds(ws, i) + Round(ws[..j], i))
        {
          RoundExtends(reduced, ws, Rounds(ws, i), i, j);
          if i < reduced[j].weight {
            expanded := expanded + [reduced[j]];
          }
        }
        assert ws[..|reduced|] == ws;
      }
      upstreams := expanded;
      counter := 0;
    }

    /** `fetch_add` on the shared counter: it wraps at the end of `usize`. */
    method TakeTicket() returns (ticket: usize)
      modifies this`counter
      ensures ticket == old(counter)
      ensures counter == (old(counter) + 1) % USIZE_LIMIT
    {
      ticket := counter;
      counter := (counter + 1) % USIZE_LIMIT;
    }

    method Next() returns (r: Option<UpstreamPool>)
      modifies this`counter
      ensures upstreams == [] ==> r == None && counter == old(counter)
      ensures upstreams != [] ==>
                && r == Some(Pick(upstreams, old(counter)))
                && counter == (old(counter) + 1) % USIZE_LIMIT
    {
      if upstreams == [] {
        return None;
      }
      var ticket := TakeTicket();
      return Some(upstreams[ticket % |upstreams|]);
    }

    /** Selection on the current ticket, wrapping at the end of `usize`. */
    method NextHealthy(health: HealthReads, exclude: seq<string>) returns (r: Option<UpstreamPool>)
      modifies this`counter
      ensures r == Select(upstreams, old(counter), exclude, health)
      ensures counter == if upstreams == [] then old(counter) else (old(counter) + 1) % USIZE_LIMIT
    {
      hide Scan, Untried, AnyHealthy, SlotAfter;
      if upstreams == [] {
        return None;
      }
      var len := |upstreams|;
      var start := TakeTicket();
      assert counter == (start + 1) % USIZE_LIMIT;
      ghost var w := Scan(upstreams, start);
      var n := 0;
      for i := 0 to len
        invariant counter == (start + 1) % USIZE_LIMIT
        invariant Untried(w, exclude, health, 0, 0) == Untried(w, exclude, health, i, n)
      {
        UntriedStep(w, exclude, health, i, n);
        var candidate := upstreams[SlotAfter(len, start, i)];
        if candidate.addr !in exclude {
          var healthy := health(n, candidate.addr);
          if healthy {
            return Some(candidate);
          }
          n := n + 1;
        }
      }
      UntriedStep(w, exclude, health, len, n);
      ghost var first := n;
      for i := 0 to len
        invariant counter == (start + 1) % USIZE_LIMIT
        invariant AnyHealthy(w, health, 0, first) == AnyHealthy(w, health, i, n)
      {
        AnyHealthyStep(w, health, i, n);
        var candidate := upstreams[SlotAfter(len, start, i)];
        if health(n, candidate.addr) {
          return Some(candidate);
        }
        n := n + 1;
      }
      AnyHealthyStep(w, health, len, n);
      return Some(upstreams[SlotAfter(len, start, 0)]);
    }
  }
}
