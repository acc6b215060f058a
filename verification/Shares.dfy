/** The shares of traffic a configuration asks for, and that its upstreams get. */
module Shares {
  import opened Schedule
  import opened LoadBalancing
  import opened Configuration

  /** The weight a configuration gives an upstream: at least one, and a hundred
      if it gives none. */
  function ConfiguredWeight(u: Upstream): nat {
    match u.weight
    case None => 100
    case Some(k) => if k == 0 then 1 else k
  }

  function TotalWeight(us: seq<Upstream>): nat {
    if us == [] then 0 else TotalWeight(us[..|us| - 1]) + ConfiguredWeight(us[|us| - 1])
  }

  /** The weight listed for an address, over all entries that name it. */
  function ListedWeight(us: seq<Upstream>, addr: string): nat {
    if us == [] then 0
    else
      var last := us[|us| - 1];
      ListedWeight(us[..|us| - 1], addr) + if last.addr == addr then ConfiguredWeight(last) else 0
  }

  /** How often `addr` is served. */
  function PicksOf(served: seq<UpstreamPool>, addr: string): nat {
    if served == [] then 0
    else PicksOf(served[..|served| - 1], addr) + if served[|served| - 1].addr == addr then 1 else 0
  }

  /** The sum of the numbers that belong to entries naming `addr`. */
  function SumAt(pools: seq<UpstreamPool>, addr: string, numbers: seq<nat>): nat
    requires |pools| == |numbers|
  {
    if pools == [] then 0
    else
      var n := |pools| - 1;
      SumAt(pools[..n], addr, numbers[..n]) + if pools[n].addr == addr then numbers[n] else 0
  }

  lemma {:induction false} SumAtUpdate(pools: seq<UpstreamPool>, addr: string, a: seq<nat>, b: seq<nat>, x: nat)
    requires |pools| == |a| == |b| && x < |a| && b[x] == a[x] + 1
    requires forall j :: 0 <= j < |a| && j != x ==> a[j] == b[j]
    ensures SumAt(pools, addr, b) == SumAt(pools, addr, a) + if pools[x].addr == addr then 1 else 0
  {
    var n := |pools| - 1;
    if x == n {
      assert a[..n] == b[..n];
    } else {
      SumAtUpdate(pools[..n], addr, a[..n], b[..n], x);
    }
  }

  lemma {:induction false} SumAtZeros(pools: seq<UpstreamPool>, addr: string, a: seq<nat>)
    requires |pools| == |a| && forall j :: 0 <= j < |a| ==> a[j] == 0
    ensures SumAt(pools, addr, a) == 0
  {
    if pools != [] {
      SumAtZeros(pools[..|a| - 1], addr, a[..|a| - 1]);
    }
  }

  /** Counting by address is adding up the counts of the entries. */
  lemma {:induction false} PicksByEntry(pools: seq<UpstreamPool>, slots: seq<nat>, addr: string)
    requires forall k :: 0 <= k < |slots| ==> slots[k] < |pools|
    ensures PicksOf(Entries(pools, slots), addr) == SumAt(pools, addr, Counts(slots, |pools|))
  {
    if slots == [] {
      SumAtZeros(pools, addr, Counts(slots, |pools|));
    } else {
      var n := |slots| - 1;
      assert Entries(pools, slots)[..n] == Entries(pools, slots[..n]);
      PicksByEntry(pools, slots[..n], addr);
      SumAtUpdate(pools, addr, Counts(slots[..n], |pools|), Counts(slots, |pools|), slots[n]);
    }
  }

  lemma {:induction false} SumAtScales(pools: seq<UpstreamPool>, addr: string, a: seq<nat>, g: nat, b: seq<nat>, m: nat)
    requires |pools| == |a| == |b| && forall j :: 0 <= j < |a| ==> a[j] * g == m * b[j]
    ensures SumAt(pools, addr, a) * g == m * SumAt(pools, addr, b)
  {
    if pools != [] {
      var n := |pools| - 1;
      SumAtScales(pools[..n], addr, a[..n], g, b[..n], m);
    }
  }

  lemma {:induction false} ListedIsSum(us: seq<Upstream>, addr: string)
    ensures SumAt(Pools(us), addr, Clamped(Weights(Pools(us)))) == ListedWeight(us, addr)
    ensures Sum(Clamped(Weights(Pools(us)))) == TotalWeight(us)
  {
    if us != [] {
      var n := |us| - 1;
      ListedIsSum(us[..n], addr);
      assert Pools(us)[..n] == Pools(us[..n]);
      assert Clamped(Weights(Pools(us)))[..n] == Clamped(Weights(Pools(us[..n])));
    }
  }

  lemma WindowOfEntries(pools: seq<UpstreamPool>, t: nat, n: nat)
    requires pools != []
    ensures var slots := Slots(Reduced(Weights(pools)));
            && slots != [] && Expand(pools) != []
            && Window(Expand(pools), t, n) == Entries(ReducedPools(pools), Window(slots, t, n))
  {
    hide Reduced, ReducedPools, Slots;
    ScheduleLength(Weights(pools));
  }

  lemma SameAddresses(p: seq<UpstreamPool>, q: seq<UpstreamPool>, addr: string, numbers: seq<nat>)
    requires |p| == |q| == |numbers| && forall j :: 0 <= j < |p| ==> p[j].addr == q[j].addr
    ensures SumAt(p, addr, numbers) == SumAt(q, addr, numbers)
    decreases |p|
  {
    if p != [] {
      SameAddresses(p[..|p| - 1], q[..|p| - 1], addr, numbers[..|p| - 1]);
    }
  }

  /** The picks of `m` schedules for one address, times the divisor. */
  lemma PicksOfExpanded(pools: seq<UpstreamPool>, s: seq<UpstreamPool>, t: nat, m: nat, addr: string)
    requires s == Expand(pools) && s != [] && pools != []
    ensures PicksOf(Window(s, t, m * |s|), addr) * Divisor(Weights(pools)) ==
            m * SumAt(pools, addr, Clamped(Weights(pools)))
  {
    hide Reduced, ReducedPools, Slots, Divisor, Count, Window, Clamp;
    var ws := Weights(pools);
    var slots := Slots(Reduced(ws));
    var n := m * |s|;
    WindowOfEntries(pools, t, n);
    ScheduleLength(ws);
    var picks := Window(slots, t, n);
    var counts := Counts(picks, |pools|);
    assert |slots| == |s|;
    hide Expand;
    forall j | 0 <= j < |pools|
      ensures counts[j] * Divisor(ws) == m * Clamped(ws)[j]
    {
      ExactShares(ws, t, m, j);
    }
    PicksByEntry(ReducedPools(pools), picks, addr);
    SameAddresses(ReducedPools(pools), pools, addr, counts);
    SumAtScales(pools, addr, counts, Divisor(ws), Clamped(ws), m);
  }

  lemma Proportional(picks: nat, g: nat, m: nat, length: nat, listed: nat, total: nat)
    requires picks * g == m * listed && length * g == total
    ensures picks * total == m * length * listed
  {
    assert picks * (length * g) == (picks * g) * length;
    assert (m * listed) * length == m * length * listed;
  }

  /** Any `m` schedules' worth of consecutive tickets of the balancer kept for a
      route serve each address in exact proportion to the weight the last route
      of that name lists for it. */
  lemma ConfiguredShares(rs: seq<Route>, i: nat, t: nat, m: nat, addr: string)
    requires LastOfItsName(rs, i) && rs[i].upstreams != []
    ensures rs[i].name in LbMap(rs) && LbMap(rs)[rs[i].name] != []
    ensures var s := LbMap(rs)[rs[i].name];
            PicksOf(Window(s, t, m * |s|), addr) * TotalWeight(rs[i].upstreams) ==
            m * |s| * ListedWeight(rs[i].upstreams, addr)
  {
    hide LbMap, Pools, Expand, Divisor, Clamped, Window, PicksOf, SumAt, TotalWeight, ListedWeight;
    var us := rs[i].upstreams;
    var pools := Pools(us);
    LbMapHolds(rs, i);
    var s := Expand(pools);
    ExpandServesAll(pools, addr);
    PicksOfExpanded(pools, s, t, m, addr);
    ListedIsSum(us, addr);
    LengthOfExpanded(pools);
    Proportional(PicksOf(Window(s, t, m * |s|), addr), Divisor(Weights(pools)), m, |s|,
                 ListedWeight(us, addr), TotalWeight(us));
  }

  lemma LengthOfExpanded(pools: seq<UpstreamPool>)
    requires pools != []
    ensures |Expand(pools)| * Divisor(Weights(pools)) == Sum(Clamped(Weights(pools)))
  {
    hide Reduced, ReducedPools, Slots, Divisor;
    ScheduleLength(Weights(pools));
  }

  // ---------------------------------------------------------- shared names

  /** The same addresses in the same order, with configured weights in the same
      proportion. */
  ghost predicate SameListing(us: seq<Upstream>, vs: seq<Upstream>) {
    && |us| == |vs|
    && (forall k :: 0 <= k < |us| ==> us[k].addr == vs[k].addr)
    && forall i, j :: 0 <= i < |us| && 0 <= j < |us| ==> CrossedWeights(us, vs, i, j)
  }

  predicate CrossedWeights(us: seq<Upstream>, vs: seq<Upstream>, i: nat, j: nat)
    requires i < |us| == |vs| && j < |us|
  {
    ConfiguredWeight(us[i]) * ConfiguredWeight(vs[j]) == ConfiguredWeight(us[j]) * ConfiguredWeight(vs[i])
  }

  lemma PooledWeight(us: seq<Upstream>, i: nat)
    requires i < |us|
    ensures Clamp(Weights(Pools(us))[i]) == ConfiguredWeight(us[i])
  {
  }

  lemma SameListingExactly(us: seq<Upstream>, vs: seq<Upstream>)
    ensures SameShares(Pools(us), Pools(vs)) <==> SameListing(us, vs)
  {
    hide Pools, ConfiguredWeight, Clamp;
    if |us| == |vs| {
      forall i, j | 0 <= i < |us| && 0 <= j < |us|
        ensures Crossed(Weights(Pools(us)), Weights(Pools(vs)), i, j) <==> CrossedWeights(us, vs, i, j)
      {
        PooledWeight(us, i);
        PooledWeight(us, j);
        PooledWeight(vs, i);
        PooledWeight(vs, j);
      }
      hide Crossed, CrossedWeights;
    }
  }

  /** Exactly when a route is served from its own upstreams, whatever other
      routes share its name: the last of them, `j`, lists the same addresses in
      the same order with weights in the same proportion. */
  lemma OwnScheduleExactly(rs: seq<Route>, i: nat, j: nat)
    requires i < |rs| && LastOfItsName(rs, j) && rs[j].name == rs[i].name
    ensures rs[i].name in LbMap(rs)
    ensures LbMap(rs)[rs[i].name] == Expand(Pools(rs[i].upstreams)) <==>
            SameListing(rs[i].upstreams, rs[j].upstreams)
  {
    hide LbMap, Expand, Pools, SameShares, SameListing;
    LbMapHolds(rs, j);
    SameScheduleExactly(Pools(rs[i].upstreams), Pools(rs[j].upstreams));
    SameListingExactly(rs[i].upstreams, rs[j].upstreams);
  }

  /** Of two routes that share a name and list different single upstreams, the
      first is served from the second's. */
  lemma FirstOfTwoLoses(r: Route, q: Route, u: Upstream, v: Upstream)
    requires r.name == q.name && r.upstreams == [u] && q.upstreams == [v] && u.addr != v.addr
    ensures r.name in LbMap([r, q]) && LbMap([r, q])[r.name] == Expand(Pools([v])) != Expand(Pools([u]))
  {
    hide LbMap, Expand;
    LbMapHolds([r, q], 1);
    OwnScheduleExactly([r, q], 0, 1);
    assert r.upstreams[0].addr == u.addr && q.upstreams[0].addr == v.addr;
  }
}
