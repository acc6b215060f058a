/** Who takes over the traffic of unhealthy slots while health stands still. */
module Redistribution {
  import opened Wrappers
  import opened Arithmetic
  import opened Schedule
  import opened LoadBalancing

  /** A fixed verdict for every address. */
  type Health = string -> bool

  function Frozen(h: Health): HealthReads {
    (n, addr) => h(addr)
  }

  predicate Up(s: seq<UpstreamPool>, h: Health, t: nat)
    requires s != []
  {
    h(Pick(s, t).addr)
  }

  ghost predicate SomeUp(s: seq<UpstreamPool>, h: Health) {
    exists x :: 0 <= x < |s| && h(s[x].addr)
  }

  /** The slot ticket `t` starts from. */
  function Home(s: seq<UpstreamPool>, t: nat): (x: nat)
    requires s != []
    ensures x < |s| && Pick(s, t) == s[x]
  {
    t % |s|
  }

  /** The slot that serves ticket `t` when nothing is excluded. */
  function ServingSlot(s: seq<UpstreamPool>, h: Health, t: nat): (x: nat)
    requires s != []
    ensures x < |s|
  {
    Home(s, t + Offset(Choose(Candidates(s, t), [], Frozen(h))))
  }

  /** The slots serving `n` consecutive tickets from `t` on. */
  function Served(s: seq<UpstreamPool>, h: Health, t: nat, n: nat): (r: seq<nat>)
    requires s != []
    ensures |r| == n && forall k :: 0 <= k < n ==> r[k] == ServingSlot(s, h, t + k)
  {
    seq<nat>(n, k requires 0 <= k < n => ServingSlot(s, h, t + k))
  }

  /** The number of unhealthy slots immediately before slot `x`, cyclically,
      given that the `d - 1` nearest are unhealthy. */
  function GapFrom(s: seq<UpstreamPool>, h: Health, x: nat, d: nat): nat
    requires x < |s| && 0 < d <= |s|
    decreases |s| - d
  {
    if d == |s| || Up(s, h, x + |s| - d) then 0 else 1 + GapFrom(s, h, x, d + 1)
  }

  function Gap(s: seq<UpstreamPool>, h: Health, x: nat): nat
    requires x < |s|
  {
    GapFrom(s, h, x, 1)
  }

  lemma {:induction false} GapMeaning(s: seq<UpstreamPool>, h: Health, x: nat, d: nat)
    requires x < |s| && 0 < d <= |s|
    ensures var g := GapFrom(s, h, x, d);
            && d - 1 + g < |s|
            && (forall u: nat :: x + |s| - (d + g) < u <= x + |s| - d ==> !Up(s, h, u))
            && (d + g < |s| ==> Up(s, h, x + |s| - (d + g)))
    decreases |s| - d
  {
    hide Up;
    if d < |s| && !Up(s, h, x + |s| - d) {
      GapMeaning(s, h, x, d + 1);
    }
  }

  lemma {:induction false} FirstUp(w: seq<UpstreamPool>, h: Health, i: nat)
    requires i <= |w|
    ensures match Untried(w, [], Frozen(h), i, i).0
            case Some((o, _)) => i <= o < |w| && h(w[o].addr) && forall k :: i <= k < o ==> !h(w[k].addr)
            case None => forall k :: i <= k < |w| ==> !h(w[k].addr)
    decreases |w| - i
  {
    if i < |w| && !h(w[i].addr) {
      FirstUp(w, h, i + 1);
    }
  }

  lemma CandidatesUp(s: seq<UpstreamPool>, h: Health, t: nat)
    requires s != []
    ensures var w := Candidates(s, t);
            forall u: nat :: t <= u < t + |s| ==> (Up(s, h, u) <==> h(w[u - t].addr))
  {
    hide Pick;
    assert forall u: nat :: t <= u < t + |s| ==> Candidates(s, t)[u - t] == Pick(s, u);
  }

  /** With some slot healthy, a ticket is served by the first healthy slot at
      or after it. */
  lemma ServingSlotIsFirstUp(s: seq<UpstreamPool>, h: Health, t: nat) returns (o: nat)
    requires s != [] && SomeUp(s, h)
    ensures o < |s| && ServingSlot(s, h, t) == Home(s, t + o)
    ensures Up(s, h, t + o) && forall u: nat :: t <= u < t + o ==> !Up(s, h, u)
  {
    hide Pick, Up, Home;
    var w := Candidates(s, t);
    FirstUp(w, h, 0);
    var x :| 0 <= x < |s| && h(s[x].addr);
    assert Serves(s, s[x].addr);
    CandidatesServe(s, t, s[x].addr);
    o := Offset(Choose(w, [], Frozen(h)));
    CandidatesUp(s, h, t);
    assert Up(s, h, t + o) && w[t + o - t] == w[o];
  }

  lemma ServingSlotPeriodic(s: seq<UpstreamPool>, h: Health, t: nat)
    requires s != []
    ensures ServingSlot(s, h, t) == ServingSlot(s, h, t % |s|)
  {
    var r := t % |s|;
    assert r % |s| == r;
    WindowIsRotation(s, t);
    WindowIsRotation(s, r);
    assert Candidates(s, t) == Candidates(s, r);
    var o := Offset(Choose(Candidates(s, t), [], Frozen(h)));
    ChoiceInRange(Candidates(s, t), h);
    ModAdd(t, o, |s|);
    ModAdd(r, o, |s|);
  }

  lemma ChoiceInRange(w: seq<UpstreamPool>, h: Health)
    requires w != []
    ensures Offset(Choose(w, [], Frozen(h))) < |w|
  {
    var (_, n) := Untried(w, [], Frozen(h), 0, 0);
    UntriedMeaning(w, [], Frozen(h), 0, 0);
    AnyHealthyMeaning(w, Frozen(h), 0, n);
  }

  /** In order, that slot is the one a call serves. */
  lemma ScannedIsServing(s: seq<UpstreamPool>, h: Health, start: usize)
    requires s != [] && InOrder(|s|, start)
    ensures ScannedSlot(s, start, [], Frozen(h)) == ServingSlot(s, h, start)
    ensures Select(s, start, [], Frozen(h)) == Some(s[ServingSlot(s, h, start)])
  {
    hide InOrder, SlotAfter, Pick;
    ScannedInOrder(s, start);
    ChoiceInRange(Scan(s, start), h);
    var o := Offset(Choose(Scan(s, start), [], Frozen(h)));
    assert SlotAfter(|s|, start, o) == (start + o) % |s|;
  }

  /** One schedule's worth of tickets serves each slot equally often wherever
      it starts. */
  lemma ServedCountAnywhere(s: seq<UpstreamPool>, h: Health, t: nat, x: nat)
    requires s != []
    ensures Count(Served(s, h, t, |s|), x) == Count(Served(s, h, 0, |s|), x)
  {
    var r := Served(s, h, 0, |s|);
    forall k | 0 <= k < |s|
      ensures Served(s, h, t, |s|)[k] == Window(r, t, |s|)[k]
    {
      ServingSlotPeriodic(s, h, t + k);
      assert r[(t + k) % |s|] == ServingSlot(s, h, 0 + (t + k) % |s|);
    }
    assert Served(s, h, t, |s|) == Window(r, t, |s|);
    RotationCount(r, t, x);
  }

  lemma {:induction false} CountSplit(p: seq<nat>, x: nat, a: nat)
    requires a <= |p|
    requires forall k :: 0 <= k < a ==> p[k] != x
    requires forall k :: a <= k < |p| ==> p[k] == x
    ensures Count(p, x) == |p| - a
  {
    if p != [] {
      CountSplit(p[..|p| - 1], x, if a == |p| then a - 1 else a);
    }
  }

  lemma HomeAgain(s: seq<UpstreamPool>, h: Health, x: nat)
    requires x < |s|
    ensures Home(s, x + |s|) == x
    ensures Up(s, h, x + |s|) <==> h(s[x].addr)
  {
    ModUnique(x + |s|, |s|, 1, x);
  }

  lemma NotHome(s: seq<UpstreamPool>, x: nat, v: nat)
    requires x < v < x + |s| && x < |s|
    ensures Home(s, v) != x
  {
    if v < |s| {
      ModUnique(v, |s|, 0, v);
    } else {
      ModUnique(v, |s|, 1, v - |s|);
    }
  }

  /** Of the tickets from the slot after `x` up to `x` itself, exactly the last
      `1 + Gap` are served by a healthy slot `x`. */
  lemma ServedAfter(s: seq<UpstreamPool>, h: Health, x: nat, u: nat)
    requires x < |s| && h(s[x].addr) && x < u <= x + |s|
    ensures ServingSlot(s, h, u) == x <==> x + |s| <= u + Gap(s, h, x)
  {
    hide Up, Pick, Home;
    GapMeaning(s, h, x, 1);
    var o := ServingSlotIsFirstUp(s, h, u);
    HomeAgain(s, h, x);
    if u + o < x + |s| {
      NotHome(s, x, u + o);
    }
  }

  lemma HealthySlotShare(s: seq<UpstreamPool>, h: Health, t: nat, x: nat)
    requires x < |s| && h(s[x].addr)
    ensures Count(Served(s, h, t, |s|), x) == 1 + Gap(s, h, x)
  {
    hide ServingSlot, Gap, Up;
    var p := Served(s, h, x + 1, |s|);
    assert Gap(s, h, x) < |s| by {
      GapBelow(s, h, x);
    }
    forall k | 0 <= k < |s|
      ensures p[k] == x <==> |s| <= 1 + k + Gap(s, h, x)
    {
      ServedAfter(s, h, x, x + 1 + k);
    }
    CountSplit(p, x, |s| - 1 - Gap(s, h, x));
    ServedCountAnywhere(s, h, x + 1, x);
    ServedCountAnywhere(s, h, t, x);
  }

  lemma GapBelow(s: seq<UpstreamPool>, h: Health, x: nat)
    requires x < |s|
    ensures Gap(s, h, x) < |s|
  {
    GapMeaning(s, h, x, 1);
  }

  lemma {:induction false} CountAbsent(p: seq<nat>, x: nat)
    requires forall k :: 0 <= k < |p| ==> p[k] != x
    ensures Count(p, x) == 0
  {
    if p != [] {
      CountAbsent(p[..|p| - 1], x);
    }
  }

  /** What slot `x` serves of every |s| tickets: its own turn and those of the
      unhealthy slots just before it, if it is healthy itself. */
  function Share(s: seq<UpstreamPool>, h: Health, x: nat): nat
    requires x < |s|
  {
    if h(s[x].addr) then 1 + Gap(s, h, x) else 0
  }

  function Shares(s: seq<UpstreamPool>, h: Health): (r: seq<nat>)
    ensures |r| == |s|
    ensures forall x :: 0 <= x < |s| ==> r[x] == Share(s, h, x)
  {
    seq(|s|, x requires 0 <= x < |s| => Share(s, h, x))
  }

  /** With health fixed, nothing excluded and some slot healthy, any schedule's
      worth of consecutive tickets serves each healthy slot once for itself and
      once for every unhealthy slot immediately before it, never an unhealthy
      one, and those shares add up to all of the tickets. */
  lemma SharesRedistributed(s: seq<UpstreamPool>, h: Health, t: nat)
    requires s != [] && SomeUp(s, h)
    ensures forall k :: 0 <= k < |s| ==>
              t + k < USIZE_LIMIT && InOrder(|s|, t + k) ==>
                Select(s, t + k, [], Frozen(h)) == Some(s[Served(s, h, t, |s|)[k]])
    ensures forall k :: 0 <= k < |s| ==> h(s[Served(s, h, t, |s|)[k]].addr)
    ensures Counts(Served(s, h, t, |s|), |s|) == Shares(s, h)
    ensures Sum(Shares(s, h)) == |s|
  {
    hide Gap, Pick, Up, Select;
    var p := Served(s, h, t, |s|);
    forall k | 0 <= k < |s|
      ensures t + k < USIZE_LIMIT && InOrder(|s|, t + k) ==> Select(s, t + k, [], Frozen(h)) == Some(s[p[k]])
      ensures h(s[p[k]].addr)
    {
      if t + k < USIZE_LIMIT && InOrder(|s|, t + k) {
        ScannedIsServing(s, h, t + k);
      }
      var o := ServingSlotIsFirstUp(s, h, t + k);
      UpAtHome(s, h, t + k + o);
    }
    forall x | 0 <= x < |s|
      ensures Count(p, x) == Shares(s, h)[x]
    {
      if h(s[x].addr) {
        HealthySlotShare(s, h, t, x);
      } else {
        CountAbsent(p, x);
      }
    }
    assert Counts(p, |s|) == Shares(s, h);
    LengthIsSumOfCounts(p, |s|);
  }

  lemma UpAtHome(s: seq<UpstreamPool>, h: Health, u: nat)
    requires s != [] && Up(s, h, u)
    ensures h(s[Home(s, u)].addr)
  {
  }

  predicate AllUp(s: seq<UpstreamPool>, h: Health) {
    forall x :: 0 <= x < |s| ==> h(s[x].addr)
  }

  /** With all upstreams up and nothing excluded, health-aware selection serves
      each ticket its own slot, as the plain schedule does. */
  lemma AllUpPicks(s: seq<UpstreamPool>, h: Health, start: usize)
    requires s != [] && AllUp(s, h)
    ensures ScannedSlot(s, start, [], Frozen(h)) == SlotAfter(|s|, start, 0)
    ensures Select(s, start, [], Frozen(h)) == Some(Pick(s, start))
  {
    FirstUp(Scan(s, start), h, 0);
  }
}
