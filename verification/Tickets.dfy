/** Many requests drawing tickets from one load balancer at the same time. */
module Tickets {
  import opened Arithmetic
  import opened Schedule
  import opened LoadBalancing
  import opened Redistribution

  type Caller = nat

  /** A ticket in hand; `serial` tells apart draws that the wrap of the counter
      gives the same ticket. */
  datatype Draw = Draw(serial: nat, ticket: usize)

  /** The shared counter, the tickets drawn but not yet looked up, and the slot
      each finished draw was served from. `drawn` counts the draws. */
  datatype State = State(counter: usize, drawn: nat, holding: map<Caller, Draw>, served: map<nat, nat>)

  ghost predicate Init(s: State) {
    s == State(0, 0, map[], map[])
  }

  /** `fetch_add`: one atomic step hands out the counter's old value. */
  ghost predicate FetchAdd(s: State, s': State, c: Caller) {
    && c !in s.holding
    && s' == s.(counter := (s.counter + 1) % USIZE_LIMIT, drawn := s.drawn + 1,
                holding := s.holding[c := Draw(s.drawn, s.counter)])
  }

  /** The caller looks its own ticket up; `serve` is what it finds. */
  ghost predicate LookUp(serve: nat -> nat, s: State, s': State, c: Caller) {
    && c in s.holding
    && s' == s.(holding := s.holding - {c},
                served := s.served[s.holding[c].serial := serve(s.holding[c].ticket)])
  }

  ghost predicate Next(serve: nat -> nat, s: State, s': State) {
    exists c :: FetchAdd(s, s', c) || LookUp(serve, s, s', c)
  }

  ghost predicate IsRun(serve: nat -> nat, run: seq<State>) {
    && run != [] && Init(run[0])
    && forall i :: 0 <= i < |run| - 1 ==> Next(serve, run[i], run[i + 1])
  }

  predicate Held(s: State, serial: nat) {
    exists c :: c in s.holding && s.holding[c].serial == serial
  }

  /** Every draw so far is in the hands of exactly one caller or has been
      served, never both, and was served what its ticket stands for: the draw's
      number, wrapped. */
  ghost predicate Inv(serve: nat -> nat, s: State) {
    && s.counter == s.drawn % USIZE_LIMIT
    && (forall t: nat :: t < s.drawn <==> t in s.served || Held(s, t))
    && (forall c :: c in s.holding ==>
          s.holding[c].serial !in s.served && s.holding[c].ticket == s.holding[c].serial % USIZE_LIMIT)
    && (forall c, d :: c in s.holding && d in s.holding && c != d ==> s.holding[c].serial != s.holding[d].serial)
    && (forall t :: t in s.served ==> s.served[t] == serve(t % USIZE_LIMIT))
  }

  lemma CounterSteps(drawn: nat)
    ensures (drawn + 1) % USIZE_LIMIT == (drawn % USIZE_LIMIT + 1) % USIZE_LIMIT
  {
  }

  lemma FetchAddKeeps(serve: nat -> nat, s: State, s': State, c: Caller)
    requires Inv(serve, s) && FetchAdd(s, s', c)
    ensures Inv(serve, s')
  {
    CounterSteps(s.drawn);
    assert forall d :: d in s.holding ==> Held(s, s.holding[d].serial);
    assert s'.holding[c].serial == s.drawn;
    forall t: nat
      ensures t < s'.drawn <==> t in s'.served || Held(s', t)
    {
      if Held(s, t) {
        var d :| d in s.holding && s.holding[d].serial == t;
        assert s'.holding[d].serial == t;
      }
    }
  }

  lemma LookUpKeeps(serve: nat -> nat, s: State, s': State, c: Caller)
    requires Inv(serve, s) && LookUp(serve, s, s', c)
    ensures Inv(serve, s')
  {
    forall t: nat
      ensures t < s'.drawn <==> t in s'.served || Held(s', t)
    {
      assert Held(s, s.holding[c].serial);
      if Held(s, t) && t != s.holding[c].serial {
        var d :| d in s.holding && s.holding[d].serial == t;
        assert s'.holding[d].serial == t;
      }
    }
  }

  lemma {:induction false} RunKeepsInv(serve: nat -> nat, run: seq<State>, i: nat)
    requires IsRun(serve, run) && i < |run|
    ensures Inv(serve, run[i])
  {
    if i > 0 {
      RunKeepsInv(serve, run, i - 1);
      assert Next(serve, run[i - 1], run[i - 1 + 1]);
      var s, s' := run[i - 1], run[i];
      var c :| FetchAdd(s, s', c) || LookUp(serve, s, s', c);
      if FetchAdd(s, s', c) {
        FetchAddKeeps(serve, s, s', c);
      } else {
        LookUpKeeps(serve, s, s', c);
      }
    }
  }

  /** The draws `t`, `t + 1`, up to `n` of them, are all finished. */
  ghost predicate Finished(s: State, t: nat, n: nat) {
    forall u: nat :: t <= u < t + n ==> u in s.served
  }

  function ServedSeq(s: State, t: nat, n: nat): (r: seq<nat>)
    requires Finished(s, t, n)
    ensures |r| == n && forall k :: 0 <= k < n ==> r[k] == s.served[t + k]
  {
    seq(n, k requires 0 <= k < n => s.served[t + k])
  }

  /** What `next` serves a ticket from. */
  function Plain(slots: seq<nat>): nat -> nat
    requires slots != []
  {
    (ticket: nat) => Pick(slots, ticket)
  }

  /** What `next_healthy` serves a ticket from while health stands still and
      nothing is excluded. */
  function Healthy(s: seq<UpstreamPool>, h: Health): nat -> nat
    requires s != []
  {
    (ticket: nat) => ScannedSlot(s, ticket, [], Frozen(h))
  }

  lemma WrappedTicket(t: nat, k: nat)
    requires t % USIZE_LIMIT + k < USIZE_LIMIT
    ensures (t + k) % USIZE_LIMIT == t % USIZE_LIMIT + k
  {
    DivMod(t, USIZE_LIMIT);
    ModUnique(t + k, USIZE_LIMIT, t / USIZE_LIMIT, t % USIZE_LIMIT + k);
  }

  /** `n` tickets from the one of draw `t` on do not meet the wrap of the
      counter, or it does not matter. */
  predicate Unwrapped(t: nat, n: nat, len: nat) {
    t % USIZE_LIMIT + n <= USIZE_LIMIT || (len > 0 && USIZE_LIMIT % len == 0)
  }

  lemma ServedPlain(slots: seq<nat>, run: seq<State>, i: nat, t: nat, n: nat)
    requires slots != [] && IsRun(Plain(slots), run) && i < |run| && Finished(run[i], t, n)
    requires Unwrapped(t, n, |slots|)
    ensures exists u: nat :: ServedSeq(run[i], t, n) == Window(slots, u, n)
  {
    RunKeepsInv(Plain(slots), run, i);
    var seamless := USIZE_LIMIT % |slots| == 0;
    var u := if seamless then t else t % USIZE_LIMIT;
    forall k | 0 <= k < n
      ensures ServedSeq(run[i], t, n)[k] == Pick(slots, u + k)
    {
      assert run[i].served[t + k] == Pick(slots, (t + k) % USIZE_LIMIT);
      if seamless {
        ModOfMod(t + k, USIZE_LIMIT, |slots|);
      } else {
        WrappedTicket(t, k);
      }
    }
    assert ServedSeq(run[i], t, n) == Window(slots, u, n);
  }

  /** In every interleaving of `next` callers, any `m` schedules' worth of
      consecutive finished draws served each upstream exactly `m` times its
      clamped weight over the divisor. */
  lemma ConcurrentShares(ws: seq<nat>, slots: seq<nat>, run: seq<State>, i: nat, t: nat, m: nat, j: nat)
    requires j < |ws| && slots == Slots(Reduced(ws)) && slots != []
    requires IsRun(Plain(slots), run) && i < |run|
    requires Finished(run[i], t, m * |slots|) && Unwrapped(t, m * |slots|, |slots|)
    ensures Count(ServedSeq(run[i], t, m * |slots|), j) * Divisor(ws) == m * Clamp(ws[j])
  {
    hide Slots, Reduced, IsRun, Unwrapped, Finished, Count, Divisor, Clamp;
    ServedPlain(slots, run, i, t, m * |slots|);
    var u: nat :| ServedSeq(run[i], t, m * |slots|) == Window(slots, u, m * |slots|);
    ExactShares(ws, u, m, j);
  }

  function SlotNumbers(len: nat): (r: seq<nat>)
    ensures |r| == len && forall x :: 0 <= x < len ==> r[x] == x
  {
    seq(len, x => x)
  }

  /** The upstream entries that served slots stand for. */
  function EntriesServed(slots: seq<nat>, served: seq<nat>): (r: seq<nat>)
    requires forall k :: 0 <= k < |served| ==> served[k] < |slots|
    ensures |r| == |served| && forall k :: 0 <= k < |r| ==> r[k] == slots[served[k]]
  {
    seq(|served|, k requires 0 <= k < |served| => slots[served[k]])
  }

  /** The same for interleaved `next_healthy` callers, while all upstreams are
      up and nothing is excluded. */
  lemma ConcurrentHealthyShares(
      pools: seq<UpstreamPool>, h: Health, slots: seq<nat>, run: seq<State>, i: nat, t: nat, m: nat, j: nat)
    requires j < |pools| && slots == Slots(Reduced(Weights(pools))) && |Expand(pools)| == |slots| > 0
    requires AllUp(Expand(pools), h) && IsRun(Healthy(Expand(pools), h), run) && i < |run|
    requires Finished(run[i], t, m * |slots|) && Unwrapped(t, m * |slots|, |slots|)
    ensures var served := ServedSeq(run[i], t, m * |slots|);
            && (forall k :: 0 <= k < |served| ==> served[k] < |slots|)
            && Count(EntriesServed(slots, served), j) * Divisor(Weights(pools)) == m * Clamp(pools[j].weight)
  {
    hide Slots, Reduced, IsRun, Unwrapped, Finished, Count, Divisor, Clamp, Expand, AllUp;
    var numbers, n := SlotNumbers(|slots|), m * |slots|;
    PlainWhenAllUp(Expand(pools), h, run);
    ServedPlain(numbers, run, i, t, n);
    var u: nat :| ServedSeq(run[i], t, n) == Window(numbers, u, n);
    assert EntriesServed(slots, Window(numbers, u, n)) == Window(slots, u, n);
    ExactShares(Weights(pools), u, m, j);
  }

  lemma PickSlotNumber(len: nat, ticket: usize)
    requires len > 0
    ensures Pick(SlotNumbers(len), ticket) == SlotAfter(len, ticket, 0)
  {
  }

  lemma PlainWhenAllUp(s: seq<UpstreamPool>, h: Health, run: seq<State>)
    requires s != [] && AllUp(s, h) && IsRun(Healthy(s, h), run)
    ensures IsRun(Plain(SlotNumbers(|s|)), run)
  {
    hide FetchAdd, ScannedSlot, Pick, AllUp;
    forall i | 0 <= i < |run| - 1
      ensures Next(Plain(SlotNumbers(|s|)), run[i], run[i + 1])
    {
      assert Next(Healthy(s, h), run[i], run[i + 1]);
      var a, b := run[i], run[i + 1];
      var c :| FetchAdd(a, b, c) || LookUp(Healthy(s, h), a, b, c);
      if LookUp(Healthy(s, h), a, b, c) {
        AllUpPicks(s, h, a.holding[c].ticket);
        PickSlotNumber(|s|, a.holding[c].ticket);
        assert LookUp(Plain(SlotNumbers(|s|)), a, b, c);
      }
    }
  }

  /** With health standing still but not all up, a schedule's worth of
      consecutive finished draws of `next_healthy` callers redistributes the
      unhealthy slots' turns, in every interleaving. */
  lemma ConcurrentRedistribution(s: seq<UpstreamPool>, h: Health, run: seq<State>, i: nat, t: nat)
    requires s != [] && SomeUp(s, h) && IsRun(Healthy(s, h), run) && i < |run|
    requires Finished(run[i], t, |s|) && Unwrapped(t, 2 * |s|, |s|)
    ensures Counts(ServedSeq(run[i], t, |s|), |s|) == Shares(s, h)
  {
    hide ServingSlot, ScannedSlot, Shares, SomeUp;
    RunKeepsInv(Healthy(s, h), run, i);
    hide IsRun;
    var seamless := USIZE_LIMIT % |s| == 0;
    var u := if seamless then t else t % USIZE_LIMIT;
    forall k | 0 <= k < |s|
      ensures ServedSeq(run[i], t, |s|)[k] == ServingSlot(s, h, u + k)
    {
      var ticket := (t + k) % USIZE_LIMIT;
      assert run[i].served[t + k] == ScannedSlot(s, ticket, [], Frozen(h));
      if seamless {
        ServingSlotPeriodic(s, h, t + k);
        ServingSlotPeriodic(s, h, ticket);
        ModOfMod(t + k, USIZE_LIMIT, |s|);
      } else {
        WrappedTicket(t, k);
      }
      ScannedIsServing(s, h, ticket);
    }
    assert ServedSeq(run[i], t, |s|) == Served(s, h, u, |s|);
    SharesRedistributed(s, h, u);
  }

  /** Whenever no caller is between its two steps, the finished draws are
      exactly the ones made. */
  lemma QuiescentServed(serve: nat -> nat, run: seq<State>, i: nat)
    requires IsRun(serve, run) && i < |run| && run[i].holding == map[]
    ensures forall t: nat :: t in run[i].served <==> t < run[i].drawn
  {
    RunKeepsInv(serve, run, i);
  }

  /** The wrap of the ticket counter at the end of `usize` goes unnoticed for
      exactly those schedules whose length divides the counter's range. */
  lemma WrapIsSeamless(len: nat)
    requires len > 0
    ensures (forall t: nat :: (t % USIZE_LIMIT) % len == t % len) <==> USIZE_LIMIT % len == 0
  {
    if forall t: nat :: (t % USIZE_LIMIT) % len == t % len {
      var t: nat := USIZE_LIMIT;
      assert t % USIZE_LIMIT == 0;
      assert (t % USIZE_LIMIT) % len == t % len;
    }
    if USIZE_LIMIT % len == 0 {
      forall t: nat
        ensures (t % USIZE_LIMIT) % len == t % len
      {
        ModOfMod(t, USIZE_LIMIT, len);
      }
    }
  }
}
