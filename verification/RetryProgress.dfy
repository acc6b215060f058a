/** Retries make progress: while healthy upstreams are left, every attempt goes
    to a new address. */
module RetryProgress {
  import opened Wrappers
  import opened Headers
  import opened Arithmetic
  import opened Schedule
  import opened LoadBalancing
  import opened Configuration
  import opened Engine
  import opened AttemptProperties
  import opened Redistribution

  /** The route keeps one schedule for the whole request: no reload overlaps. */
  ghost predicate SteadySchedule(w: World, s: seq<UpstreamPool>, limit: nat) {
    forall k: nat :: k < limit ==> w.schedule(k) == Some(s)
  }

  /** However often it is read during the request, the flag of `a` is up. */
  ghost predicate HealthyThroughout(w: World, a: string) {
    forall k: nat, n: nat :: w.health(k, n, a)
  }

  function AddressesOf(s: seq<UpstreamPool>): set<string> {
    set k | 0 <= k < |s| :: s[k].addr
  }

  lemma {:induction false} SetOfSeq(tried: seq<string>)
    ensures |set a | a in tried| <= |tried|
  {
    if tried != [] {
      var n := |tried| - 1;
      SetOfSeq(tried[..n]);
      assert (set a | a in tried) == (set a | a in tried[..n]) + {tried[n]};
    }
  }

  lemma SomethingUntried(h: set<string>, tried: seq<string>) returns (a: string)
    requires |tried| < |h|
    ensures a in h && a !in tried
  {
    SetOfSeq(tried);
    var t := set a | a in tried;
    if h <= t {
      SubsetSize(h, t);
    }
    a :| a in h && a !in t;
  }

  lemma {:induction false} SubsetSize(a: set<string>, b: set<string>)
    requires a <= b
    ensures |a| <= |b|
  {
    if a != {} {
      var x :| x in a;
      SubsetSize(a - {x}, b - {x});
    }
  }

  /** Every scan of the request looks at every upstream of `h`. */
  ghost predicate ScansReach(w: World, s: seq<UpstreamPool>, h: set<string>, limit: nat) {
    forall k: nat, a :: k < limit && a in h ==> ScanReaches(w, s, k, a)
  }

  ghost predicate ScanReaches(w: World, s: seq<UpstreamPool>, k: nat, a: string) {
    s != [] && Serves(Scan(s, w.ticket(k)), a)
  }

  /** Scans in order reach every upstream of the schedule. */
  lemma InOrderReaches(w: World, s: seq<UpstreamPool>, h: set<string>, limit: nat)
    requires h <= AddressesOf(s) && forall k: nat :: k < limit ==> InOrder(|s|, w.ticket(k))
    ensures ScansReach(w, s, h, limit)
  {
    hide Scan, InOrder;
    forall k: nat, a | k < limit && a in h
      ensures ScanReaches(w, s, k, a)
    {
      assert Serves(s, a);
      ScanServes(s, w.ticket(k), a);
    }
  }

  lemma ReachedIsListed(w: World, s: seq<UpstreamPool>, k: nat, a: string)
    requires ScanReaches(w, s, k, a)
    ensures a in AddressesOf(s)
  {
    hide Scan;
    ScanServes(s, w.ticket(k), a);
  }

  /** With a healthy untried upstream within reach, the choice is an untried
      one, whatever ticket is drawn and whatever other flags flip. */
  lemma ChoiceIsFresh(w: World, s: seq<UpstreamPool>, k: nat, tried: seq<string>, a: string)
    requires w.schedule(k) == Some(s) && ScanReaches(w, s, k, a) && HealthyThroughout(w, a) && a !in tried
    ensures Chosen(w, k, tried).Some?
    ensures Chosen(w, k, tried).value !in tried && Chosen(w, k, tried).value in AddressesOf(s)
  {
    SelectionUnderInterference(s, w.ticket(k), tried, HealthAt(w.health, k));
    hide Scan, Select, Choose;
    var u := Select(s, w.ticket(k), tried, HealthAt(w.health, k)).value;
    assert StaysHealthy(HealthAt(w.health, k), a);
    var i :| 0 <= i < |s| && s[i] == u;
    assert s[i].addr in AddressesOf(s);
  }

  /** The attempts whose number is below the number of upstreams that stay
      healthy go to pairwise different addresses, none tried before. */
  lemma {:induction false} FirstAttemptsDiffer(
      job: Job, w: World, s: seq<UpstreamPool>, h: set<string>, k: nat, tried: seq<string>)
    requires SteadySchedule(w, s, job.limit) && ScansReach(w, s, h, job.limit)
    requires forall a :: a in h ==> HealthyThroughout(w, a)
    requires |tried| == k
    ensures var attempts := Attempts(job, w, k, tried).0;
            && (forall i :: 0 <= i < |attempts| && k + i < |h| ==> attempts[i].addr !in tried)
            && (forall i, j :: 0 <= i < j < |attempts| && k + j < |h| ==> attempts[i].addr != attempts[j].addr)
    decreases job.limit - k
  {
    hide Attempts, Chosen, Sent, ReplyFits, ScanReaches;
    if k < |h| && k < job.limit {
      var a := SomethingUntried(h, tried);
      ChoiceIsFresh(w, s, k, tried, a);
    }
    if GoesOn(job, w, k, tried) {
      LoopGoesOn(job, w, k, tried);
      FirstAttemptsDiffer(job, w, s, h, k + 1, tried + [Chosen(w, k, tried).value]);
    } else {
      LoopEnds(job, w, k, tried);
    }
  }

  /** Every exchange ends in an answer or in a failure to connect, and always
      in an answer at `a`. */
  ghost predicate AnswersAt(job: Job, w: World, s: seq<UpstreamPool>, a: string) {
    forall k: nat, b :: b in AddressesOf(s) ==>
      OutcomeAt(job, w, k, b).Answered? || (b != a && OutcomeAt(job, w, k, b).ConnectError?)
  }

  ghost predicate Distinct(tried: seq<string>) {
    forall i, j :: 0 <= i < j < |tried| ==> tried[i] != tried[j]
  }

  lemma {:induction false} DistinctSize(tried: seq<string>, pool: set<string>)
    requires Distinct(tried) && forall a :: a in tried ==> a in pool
    ensures |tried| <= |pool|
  {
    if tried != [] {
      var n := |tried| - 1;
      assert tried[n] in tried;
      assert forall i :: 0 <= i < n ==> tried[..n][i] == tried[i];
      DistinctSize(tried[..n], pool - {tried[n]});
    }
  }

  lemma RoomForAnother(s: seq<UpstreamPool>, a: string, addr: string, tried: seq<string>)
    requires Distinct(tried) && forall b :: b in tried ==> b in AddressesOf(s)
    requires a in AddressesOf(s) && a !in tried
    ensures |tried| + 1 <= |AddressesOf(s)|
    ensures addr in AddressesOf(s) && addr !in tried && addr != a ==> |tried| + 2 <= |AddressesOf(s)|
  {
    hide AddressesOf;
    DistinctSize(tried + [a], AddressesOf(s));
    if addr in AddressesOf(s) && addr !in tried && addr != a {
      DistinctSize(tried + [a, addr], AddressesOf(s));
    }
  }

  lemma AnsweredReply(job: Job, w: World, k: nat, tried: seq<string>)
    requires k < job.limit && Chosen(w, k, tried).Some?
    requires OutcomeAt(job, w, k, Chosen(w, k, tried).value).Answered?
    ensures Attempts(job, w, k, tried).1.Proxied?
  {
    hide Chosen, OutcomeAt, Strip, ApplyOverrides;
  }

  lemma {:induction false} ReachesHealthy(
      job: Job, w: World, s: seq<UpstreamPool>, a: string, k: nat, tried: seq<string>)
    requires SteadySchedule(w, s, job.limit) && HealthyThroughout(w, a) && AnswersAt(job, w, s, a)
    requires a in AddressesOf(s) && ScansReach(w, s, {a}, job.limit)
    requires |AddressesOf(s)| <= job.limit && (!job.canRetry ==> job.limit <= 1)
    requires |tried| == k && Distinct(tried) && a !in tried && forall b :: b in tried ==> b in AddressesOf(s)
    ensures Attempts(job, w, k, tried).1.Proxied?
    decreases job.limit - k
  {
    hide Attempts, Chosen, Sent, OutcomeAt, AddressesOf, HealthyThroughout, ScanReaches;
    RoomForAnother(s, a, a, tried);
    assert ScanReaches(w, s, k, a);
    ChoiceIsFresh(w, s, k, tried, a);
    var addr := Chosen(w, k, tried).value;
    RoomForAnother(s, a, addr, tried);
    if OutcomeAt(job, w, k, addr).Answered? {
      AnsweredReply(job, w, k, tried);
    } else {
      LoopGoesOn(job, w, k, tried);
      ReachesHealthy(job, w, s, a, k + 1, tried + [addr]);
    }
  }

  /** Retry progress under interference: let `h` be upstreams that stay healthy
      for the whole request and within reach of its scans, no reload
      overlapping. The first |h| attempts go to pairwise different addresses;
      and if there are at least as many attempts as addresses, one of `h`
      answers and all others answer or fail to connect, the client gets the
      answer. */
  lemma RetriesProgress(req: Request, r: Route, client: Client, w: World, s: seq<UpstreamPool>, h: set<string>)
    requires SteadySchedule(w, s, EffectiveAttempts(req, r)) && ScansReach(w, s, h, EffectiveAttempts(req, r))
    requires forall a :: a in h ==> HealthyThroughout(w, a)
    ensures var (attempts, reply) := Attempts(JobOf(req, r, client), w, 0, []);
            && (forall i, j :: 0 <= i < j < |attempts| && j < |h| ==> attempts[i].addr != attempts[j].addr)
            && (|AddressesOf(s)| <= EffectiveAttempts(req, r) &&
                (exists a :: a in h && AnswersAt(JobOf(req, r, client), w, s, a))
                ==> reply.Proxied?)
  {
    hide Attempts, AddressesOf, ScanReaches, AnswersAt, HealthyThroughout;
    var job := JobOf(req, r, client);
    FirstAttemptsDiffer(job, w, s, h, 0, []);
    if |AddressesOf(s)| <= job.limit && exists a :: a in h && AnswersAt(job, w, s, a) {
      var a :| a in h && AnswersAt(job, w, s, a);
      ReachedIsListed(w, s, 0, a);
      ReachesHealthy(job, w, s, a, 0, []);
    }
  }

  lemma ThreeToOneWeights()
    ensures Reduced([3, 1]) == [3, 1]
  {
    var ws: seq<nat> := [3, 1];
    assert Clamped(ws) == ws;
    assert ws[..1] == [3] && ws[..1][..0] == [];
    assert GcdAll([]) == 0 && Gcd(3, 0) == 3 && Gcd(0, 3) == 3;
    assert GcdAll(ws[..1]) == 3;
    assert Gcd(1, 0) == 1 && Gcd(3, 1) == 1;
    assert GcdAll(ws) == 1;
    assert Divisor(ws) == 1;
  }

  lemma RoundOfOne(w: nat, i: nat)
    ensures Round([w], i) == if i < w then [0] else []
  {
    assert [w][..0] == [];
    assert Round([], i) == [];
    assert Last([w], i) == if i < w then [0] else [];
  }

  lemma RoundOfTwo(v: nat, w: nat, i: nat)
    ensures Round([v, w], i) == (if i < v then [0] else []) + if i < w then [1] else []
  {
    assert [v, w][..1] == [v];
    RoundOfOne(v, i);
    assert Last([v, w], i) == if i < w then [1] else [];
  }

  lemma ThreeToOneSlots()
    ensures Slots([3, 1]) == [0, 1, 0, 0]
  {
    var ws: seq<nat> := [3, 1];
    assert ws[..1] == [3] && MaxWeight(ws[..1]) == 3;
    assert MaxWeight(ws) == 3;
    RoundOfTwo(3, 1, 0);
    RoundOfTwo(3, 1, 1);
    RoundOfTwo(3, 1, 2);
    hide Round;
    assert Rounds(ws, 0) == [];
    assert Rounds(ws, 1) == [0, 1];
    assert Rounds(ws, 2) == [0, 1, 0];
    assert Rounds(ws, 3) == [0, 1, 0, 0];
  }

  /** The schedule of weights 3 and 1. */
  lemma ThreeToOne(a: string, b: string)
    ensures Expand([UpstreamPool(a, 3), UpstreamPool(b, 1)]) ==
            [UpstreamPool(a, 3), UpstreamPool(b, 1), UpstreamPool(a, 3), UpstreamPool(a, 3)]
  {
    var pools := [UpstreamPool(a, 3), UpstreamPool(b, 1)];
    assert Weights(pools) == [3, 1];
    ThreeToOneWeights();
    ThreeToOneSlots();
    hide Reduced, Slots;
    assert Weights(ReducedPools(pools)) == [3, 1];
    assert ReducedPools(pools) == pools;
  }

  lemma AllDownChoice(w: World, s: seq<UpstreamPool>, k: nat, tried: seq<string>)
    requires w.schedule(k) == Some(s) && s != [] && forall n: nat, addr :: !w.health(k, n, addr)
    ensures Chosen(w, k, tried) == Some(Pick(s, w.ticket(k)).addr)
  {
    SelectionUnderInterference(s, w.ticket(k), tried, HealthAt(w.health, k));
    hide Scan, Choose;
    assert forall n: nat, addr :: !HealthAt(w.health, k)(n, addr);
  }

  lemma HeavyTickets(a: UpstreamPool, b: UpstreamPool)
    ensures Pick([a, b, a, a], 2) == a && Pick([a, b, a, a], 3) == a
  {
  }

  lemma TwoFailures(job: Job, w: World, a: string)
    requires job.canRetry && job.limit == 2
    requires Chosen(w, 0, []) == Some(a) && Chosen(w, 1, [a]) == Some(a)
    requires forall k: nat :: OutcomeAt(job, w, k, a).ConnectError?
    ensures var attempts := Attempts(job, w, 0, []).0;
            |attempts| == 2 && attempts[0].addr == attempts[1].addr == a
  {
    hide Sent, OutcomeAt, Chosen, Attempts, ReplyFits;
    LoopEnds(job, w, 2, [a] + [a]);
    assert Attempts(job, w, 2, [a] + [a]).0 == [];
    AttemptsAfterFailure(job, w, 1, [a], a);
    assert Attempts(job, w, 1, [a]).0 == [AttemptAt(job, w, 1, a)];
    assert [] + [a] == [a];
    AttemptsAfterFailure(job, w, 0, [], a);
    assert Attempts(job, w, 0, []).0 == [AttemptAt(job, w, 0, a), AttemptAt(job, w, 1, a)];
  }

  /** Without an untried upstream that stays healthy the guarantee is gone: with
      weights 3 and 1, everything unhealthy and ticket 2 first, both attempts
      go to the heavier upstream although the other was never tried. */
  lemma FailOpenMayRepeat(job: Job, w: World, a: string, b: string)
    requires job.canRetry && job.limit == 2
    requires SteadySchedule(w, Expand([UpstreamPool(a, 3), UpstreamPool(b, 1)]), 2)
    requires forall k: nat, n: nat, addr :: !w.health(k, n, addr)
    requires w.ticket(0) == 2 && w.ticket(1) == 3
    requires forall k: nat :: OutcomeAt(job, w, k, a).ConnectError?
    ensures var attempts := Attempts(job, w, 0, []).0;
            |attempts| == 2 && attempts[0].addr == attempts[1].addr == a
  {
    hide Sent, OutcomeAt, Expand, Chosen, Attempts, Pick;
    ThreeToOne(a, b);
    var x, y := UpstreamPool(a, 3), UpstreamPool(b, 1);
    HeavyTickets(x, y);
    AllDownChoice(w, [x, y, x, x], 0, []);
    AllDownChoice(w, [x, y, x, x], 1, [a]);
    TwoFailures(job, w, a);
  }

  ghost predicate UntriedUp(s: seq<UpstreamPool>, exclude: seq<string>, h: Health) {
    exists x :: 0 <= x < |s| && s[x].addr !in exclude && h(s[x].addr)
  }

  /** Which candidate is chosen while health stands still. */
  lemma FrozenChoice(w: seq<UpstreamPool>, exclude: seq<string>, h: Health)
    requires w != []
    ensures var o := Offset(Choose(w, exclude, Frozen(h)));
            o < |w| &&
            (w[o].addr !in exclude <==>
               UntriedUp(w, exclude, h) || (!SomeUp(w, h) && w[0].addr !in exclude))
  {
    hide StaysHealthy, Untried, AnyHealthy;
    var (_, n) := Untried(w, exclude, Frozen(h), 0, 0);
    UntriedMeaning(w, exclude, Frozen(h), 0, 0);
    AnyHealthyMeaning(w, Frozen(h), 0, n);
    forall a
      ensures StaysHealthy(Frozen(h), a) <==> h(a)
    {
      FrozenHealth(h, a);
    }
  }

  lemma SelectIsChoice(s: seq<UpstreamPool>, start: usize, exclude: seq<string>, health: HealthReads)
    requires s != []
    ensures var o := Offset(Choose(Scan(s, start), exclude, health));
            o < |s| ==> Select(s, start, exclude, health) == Some(Scan(s, start)[o])
    ensures Scan(s, start)[0] == Pick(s, start)
  {
    hide Choose;
  }

  lemma InOrderSeesAll(s: seq<UpstreamPool>, start: usize, exclude: seq<string>, h: Health)
    requires s != [] && InOrder(|s|, start)
    ensures UntriedUp(Scan(s, start), exclude, h) <==> UntriedUp(s, exclude, h)
    ensures SomeUp(Scan(s, start), h) <==> SomeUp(s, h)
  {
    hide InOrder, Scan, UntriedUp, SomeUp, Serves;
    UpByAddress(Scan(s, start), exclude, h);
    UpByAddress(s, exclude, h);
    forall a
      ensures Serves(Scan(s, start), a) <==> Serves(s, a)
    {
      ScanServes(s, start, a);
    }
  }

  /** Exactly when a retry goes to an upstream not tried before, with health
      standing still: some untried upstream its scan looks at is up, or none of
      those is up at all and the ticket itself falls on an untried one. In order
      the scan looks at every upstream. */
  lemma RetryGoesElsewhere(s: seq<UpstreamPool>, start: usize, exclude: seq<string>, h: Health)
    requires s != []
    ensures var w := Scan(s, start);
            Select(s, start, exclude, Frozen(h)).value.addr !in exclude <==>
            UntriedUp(w, exclude, h) || (!SomeUp(w, h) && Pick(s, start).addr !in exclude)
    ensures InOrder(|s|, start) ==>
              && (UntriedUp(Scan(s, start), exclude, h) <==> UntriedUp(s, exclude, h))
              && (SomeUp(Scan(s, start), h) <==> SomeUp(s, h))
  {
    hide InOrder, Choose, UntriedUp, SomeUp, Select, Scan, Pick;
    FrozenChoice(Scan(s, start), exclude, h);
    SelectIsChoice(s, start, exclude, Frozen(h));
    if InOrder(|s|, start) {
      InOrderSeesAll(s, start, exclude, h);
    }
  }

  lemma UpByAddress(s: seq<UpstreamPool>, exclude: seq<string>, h: Health)
    ensures SomeUp(s, h) <==> exists a :: Serves(s, a) && h(a)
    ensures UntriedUp(s, exclude, h) <==> exists a :: Serves(s, a) && h(a) && a !in exclude
  {
    if x :| 0 <= x < |s| && h(s[x].addr) {
      assert Serves(s, s[x].addr);
    }
    if x :| 0 <= x < |s| && s[x].addr !in exclude && h(s[x].addr) {
      assert Serves(s, s[x].addr);
    }
  }

  lemma FrozenHealth(h: Health, a: string)
    ensures StaysHealthy(Frozen(h), a) <==> h(a)
  {
    assert Frozen(h)(0, a) == h(a);
  }

  /** Out of order, at the wrap of the counter, a retry goes back to the only
      upstream it tried although another is up. */
  lemma WrapBreaksRetry(a: UpstreamPool, b: UpstreamPool, c: UpstreamPool, h: Health)
    requires a.addr != c.addr && b.addr != c.addr && forall addr :: h(addr) <==> addr == c.addr
    ensures UntriedUp([a, b, c], [a.addr], h)
    ensures Select([a, b, c], USIZE_LIMIT - 1, [a.addr], Frozen(h)) == Some(a)
  {
    var s := [a, b, c];
    assert s[2].addr == c.addr;
    WrapMissesSlot(a, b, c);
    SelectionUnderInterference(s, USIZE_LIMIT - 1, [a.addr], Frozen(h));
    hide Scan, Select;
    assert forall k :: 0 <= k < 3 ==> !h([a, a, b][k].addr);
  }
}
