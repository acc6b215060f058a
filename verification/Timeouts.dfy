/** What a route's timeout bounds. */
module Timeouts {
  import opened Wrappers
  import opened Arithmetic
  import opened Strings
  import opened Addresses
  import opened Headers
  import opened LoadBalancing
  import opened Configuration
  import opened Engine
  import opened AttemptProperties
  import opened RetryProgress

  /** What keeps an address from being used: it does not split, the URI parser
      refuses its host and port, or they cannot be a Host value. */
  ghost predicate Refused(addr: string, parses: string -> bool) {
    match HostPort(addr)
    case Err(_) => true
    case Ok((host, port)) =>
      !parses(host + ":" + Decimal(port)) || !ValidValue(host + ":" + Decimal(port))
  }

  lemma RefusedExactly(addr: string, parses: string -> bool)
    ensures Refused(addr, parses) <==> !Usable(addr, parses)
  {
    hide HostPort, ValidValue;
  }

  /** An attempt at such an address fails before anything is sent, and not for
      want of a connection. */
  ghost predicate RefusesUnparsed(w: World, parses: string -> bool) {
    forall k: nat, addr :: Refused(addr, parses) ==> w.outcome(k, addr) == OtherError
  }

  lemma UnusableFails(job: Job, w: World, parses: string -> bool, k: nat, addr: string)
    requires RefusesUnparsed(w, parses) && !Usable(addr, parses)
    ensures OutcomeAt(job, w, k, addr) == OtherError
  {
    hide Usable, Sent, Refused;
    RefusedExactly(addr, parses);
  }

  lemma UsableIsSent(job: Job, parses: string -> bool, addr: string)
    requires Usable(addr, parses)
    ensures Sent(job, addr).Some?
  {
    hide AttemptHead;
  }

  /** A different ticket for every attempt, while the range lasts. */
  function SomeTicket(len: nat, k: nat): usize {
    if k + len < USIZE_LIMIT then k else 0
  }

  function Refusal(usable: bool): Outcome {
    if usable then ConnectError else OtherError
  }

  /** The upstream in slot `x` of the schedule, the only one whose flag is up,
      refuses every connection as late as it can. */
  function SlowRefusals(s: seq<UpstreamPool>, x: nat, timeout: nat, parses: string -> bool): World
    requires x < |s|
  {
    World(
      (k: nat) => Some(s),
      (k: nat) => SomeTicket(|s|, k),
      (k: nat, n: nat, a: string) => a == s[x].addr,
      (k: nat, a: string) => Refusal(Usable(a, parses)),
      (k: nat) => timeout)
  }

  lemma OnlyOneUp(s: seq<UpstreamPool>, x: nat, start: usize, exclude: seq<string>, health: HealthReads)
    requires x < |s| && InOrder(|s|, start) && forall n: nat, a :: health(n, a) <==> a == s[x].addr
    ensures Select(s, start, exclude, health).Some? && Select(s, start, exclude, health).value.addr == s[x].addr
  {
    SelectionUnderInterference(s, start, exclude, health);
    hide Scan, Choose, Select, InOrder;
    assert Serves(s, s[x].addr);
    assert StaysHealthy(health, s[x].addr);
  }

  lemma SlowRefusalsBehave(
      job: Job, s: seq<UpstreamPool>, x: nat, timeout: nat, parses: string -> bool, k: nat, tried: seq<string>)
    requires x < |s| <= USIZE_LIMIT && Usable(s[x].addr, parses)
    ensures var w := SlowRefusals(s, x, timeout, parses);
            && SteadySchedule(w, s, job.limit) && WithinTimeout(w, timeout) && RefusesUnparsed(w, parses)
            && Chosen(w, k, tried) == Some(s[x].addr)
            && OutcomeAt(job, w, k, s[x].addr) == ConnectError && w.waited(k) == timeout
  {
    hide Select, Sent, Usable, Refused;
    var w := SlowRefusals(s, x, timeout, parses);
    forall addr
      ensures Refused(addr, parses) <==> !Usable(addr, parses)
    {
      RefusedExactly(addr, parses);
    }
    assert InOrder(|s|, w.ticket(k));
    hide InOrder;
    OnlyOneUp(s, x, w.ticket(k), tried, HealthAt(w.health, k));
    UsableIsSent(job, parses, s[x].addr);
  }

  lemma {:induction false} SlowRefusalsWait(
      job: Job, s: seq<UpstreamPool>, x: nat, timeout: nat, parses: string -> bool, k: nat, tried: seq<string>)
    requires x < |s| <= USIZE_LIMIT && Usable(s[x].addr, parses) && job.canRetry && k <= job.limit
    ensures Waited(Attempts(job, SlowRefusals(s, x, timeout, parses), k, tried).0) == (job.limit - k) * timeout
    decreases job.limit - k
  {
    hide Attempts, Chosen, Sent, Usable, ReplyFits, SlowRefusals, RefusesUnparsed;
    var w := SlowRefusals(s, x, timeout, parses);
    OneMore(job.limit - k, timeout);
    if k < job.limit {
      SlowRefusalsBehave(job, s, x, timeout, parses, k, tried);
      LoopGoesOn(job, w, k, tried);
      SlowRefusalsWait(job, s, x, timeout, parses, k + 1, tried + [s[x].addr]);
    } else {
      LoopEnds(job, w, k, tried);
    }
  }

  /** An upstream whose address is unusable ends the loop. */
  lemma UnusableEnds(job: Job, s: seq<UpstreamPool>, w: World, timeout: nat, parses: string -> bool)
    requires SteadySchedule(w, s, job.limit) && WithinTimeout(w, timeout) && RefusesUnparsed(w, parses)
    requires forall x :: 0 <= x < |s| ==> !Usable(s[x].addr, parses)
    ensures Waited(Attempts(job, w, 0, []).0) <= timeout
  {
    hide Attempts, Sent, Usable, ReplyFits, Select, RefusesUnparsed;
    if job.limit > 0 && s != [] {
      SelectionUnderInterference(s, w.ticket(0), [], HealthAt(w.health, 0));
      hide Scan, Choose;
      var u := Select(s, w.ticket(0), [], HealthAt(w.health, 0)).value;
      assert Chosen(w, 0, []) == Some(u.addr);
      assert u in s && !Usable(u.addr, parses);
      UnusableFails(job, w, parses, 0, u.addr);
      assert !GoesOn(job, w, 0, []);
    }
    ChosenExact(w, 0, []);
    LoopEnds(job, w, 0, []);
  }

  /** The schedule of a route. */
  function RouteSchedule(r: Route): seq<UpstreamPool> {
    Expand(Pools(r.upstreams))
  }

  ghost predicate Lists(us: seq<Upstream>, addr: string) {
    exists j :: 0 <= j < |us| && us[j].addr == addr
  }

  lemma ListedIsServed(r: Route, addr: string)
    ensures Serves(RouteSchedule(r), addr) <==> Lists(r.upstreams, addr)
  {
    hide Expand;
    var pools := Pools(r.upstreams);
    ExpandServesAll(pools, addr);
    if j :| 0 <= j < |r.upstreams| && r.upstreams[j].addr == addr {
      assert pools[j].addr == addr;
    }
  }

  /** No listed address can be used. */
  ghost predicate NoneUsable(us: seq<Upstream>, parses: string -> bool) {
    forall j :: 0 <= j < |us| ==> Refused(us[j].addr, parses)
  }

  /** However its upstreams behave within the timeout, the request waits no
      longer than it. */
  ghost predicate TimeoutBounds(req: Request, r: Route, client: Client, parses: string -> bool) {
    forall w :: BehavesFor(w, req, r, parses) ==>
      Waited(Attempts(JobOf(req, r, client), w, 0, []).0) <= TotalTimeout(r)
  }

  /** Surroundings the request can have: its own route's schedule, exchanges
      within its timeout, and failures where the URI parser refuses. */
  ghost predicate BehavesFor(w: World, req: Request, r: Route, parses: string -> bool) {
    && SteadySchedule(w, RouteSchedule(r), EffectiveAttempts(req, r))
    && WithinTimeout(w, TotalTimeout(r)) && RefusesUnparsed(w, parses)
  }

  lemma WaitsTooLong(job: Job, s: seq<UpstreamPool>, x: nat, timeout: nat, parses: string -> bool)
    requires x < |s| <= USIZE_LIMIT && Usable(s[x].addr, parses) && job.canRetry && job.limit > 1 && timeout > 0
    ensures var w := SlowRefusals(s, x, timeout, parses);
            && SteadySchedule(w, s, job.limit) && WithinTimeout(w, timeout) && RefusesUnparsed(w, parses)
            && Waited(Attempts(job, w, 0, []).0) > timeout
  {
    hide Attempts, Usable, SlowRefusals, WithinTimeout, SteadySchedule, Waited, Chosen, OutcomeAt, RefusesUnparsed;
    SlowRefusalsBehave(job, s, x, timeout, parses, 0, []);
    SlowRefusalsWait(job, s, x, timeout, parses, 0, []);
    MoreThanOnce(job.limit, timeout);
  }

  lemma MoreThanOnce(n: nat, timeout: nat)
    requires n > 1 && timeout > 0
    ensures n * timeout > timeout
  {
    MulSucc(n, timeout);
    MulMonotone(timeout, 1, n - 1);
  }

  lemma LongWait(req: Request, r: Route, client: Client, parses: string -> bool)
    requires EffectiveAttempts(req, r) > 1 && TotalTimeout(r) > 0 && !NoneUsable(r.upstreams, parses)
    requires |RouteSchedule(r)| <= USIZE_LIMIT
    ensures !TimeoutBounds(req, r, client, parses)
  {
    hide Attempts, Usable, SlowRefusals, WithinTimeout, SteadySchedule, RouteSchedule, Waited, MaxAttempts;
    hide Replayable, RefusesUnparsed;
    var s, timeout := RouteSchedule(r), TotalTimeout(r);
    hide TotalTimeout;
    hide Refused;
    var j :| 0 <= j < |r.upstreams| && !Refused(r.upstreams[j].addr, parses);
    RefusedExactly(r.upstreams[j].addr, parses);
    assert Lists(r.upstreams, r.upstreams[j].addr);
    ListedIsServed(r, r.upstreams[j].addr);
    var x :| 0 <= x < |s| && s[x].addr == r.upstreams[j].addr;
    WaitsTooLong(JobOf(req, r, client), s, x, timeout, parses);
    assert BehavesFor(SlowRefusals(s, x, timeout, parses), req, r, parses);
  }

  lemma NoneUsableServed(r: Route, parses: string -> bool)
    requires NoneUsable(r.upstreams, parses)
    ensures forall x :: 0 <= x < |RouteSchedule(r)| ==> !Usable(RouteSchedule(r)[x].addr, parses)
  {
    hide RouteSchedule, Usable, Refused;
    forall x | 0 <= x < |RouteSchedule(r)|
      ensures !Usable(RouteSchedule(r)[x].addr, parses)
    {
      assert Serves(RouteSchedule(r), RouteSchedule(r)[x].addr);
      ListedIsServed(r, RouteSchedule(r)[x].addr);
      RefusedExactly(RouteSchedule(r)[x].addr, parses);
    }
  }

  lemma ShortWait(req: Request, r: Route, client: Client, w: World, parses: string -> bool)
    requires BehavesFor(w, req, r, parses)
    requires EffectiveAttempts(req, r) == 1 || TotalTimeout(r) == 0 || NoneUsable(r.upstreams, parses)
    ensures Waited(Attempts(JobOf(req, r, client), w, 0, []).0) <= TotalTimeout(r)
  {
    hide Attempts, Usable, SteadySchedule, RouteSchedule, Waited, MaxAttempts, Replayable, RefusesUnparsed;
    var job := JobOf(req, r, client);
    WaitingBounded(job, w, 0, [], TotalTimeout(r));
    if NoneUsable(r.upstreams, parses) {
      NoneUsableServed(r, parses);
      UnusableEnds(job, RouteSchedule(r), w, TotalTimeout(r), parses);
    }
  }

  /** The configured total timeout bounds a whole request exactly when the
      request has a single attempt, the timeout is zero, or none of the route's
      addresses can be used: it restarts with every attempt. No vector is longer
      than `usize` counts, so neither is a schedule. */
  lemma TimeoutBoundsRequestExactly(req: Request, r: Route, client: Client, parses: string -> bool)
    requires |RouteSchedule(r)| <= USIZE_LIMIT
    ensures TimeoutBounds(req, r, client, parses) <==>
            || EffectiveAttempts(req, r) == 1 || TotalTimeout(r) == 0
            || NoneUsable(r.upstreams, parses)
  {
    hide Attempts, NoneUsable, BehavesFor, RouteSchedule, Waited, EffectiveAttempts, TotalTimeout;
    if EffectiveAttempts(req, r) == 1 || TotalTimeout(r) == 0 || NoneUsable(r.upstreams, parses) {
      forall w | BehavesFor(w, req, r, parses)
        ensures Waited(Attempts(JobOf(req, r, client), w, 0, []).0) <= TotalTimeout(r)
      {
        ShortWait(req, r, client, w, parses);
      }
    } else {
      LongWait(req, r, client, parses);
    }
  }
}
