/** What every run of the attempt loop guarantees: delivery at most once,
    bounded waiting, honest counters, and progress towards a healthy upstream. */
module AttemptProperties {
  import opened Wrappers
  import opened Headers
  import opened Configuration
  import opened Engine

  /** A reply says how the last attempt ended. */
  ghost predicate ReplyFits(job: Job, attempts: seq<Attempt>, reply: Reply) {
    match reply
    case Proxied(h) =>
      && attempts != [] && attempts[|attempts| - 1].outcome.Answered?
      && h == ApplyOverrides(Strip(attempts[|attempts| - 1].outcome.head), job.responseHeaders)
    case GatewayTimeout => attempts != [] && attempts[|attempts| - 1].outcome.TimedOut?
    case BadGateway =>
      attempts == [] || attempts[|attempts| - 1].outcome.ConnectError? || attempts[|attempts| - 1].outcome.OtherError?
    case NoUpstreams => attempts == [] || attempts[|attempts| - 1].outcome.ConnectError?
    case _ => false
  }

  /** The number of servers that may have seen the request. */
  function Delivered(attempts: seq<Attempt>): nat {
    if attempts == [] then 0
    else (if attempts[0].outcome.ConnectError? then 0 else 1) + Delivered(attempts[1..])
  }

  /** The loop goes on after attempt `k` if it failed to connect and retries
      are allowed. */
  ghost predicate GoesOn(job: Job, w: World, k: nat, tried: seq<string>) {
    && k < job.limit && job.canRetry
    && Chosen(w, k, tried).Some? && OutcomeAt(job, w, k, Chosen(w, k, tried).value).ConnectError?
  }

  /** Otherwise it ends there, with at most one attempt more. */
  lemma LoopEnds(job: Job, w: World, k: nat, tried: seq<string>)
    requires !GoesOn(job, w, k, tried)
    ensures var (attempts, reply) := Attempts(job, w, k, tried);
            && ReplyFits(job, attempts, reply)
            && (attempts == [] <==> k >= job.limit || Chosen(w, k, tried).None?)
            && (attempts != [] ==> attempts == [AttemptAt(job, w, k, Chosen(w, k, tried).value)])
            && (reply.NoUpstreams? <==> k < job.limit && Chosen(w, k, tried).None?)
  {
    hide Sent, Strip, ApplyOverrides, Chosen;
  }

  lemma LoopGoesOn(job: Job, w: World, k: nat, tried: seq<string>)
    requires GoesOn(job, w, k, tried)
    ensures var addr := Chosen(w, k, tried).value;
            var (rest, reply) := Attempts(job, w, k + 1, tried + [addr]);
            var (attempts, r) := Attempts(job, w, k, tried);
            && attempts == [AttemptAt(job, w, k, addr)] + rest && r == reply
            && attempts[1..] == rest
  {
    hide Sent, Chosen;
    AttemptsAfterFailure(job, w, k, tried, Chosen(w, k, tried).value);
  }

  /** All attempts but the last failed to connect, there are no more of them
      than allowed, and the reply tells how the last one ended. */
  lemma {:induction false} OnlyLastDelivers(job: Job, w: World, k: nat, tried: seq<string>)
    requires k <= job.limit
    ensures var (attempts, reply) := Attempts(job, w, k, tried);
            && |attempts| <= job.limit - k
            && (forall i :: 0 <= i < |attempts| - 1 ==> attempts[i].outcome.ConnectError?)
            && ReplyFits(job, attempts, reply)
    decreases job.limit - k
  {
    hide Attempts, Chosen, Sent, Strip, ApplyOverrides;
    if GoesOn(job, w, k, tried) {
      LoopGoesOn(job, w, k, tried);
      OnlyLastDelivers(job, w, k + 1, tried + [Chosen(w, k, tried).value]);
    } else {
      LoopEnds(job, w, k, tried);
    }
  }

  lemma {:induction false} DeliveredOnce(attempts: seq<Attempt>)
    requires forall i :: 0 <= i < |attempts| - 1 ==> attempts[i].outcome.ConnectError?
    ensures Delivered(attempts) ==
            if attempts == [] || attempts[|attempts| - 1].outcome.ConnectError? then 0 else 1
  {
    if |attempts| > 1 {
      DeliveredOnce(attempts[1..]);
    }
  }

  lemma {:induction false} FailuresCounted(attempts: seq<Attempt>)
    requires forall i :: 0 <= i < |attempts| - 1 ==> attempts[i].outcome.ConnectError?
    ensures |attempts| == Failures(attempts) +
                          if attempts != [] && attempts[|attempts| - 1].outcome.Answered? then 1 else 0
  {
    if attempts != [] {
      var n := |attempts| - 1;
      if n > 0 {
        assert attempts[..n][n - 1].outcome.ConnectError?;
      }
      FailuresCounted(attempts[..n]);
    }
  }

  /** The requests that the documentation allows to be sent more than once. */
  predicate SafeToRepeat(req: Request) {
    (req.verb == GET || req.verb == HEAD || req.verb == OPTIONS) && req.bodySize == Some(0)
  }

  /** Any other request has a single attempt and no mirror. */
  lemma RepeatedOnlyIfSafe(req: Request, r: Route, client: Client, nanos: nat, w: World)
    requires req.verb.Other? || req.bodySize != Some(0)
    ensures |Attempts(JobOf(req, r, client), w, 0, []).0| <= 1
    ensures MirrorTarget(req, r, nanos) == None
  {
    hide Attempts, MaxAttempts;
    OnlyLastDelivers(JobOf(req, r, client), w, 0, []);
  }

  /** How many attempts a route allows a request that may be repeated: its
      configured number, or two if it has more than one upstream. */
  function AllowedAttempts(r: Route): nat {
    match r.retries
    case Some(k) => if k == 0 then 1 else k
    case None => if |r.upstreams| >= 2 then 2 else 1
  }

  /** How many attempts a request has, by what it is and what its route says. */
  lemma LimitExactly(req: Request, r: Route)
    ensures EffectiveAttempts(req, r) == if SafeToRepeat(req) then AllowedAttempts(r) else 1
    ensures CanRetry(req, r) <==> SafeToRepeat(req) && AllowedAttempts(r) > 1
  {
  }

  /** No attempt of the job gets a connection. */
  ghost predicate NothingConnects(job: Job, w: World) {
    forall k: nat, tried :: k < job.limit ==> FailsToConnect(job, w, k, tried)
  }

  ghost predicate FailsToConnect(job: Job, w: World, k: nat, tried: seq<string>) {
    Chosen(w, k, tried).Some? && OutcomeAt(job, w, k, Chosen(w, k, tried).value).ConnectError?
  }

  lemma {:induction false} AllAttemptsMade(job: Job, w: World, k: nat, tried: seq<string>)
    requires NothingConnects(job, w) && k <= job.limit && (!job.canRetry ==> job.limit == 1)
    ensures |Attempts(job, w, k, tried).0| == job.limit - k
    decreases job.limit - k
  {
    hide Attempts, Chosen, OutcomeAt, Sent, ReplyFits;
    assert k < job.limit ==> FailsToConnect(job, w, k, tried);
    if GoesOn(job, w, k, tried) {
      LoopGoesOn(job, w, k, tried);
      AllAttemptsMade(job, w, k + 1, tried + [Chosen(w, k, tried).value]);
    } else {
      LoopEnds(job, w, k, tried);
    }
  }

  /** A request that may be repeated gets all its route's attempts while none
      of them connects. */
  lemma SafeRequestIsRetried(req: Request, r: Route, client: Client, w: World)
    requires (req.verb == GET || req.verb == HEAD || req.verb == OPTIONS) && req.bodySize == Some(0)
    requires NothingConnects(JobOf(req, r, client), w)
    ensures |Attempts(JobOf(req, r, client), w, 0, []).0| == AllowedAttempts(r)
  {
    hide Attempts, NothingConnects;
    AllAttemptsMade(JobOf(req, r, client), w, 0, []);
  }

  /** Exactly when a request is mirrored, and to where. */
  lemma MirroredExactly(req: Request, r: Route, nanos: nat, addr: string)
    ensures MirrorTarget(req, r, nanos) == Some(addr) <==>
            && r.mirror.Some? && r.mirror.value.addr == addr
            && (req.verb == GET || req.verb == HEAD || req.verb == OPTIONS) && req.bodySize == Some(0)
            && (r.mirror.value.rate.None? || r.mirror.value.rate.value >= 100 ||
                nanos % 100 < r.mirror.value.rate.value)
  {
  }

  lemma LoopDeliversOnce(job: Job, w: World)
    requires !job.canRetry ==> job.limit <= 1
    ensures var (attempts, reply) := Attempts(job, w, 0, []);
            && |attempts| <= job.limit
            && (forall i :: 0 <= i < |attempts| - 1 ==> attempts[i].outcome.ConnectError?)
            && Delivered(attempts) <= 1
            && (forall i, j :: 0 <= i < j < |attempts| ==> !(attempts[i].streamed && attempts[j].streamed))
            && |attempts| == Failures(attempts) + (if reply.Proxied? then 1 else 0)
            && (reply.Proxied? ==> Delivered(attempts) == 1)
  {
    hide Attempts, Delivered, Failures, Strip, ApplyOverrides;
    var attempts := Attempts(job, w, 0, []).0;
    OnlyLastDelivers(job, w, 0, []);
    DeliveredOnce(attempts);
    FailuresCounted(attempts);
    StreamedOnce(job, w);
  }

  lemma StreamedOnce(job: Job, w: World)
    requires !job.canRetry ==> job.limit <= 1
    ensures var attempts := Attempts(job, w, 0, []).0;
            forall i, j :: 0 <= i < j < |attempts| ==> !(attempts[i].streamed && attempts[j].streamed)
  {
    hide Attempts, ReplyFits;
    OnlyLastDelivers(job, w, 0, []);
    StreamedOnlyWithoutRetry(job, w, 0, []);
  }

  /** At-most-once delivery, for every request and every behaviour of its
      surroundings: at most one upstream may have seen it, and together with
      the mirror at most one server unless it can be replayed; the streaming
      body goes out at most once; attempts are the failures counted plus the
      response observed, and stay within the limit. */
  lemma AtMostOnce(req: Request, r: Route, client: Client, nanos: nat, w: World)
    ensures var job := JobOf(req, r, client);
            var (attempts, reply) := Attempts(job, w, 0, []);
            && |attempts| <= (if SafeToRepeat(req) then AllowedAttempts(r) else 1)
            && (forall i :: 0 <= i < |attempts| - 1 ==> attempts[i].outcome.ConnectError?)
            && Delivered(attempts) <= 1
            && (MirrorTarget(req, r, nanos).Some? ==> SafeToRepeat(req))
            && (forall i, j :: 0 <= i < j < |attempts| ==> !(attempts[i].streamed && attempts[j].streamed))
            && |attempts| == Failures(attempts) + (if reply.Proxied? then 1 else 0)
            && (reply.Proxied? ==> Delivered(attempts) == 1)
  {
    hide Attempts, Delivered, Failures, EffectiveAttempts, CanRetry, AllowedAttempts, ShouldMirror;
    LimitExactly(req, r);
    LoopDeliversOnce(JobOf(req, r, client), w);
  }

  lemma {:induction false} StreamedOnlyWithoutRetry(job: Job, w: World, k: nat, tried: seq<string>)
    ensures forall a :: a in Attempts(job, w, k, tried).0 ==> a.streamed == !job.canRetry
    decreases job.limit - k
  {
    hide Attempts, Chosen, Sent, ReplyFits;
    if GoesOn(job, w, k, tried) {
      LoopGoesOn(job, w, k, tried);
      StreamedOnlyWithoutRetry(job, w, k + 1, tried + [Chosen(w, k, tried).value]);
    } else {
      LoopEnds(job, w, k, tried);
    }
  }

  /** No single exchange takes longer than the timeout. */
  ghost predicate WithinTimeout(w: World, timeout: nat) {
    forall i: nat :: w.waited(i) <= timeout
  }

  /** The time spent waiting for upstreams is at most the timeout once per
      allowed attempt: the timeout bounds attempts, not requests. */
  lemma {:induction false} WaitingBounded(job: Job, w: World, k: nat, tried: seq<string>, timeout: nat)
    requires k <= job.limit && WithinTimeout(w, timeout)
    ensures Waited(Attempts(job, w, k, tried).0) <= (job.limit - k) * timeout
    decreases job.limit - k
  {
    hide Attempts, Chosen, Sent, ReplyFits;
    OneMore(job.limit - k, timeout);
    if GoesOn(job, w, k, tried) {
      LoopGoesOn(job, w, k, tried);
      WaitingBounded(job, w, k + 1, tried + [Chosen(w, k, tried).value], timeout);
    } else {
      LoopEnds(job, w, k, tried);
    }
  }

  lemma OneMore(d: nat, timeout: nat)
    ensures 0 <= d * timeout && (d > 0 ==> (d - 1) * timeout + timeout == d * timeout && timeout <= d * timeout)
  {
    if d > 0 {
      assert (d - 1) * timeout >= 0;
    }
  }

  /** A route's timeout in milliseconds: as configured, or thirty seconds. */
  predicate HasTimeout(r: Route, timeout: nat) {
    r.totalTimeout == Some(Millis(timeout)) || (r.totalTimeout == None && timeout == 30_000)
  }

  /** A whole request waits at most the route's timeout once per attempt it may
      make. */
  lemma RequestWaitingBounded(req: Request, r: Route, client: Client, w: World, timeout: nat)
    requires HasTimeout(r, timeout) && WithinTimeout(w, timeout)
    ensures timeout == TotalTimeout(r)
    ensures Waited(Attempts(JobOf(req, r, client), w, 0, []).0) <=
            (if SafeToRepeat(req) then AllowedAttempts(r) else 1) * timeout
  {
    hide Attempts, Waited, EffectiveAttempts, CanRetry, SafeToRepeat, AllowedAttempts, WithinTimeout;
    LimitExactly(req, r);
    WaitingBounded(JobOf(req, r, client), w, 0, [], timeout);
  }

  /** "No upstreams available" is the reply exactly when some attempt, all
      earlier ones having failed to connect, finds no schedule for the route,
      or an empty one. */
  lemma {:induction false} NoUpstreamsExact(job: Job, w: World, k: nat, tried: seq<string>)
    requires k <= job.limit
    ensures var (attempts, reply) := Attempts(job, w, k, tried);
            var n := k + |attempts|;
            reply.NoUpstreams? <==>
            && n < job.limit
            && (w.schedule(n) == None || w.schedule(n) == Some([]))
            && (attempts != [] ==> job.canRetry && attempts[|attempts| - 1].outcome.ConnectError?)
    decreases job.limit - k
  {
    hide Attempts, Chosen, Sent, ReplyFits;
    ChosenExact(w, k, tried);
    if GoesOn(job, w, k, tried) {
      LoopGoesOn(job, w, k, tried);
      NoUpstreamsExact(job, w, k + 1, tried + [Chosen(w, k, tried).value]);
    } else {
      LoopEnds(job, w, k, tried);
    }
  }

  lemma ChosenExact(w: World, k: nat, tried: seq<string>)
    ensures Chosen(w, k, tried).None? <==> w.schedule(k) == None || w.schedule(k) == Some([])
  {
  }
}
