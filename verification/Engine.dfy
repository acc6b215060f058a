/** The request engine of server.rs: route, filter, mirror, and a bounded loop
    of upstream attempts. */
module Engine {
  import opened Wrappers
  import opened Addresses
  import opened Headers
  import opened LoadBalancing
  import opened Configuration
  import opened Routing

  datatype Verb = GET | HEAD | OPTIONS | Other(name: string)

  /** `bodySize` is the exact size the body announces, if it announces one. */
  datatype Request = Request(verb: Verb, path: string, head: Fields, bodySize: Option<nat>)

  /** The first Host line, if it can be read as text. */
  function HostOf(req: Request): Option<string> {
    if HOST in req.head && Visible(req.head[HOST][0]) then Some(req.head[HOST][0]) else None
  }

  /** How one exchange with an upstream ends. */
  datatype Outcome = Answered(head: Fields) | ConnectError | OtherError | TimedOut

  datatype Verdict = Allow | Deny(status: nat)

  type Plugin = (Verb, string) -> Verdict

  datatype Reply =
    | NotFound
    | Denied(status: nat)
    | NoUpstreams
    | Proxied(head: Fields)
    | GatewayTimeout
    | BadGateway

  /** One attempt: the chosen upstream, the head sent to it unless its address
      was unusable, whether it took the client's streaming body, how it ended
      and how long it took. */
  datatype Attempt = Attempt(addr: string, sent: Option<Fields>, streamed: bool, outcome: Outcome, waited: nat)

  /** Everything the request meets while it runs. For attempt `k`: the schedule
      the load-balancer cache holds for the route at that moment, the ticket
      drawn, the health flags seen by each registry read, what the upstream
      contacted does, and the time that takes. */
  datatype World = World(
    schedule: nat -> Option<seq<UpstreamPool>>,
    ticket: nat -> usize,
    health: (nat, nat, string) -> bool,
    outcome: (nat, string) -> Outcome,
    waited: nat -> nat)

  /** What the attempt loop works from. */
  datatype Job = Job(
    head: Fields,
    requestHeaders: Overrides,
    responseHeaders: Overrides,
    client: Client,
    canRetry: bool,
    limit: nat)

  predicate Replayable(req: Request) {
    req.verb in {GET, HEAD, OPTIONS} && req.bodySize == Some(0)
  }

  function CanRetry(req: Request, r: Route): bool {
    MaxAttempts(r) > 1 && Replayable(req)
  }

  function EffectiveAttempts(req: Request, r: Route): (n: nat)
    ensures 1 <= n <= MaxAttempts(r)
    ensures !Replayable(req) ==> n == 1
  {
    if CanRetry(req, r) then MaxAttempts(r) else 1
  }

  function JobOf(req: Request, r: Route, client: Client): Job {
    Job(req.head, r.requestHeaders, r.responseHeaders, client, CanRetry(req, r), EffectiveAttempts(req, r))
  }

  predicate ShouldMirror(rate: nat, nanos: nat) {
    rate >= 100 || (rate != 0 && nanos % 100 < rate)
  }

  /** The address a request is mirrored to, if it is. */
  function MirrorTarget(req: Request, r: Route, nanos: nat): Option<string> {
    match r.mirror
    case Some(m) =>
      if Replayable(req) && ShouldMirror(if m.rate.Some? then m.rate.value else 100, nanos) then Some(m.addr) else None
    case None => None
  }

  // ---------------------------------------------------------- attempt loop

  /** What an attempt at `addr` can get past its own preparation: the address
      splits into host and port, the URI parser takes the pair as an authority,
      and it can be a header value. */
  predicate Usable(addr: string, parses: string -> bool) {
    match HostPort(addr)
    case Ok((host, port)) => parses(Print(host, port)) && ValidValue(Print(host, port))
    case Err(_) => false
  }

  /** The head sent to `addr`; none if the address cannot be used. */
  function Sent(job: Job, addr: string): Option<Fields> {
    match HostPort(addr)
    case Ok((host, port)) =>
      if ValidValue(Print(host, port))
      then Some(AttemptHead(job.head, job.requestHeaders, job.client, Print(host, port)))
      else None
    case Err(_) => None
  }

  function OutcomeAt(job: Job, w: World, k: nat, addr: string): Outcome {
    if Sent(job, addr).Some? then w.outcome(k, addr) else OtherError
  }

  function AttemptAt(job: Job, w: World, k: nat, addr: string): Attempt {
    Attempt(addr, Sent(job, addr), !job.canRetry, OutcomeAt(job, w, k, addr), w.waited(k))
  }

  /** The registry reads of attempt `k`. */
  function HealthAt(health: (nat, nat, string) -> bool, k: nat): HealthReads {
    (n: nat, a: string) => health(k, n, a)
  }

  /** The upstream chosen for attempt `k` after trying `tried`. */
  function Chosen(w: World, k: nat, tried: seq<string>): Option<string> {
    match w.schedule(k)
    case None => None
    case Some(s) =>
      match Select(s, w.ticket(k), tried, HealthAt(w.health, k))
      case None => None
      case Some(u) => Some(u.addr)
  }

  /** The attempts from number `k` on, and the reply they lead to. */
  function Attempts(job: Job, w: World, k: nat, tried: seq<string>): (seq<Attempt>, Reply)
    decreases job.limit - k
  {
    if k >= job.limit then ([], BadGateway)
    else match Chosen(w, k, tried)
         case None => ([], NoUpstreams)
         case Some(addr) =>
           var a := AttemptAt(job, w, k, addr);
           match a.outcome
           case Answered(h) => ([a], Proxied(ApplyOverrides(Strip(h), job.responseHeaders)))
           case TimedOut => ([a], GatewayTimeout)
           case OtherError => ([a], BadGateway)
           case ConnectError =>
             if !job.canRetry then ([a], BadGateway)
             else
               var (rest, reply) := Attempts(job, w, k + 1, tried + [addr]);
               ([a] + rest, reply)
  }

  /** How often the loop looks the route's schedule up: once for each attempt,
      and once more if it finds nothing to serve. */
  function LookupsMade(run: (seq<Attempt>, Reply)): nat {
    |run.0| + if run.1.NoUpstreams? then 1 else 0
  }

  function Failures(attempts: seq<Attempt>): nat {
    if attempts == [] then 0
    else Failures(attempts[..|attempts| - 1]) + if attempts[|attempts| - 1].outcome.Answered? then 0 else 1
  }

  lemma FailuresExtend(attempts: seq<Attempt>, a: Attempt)
    ensures Failures(attempts + [a]) == Failures(attempts) + if a.outcome.Answered? then 0 else 1
  {
    assert (attempts + [a])[..|attempts|] == attempts;
  }

  /** What is left to do after `done` completes the whole loop. */
  ghost predicate Continues(job: Job, w: World, done: seq<Attempt>, k: nat, tried: seq<string>) {
    var (rest, r) := Attempts(job, w, k, tried);
    Attempts(job, w, 0, []) == (done + rest, r)
  }

  lemma ContinuesFromStart(job: Job, w: World)
    ensures Continues(job, w, [], 0, []) && Failures([]) == 0
  {
    hide Attempts;
    assert [] + Attempts(job, w, 0, []).0 == Attempts(job, w, 0, []).0;
  }

  lemma ContinuesToEnd(job: Job, w: World, done: seq<Attempt>, k: nat, tried: seq<string>)
    requires Continues(job, w, done, k, tried)
    ensures var (rest, r) := Attempts(job, w, k, tried);
            && (rest == [] ==> Attempts(job, w, 0, []) == (done, r))
            && (|rest| == 1 ==> Attempts(job, w, 0, []) == (done + [rest[0]], r))
  {
    hide Attempts;
    var rest := Attempts(job, w, k, tried).0;
    if rest == [] {
      assert done + rest == done;
    } else if |rest| == 1 {
      assert rest == [rest[0]];
    }
  }

  /** A connect failure with attempts left goes on with the next one. */
  lemma AttemptsAfterFailure(job: Job, w: World, k: nat, tried: seq<string>, addr: string)
    requires k < job.limit && Chosen(w, k, tried) == Some(addr)
    requires job.canRetry && OutcomeAt(job, w, k, addr).ConnectError?
    ensures var (rest, r) := Attempts(job, w, k + 1, tried + [addr]);
            Attempts(job, w, k, tried) == ([AttemptAt(job, w, k, addr)] + rest, r)
  {
    hide Chosen, Sent, OutcomeAt;
  }

  lemma ContinuesAfterFailure(job: Job, w: World, done: seq<Attempt>, k: nat, tried: seq<string>, addr: string)
    requires k < job.limit && Continues(job, w, done, k, tried) && Chosen(w, k, tried) == Some(addr)
    requires job.canRetry && OutcomeAt(job, w, k, addr).ConnectError?
    ensures Continues(job, w, done + [AttemptAt(job, w, k, addr)], k + 1, tried + [addr])
  {
    hide Attempts, Chosen, OutcomeAt, AttemptAt;
    AttemptsAfterFailure(job, w, k, tried, addr);
    var a := AttemptAt(job, w, k, addr);
    var rest := Attempts(job, w, k + 1, tried + [addr]).0;
    assert done + ([a] + rest) == (done + [a]) + rest;
  }

  function Waited(attempts: seq<Attempt>): nat {
    if attempts == [] then 0 else attempts[0].waited + Waited(attempts[1..])
  }

  // ----------------------------------------------------------------- engine

  class ProxyEngine {
    var requestsTotal: nat
    var connectionErrors: nat
    var responsesObserved: nat

    constructor ()
      ensures requestsTotal == 0 && connectionErrors == 0 && responsesObserved == 0
    {
      requestsTotal, connectionErrors, responsesObserved := 0, 0, 0;
    }

    /** Serve one request against the configuration and plugins it reads. */
    method Handle(req: Request, config: Config, plugins: map<string, Plugin>, client: Client, nanos: nat, w: World)
      returns (reply: Reply, attempts: seq<Attempt>, mirroredTo: Option<string>)
      requires ValidClient(client)
      modifies this
      ensures requestsTotal == old(requestsTotal) + 1
      ensures connectionErrors == old(connectionErrors) + Failures(attempts)
      ensures responsesObserved == old(responsesObserved) + if reply.Proxied? then 1 else 0
      ensures match SelectRoute(config.routes, HostOf(req), req.path)
              case None => reply == NotFound && attempts == [] && mirroredTo == None
              case Some(r) =>
                if r.plugin.Some? && r.plugin.value in plugins && plugins[r.plugin.value](req.verb, req.path).Deny?
                then reply == Denied(plugins[r.plugin.value](req.verb, req.path).status) &&
                     attempts == [] && mirroredTo == None
                else (attempts, reply) == Attempts(JobOf(req, r, client), w, 0, []) &&
                     mirroredTo == MirrorTarget(req, r, nanos)
    {
      requestsTotal := requestsTotal + 1;
      attempts, mirroredTo := [], None;
      var selected := SelectRoute(config.routes, HostOf(req), req.path);
      if selected.None? {
        reply := NotFound;
        return;
      }
      var route := selected.value;
      if route.plugin.Some? && route.plugin.value in plugins {
        var verdict := plugins[route.plugin.value](req.verb, req.path);
        if verdict.Deny? {
          reply := Denied(verdict.status);
          return;
        }
      }
      var replayable := Replayable(req);
      var maxAttempts := MaxAttempts(route);
      var canRetry := maxAttempts > 1 && replayable;
      var limit := if canRetry then maxAttempts else 1;
      if route.mirror.Some? {
        var mirror := route.mirror.value;
        if replayable && ShouldMirror(if mirror.rate.Some? then mirror.rate.value else 100, nanos) {
          mirroredTo := Some(mirror.addr);
        }
      }
      var job := Job(req.head, route.requestHeaders, route.responseHeaders, client, canRetry, limit);
      reply, attempts := RunAttempts(job, w);
    }

    /** The attempt loop. The client's body is there to be taken exactly once:
        with retries every attempt sends an empty body, without them there is a
        single attempt. */
    method RunAttempts(job: Job, w: World) returns (reply: Reply, attempts: seq<Attempt>)
      requires ValidClient(job.client)
      requires !job.canRetry ==> job.limit == 1
      modifies this
      ensures (attempts, reply) == Attempts(job, w, 0, [])
      ensures requestsTotal == old(requestsTotal)
      ensures connectionErrors == old(connectionErrors) + Failures(attempts)
      ensures responsesObserved == old(responsesObserved) + if reply.Proxied? then 1 else 0
    {
      hide Sent, Chosen, Failures, Continues, Strip, ApplyOverrides;
      ContinuesFromStart(job, w);
      attempts := [];
      var tried: seq<string> := [];
      var bodyLeft := true;
      var k := 0;
      while k < job.limit
        invariant 0 <= k <= job.limit
        invariant bodyLeft || job.canRetry || k == job.limit
        invariant Continues(job, w, attempts, k, tried)
        invariant requestsTotal == old(requestsTotal)
        invariant connectionErrors == old(connectionErrors) + Failures(attempts)
        invariant responsesObserved == old(responsesObserved)
      {
        ContinuesToEnd(job, w, attempts, k, tried);
        var chosen := Chosen(w, k, tried);
        if chosen.None? {
          reply := NoUpstreams;
          return;
        }
        var addr := chosen.value;
        var streamed := false;
        if !job.canRetry {
          assert bodyLeft;
          streamed, bodyLeft := true, false;
        }
        var attempt := Try(job, w, k, addr, streamed);
        FailuresExtend(attempts, attempt);
        if job.canRetry && attempt.outcome.ConnectError? {
          ContinuesAfterFailure(job, w, attempts, k, tried, addr);
        }
        attempts := attempts + [attempt];
        match attempt.outcome {
          case Answered(head) =>
            responsesObserved := responsesObserved + 1;
            var response := RewriteResponse(head, job.responseHeaders);
            reply := Proxied(response);
            return;
          case TimedOut =>
            connectionErrors := connectionErrors + 1;
            reply := GatewayTimeout;
            return;
          case _ =>
            connectionErrors := connectionErrors + 1;
            tried := tried + [addr];
            if !job.canRetry || attempt.outcome.OtherError? {
              reply := BadGateway;
              return;
            }
        }
        k := k + 1;
      }
      ContinuesToEnd(job, w, attempts, k, tried);
      reply := BadGateway;
    }

    /** One exchange with the upstream at `addr`, bounded by the timeout. */
    method Try(job: Job, w: World, k: nat, addr: string, streamed: bool) returns (a: Attempt)
      requires ValidClient(job.client) && streamed == !job.canRetry
      ensures a == AttemptAt(job, w, k, addr)
    {
      var sent := Prepare(job, addr);
      var outcome := if sent.Some? then w.outcome(k, addr) else OtherError;
      a := Attempt(addr, sent, streamed, outcome, w.waited(k));
    }

    method RewriteResponse(head: Fields, overrides: Overrides) returns (rewritten: Fields)
      ensures rewritten == ApplyOverrides(Strip(head), overrides)
    {
      var response := new HeaderMap(head);
      response.StripHopByHop();
      response.Override(overrides);
      rewritten := response.fields;
    }

    /** Build the head of one attempt from the untouched original. */
    method Prepare(job: Job, addr: string) returns (sent: Option<Fields>)
      requires ValidClient(job.client)
      ensures sent == Sent(job, addr)
    {
      var headers := new HeaderMap(job.head);
      headers.Override(job.requestHeaders);
      headers.Identify(job.client.fingerprint);
      match HostPort(addr) {
        case Err(_) => return None;
        case Ok((host, port)) =>
          headers.StripHopByHop();
          if !ValidValue(Print(host, port)) {
            return None;
          }
          headers.Insert(HOST, Print(host, port));
          headers.Forward(job.client.ip, job.client.proto);
          return Some(headers.fields);
      }
    }
  }
}
