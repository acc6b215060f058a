/** What a request's attempts send and what its client gets back, in terms of
    the request, its route and the upstream's answer. */
module SentHeads {
  import opened Wrappers
  import opened Strings
  import opened Addresses
  import opened Headers
  import opened LoadBalancing
  import opened Configuration
  import opened Routing
  import opened Engine
  import opened AttemptProperties

  // ------------------------------------------------------------ reference

  /** Header `n` of a head once a route's overrides are applied: what the last
      override of that name says, or what was there. */
  ghost function Overridden(head: Fields, overrides: Overrides, n: string): Option<seq<string>> {
    match Deciding(overrides, n)
    case Some(v) => if v == "" then None else Some([v])
    case None => if n in head then Some(head[n]) else None
  }

  /** One of these Connection lines lists `n`. */
  ghost predicate AnyLists(lines: Option<seq<string>>, n: string) {
    lines.Some? && exists k :: 0 <= k < |lines.value| && Lists(lines.value[k], n)
  }

  /** The fields that belong to a single hop by themselves. */
  predicate OneHop(n: string) {
    || n == "connection" || n == "keep-alive" || n == "proxy-authenticate" || n == "proxy-authorization"
    || n == "te" || n == "trailer" || n == "transfer-encoding" || n == "upgrade"
  }

  /** Header `n` is carried over to the upstream. */
  ghost predicate CarriedOver(head: Fields, overrides: Overrides, n: string) {
    && Overridden(head, overrides, n).Some?
    && !OneHop(n) && !AnyLists(Overridden(head, overrides, "connection"), n)
  }

  // ------------------------------------------------------------- attempts

  /** Each attempt is the selection of its number, after the addresses of the
      attempts before, and ends as the upstream chosen behaves then. */
  lemma {:induction false} AttemptsFollowWorld(job: Job, w: World, k: nat, tried: seq<string>, i: nat)
    requires i < |Attempts(job, w, k, tried).0|
    ensures var attempts := Attempts(job, w, k, tried).0;
            var a := attempts[i];
            && a == AttemptAt(job, w, k + i, a.addr)
            && Chosen(w, k + i, tried + AddressesTried(attempts[..i])) == Some(a.addr)
    decreases job.limit - k
  {
    hide Attempts, Chosen, Sent, ReplyFits, AttemptAt, OutcomeAt;
    var attempts := Attempts(job, w, k, tried).0;
    if GoesOn(job, w, k, tried) {
      LoopGoesOn(job, w, k, tried);
    } else {
      LoopEnds(job, w, k, tried);
    }
    AddressOfAttempt(job, w, k, Chosen(w, k, tried).value);
    if i == 0 {
      assert attempts[..0] == [];
      assert tried + [] == tried;
    } else {
      var addr := Chosen(w, k, tried).value;
      AttemptsFollowWorld(job, w, k + 1, tried + [addr], i - 1);
      assert attempts[..i] == [attempts[0]] + attempts[1..][..i - 1];
      TriedInOrder(attempts[0], attempts[1..][..i - 1]);
      assert (tried + [addr]) + AddressesTried(attempts[1..][..i - 1]) == tried + AddressesTried(attempts[..i]);
    }
  }

  lemma AddressOfAttempt(job: Job, w: World, k: nat, addr: string)
    ensures AttemptAt(job, w, k, addr).addr == addr
  {
    hide Sent, OutcomeAt;
  }

  function AddressesTried(attempts: seq<Attempt>): seq<string> {
    if attempts == [] then [] else [attempts[0].addr] + AddressesTried(attempts[1..])
  }

  lemma TriedInOrder(a: Attempt, rest: seq<Attempt>)
    ensures AddressesTried([a] + rest) == [a.addr] + AddressesTried(rest)
  {
    assert ([a] + rest)[1..] == rest;
  }

  /** Attempt `i` in terms of its surroundings: the upstream its ticket, the
      health reads and the addresses tried select from the schedule of the
      moment; its outcome, or an error of its own if nothing could be sent; and
      the time it took. */
  lemma AttemptExactly(job: Job, w: World, i: nat)
    requires i < |Attempts(job, w, 0, []).0|
    ensures var attempts := Attempts(job, w, 0, []).0;
            var a := attempts[i];
            && a.waited == w.waited(i)
            && a.outcome == (if a.sent.Some? then w.outcome(i, a.addr) else OtherError)
            && w.schedule(i).Some?
            && var u := Select(w.schedule(i).value, w.ticket(i), AddressesTried(attempts[..i]), HealthAt(w.health, i));
               u.Some? && a.addr == u.value.addr
    ensures forall n: nat, addr :: HealthAt(w.health, i)(n, addr) == w.health(i, n, addr)
  {
    hide Attempts, Sent, Select;
    AttemptsFollowWorld(job, w, 0, [], i);
    assert [] + AddressesTried(Attempts(job, w, 0, []).0[..i]) == AddressesTried(Attempts(job, w, 0, []).0[..i]);
  }

  // ------------------------------------------------------------ heads sent

  lemma SentByAttempt(job: Job, w: World, a: Attempt)
    requires a in Attempts(job, w, 0, []).0
    ensures a.sent == Sent(job, a.addr)
  {
    hide Attempts, Sent, Chosen, OutcomeAt;
    var i :| 0 <= i < |Attempts(job, w, 0, []).0| && Attempts(job, w, 0, []).0[i] == a;
    AttemptsFollowWorld(job, w, 0, [], i);
  }

  /** The text of the Host header for an address that splits. */
  function HostText(addr: string): string
    requires HostPort(addr).Ok?
  {
    HostPort(addr).value.0 + ":" + Decimal(HostPort(addr).value.1)
  }

  lemma OneHopIsFixed(n: string)
    ensures OneHop(n) <==> n in HOP_BY_HOP
  {
  }

  lemma OverriddenExactly(head: Fields, overrides: Overrides, n: string)
    ensures var f := ApplyOverrides(head, overrides);
            Overridden(head, overrides, n) == if n in f then Some(f[n]) else None
  {
    hide ApplyOverrides, Deciding;
    OverridesByName(head, overrides, n);
  }

  lemma ListedExactly(head: Fields, overrides: Overrides, n: string)
    ensures n in Named(ApplyOverrides(head, overrides)) <==>
            AnyLists(Overridden(head, overrides, "connection"), n)
  {
    hide ApplyOverrides, Deciding, Named, Lists, Overridden;
    OverriddenExactly(head, overrides, "connection");
    NamedExact(ApplyOverrides(head, overrides), n);
  }

  /** An attempt sends something exactly when its address splits and can be a
      Host value; the Host it sends is then the address's own, the scheme the
      client's. */
  lemma HostSent(req: Request, r: Route, client: Client, w: World, a: Attempt)
    requires a in Attempts(JobOf(req, r, client), w, 0, []).0
    ensures a.sent.Some? <==> HostPort(a.addr).Ok? && ValidValue(HostText(a.addr))
    ensures a.sent.Some? ==>
              && "host" in a.sent.value && a.sent.value["host"] == [HostText(a.addr)]
              && "x-forwarded-proto" in a.sent.value && a.sent.value["x-forwarded-proto"] == [client.proto]
  {
    hide Attempts, AttemptHead, EffectiveAttempts, CanRetry, HostPort, ValidValue;
    SentByAttempt(JobOf(req, r, client), w, a);
    if a.sent.Some? {
      AttemptHeadAddresses(req.head, r.requestHeaders, client, HostText(a.addr));
    }
  }

  lemma HeadOfAttempt(req: Request, r: Route, client: Client, w: World, a: Attempt)
    requires a in Attempts(JobOf(req, r, client), w, 0, []).0 && a.sent.Some?
    ensures HostPort(a.addr).Ok?
    ensures a.sent.value == AttemptHead(req.head, r.requestHeaders, client, HostText(a.addr))
  {
    hide Attempts, AttemptHead, EffectiveAttempts, CanRetry, HostPort, ValidValue;
    SentByAttempt(JobOf(req, r, client), w, a);
  }

  /** The fingerprint header an attempt sends is the verified fingerprint, and
      is sent if one was verified and Connection does not list the header. */
  lemma IdentitySent(req: Request, r: Route, client: Client, w: World, a: Attempt)
    requires a in Attempts(JobOf(req, r, client), w, 0, []).0 && a.sent.Some?
    ensures var name := "x-client-cert-fingerprint";
            && (name in a.sent.value <==>
                  client.fingerprint.Some? && !AnyLists(Overridden(req.head, r.requestHeaders, "connection"), name))
            && (name in a.sent.value ==> a.sent.value[name] == [client.fingerprint.value])
  {
    hide Attempts, AttemptHead, AnyLists, Overridden, ApplyOverrides, Named, HostPort;
    HeadOfAttempt(req, r, client, w, a);
    AttemptHeadIdentity(req.head, r.requestHeaders, client, HostText(a.addr));
    ListedExactly(req.head, r.requestHeaders, "x-client-cert-fingerprint");
  }

  /** The forwarding chain an attempt sends: the first line carried over, if it
      can be read, and the client's address. */
  lemma ChainSentBy(req: Request, r: Route, client: Client, w: World, a: Attempt)
    requires a in Attempts(JobOf(req, r, client), w, 0, []).0 && a.sent.Some?
    ensures var name := "x-forwarded-for";
            && name in a.sent.value
            && a.sent.value[name] ==
               if CarriedOver(req.head, r.requestHeaders, name) &&
                  Overridden(req.head, r.requestHeaders, name).value != [] &&
                  Visible(Overridden(req.head, r.requestHeaders, name).value[0])
               then [Overridden(req.head, r.requestHeaders, name).value[0] + ", " + client.ip]
               else [client.ip]
  {
    hide Attempts, AttemptHead, AnyLists, Overridden, ApplyOverrides, Named, HostPort, Visible, Strip, Rewritten;
    HeadOfAttempt(req, r, client, w, a);
    ChainOf(req.head, r.requestHeaders, client, HostText(a.addr));
    ChainAfterStrip(req.head, r.requestHeaders, client);
    ListedExactly(req.head, r.requestHeaders, "x-forwarded-for");
    OverriddenExactly(req.head, r.requestHeaders, "x-forwarded-for");
    ChainNameIsNoHop();
  }

  lemma ChainNameIsNoHop()
    ensures !OneHop("x-forwarded-for")
  {
    ChainIsEndToEnd();
    OneHopIsFixed(FORWARDED_FOR);
  }

  /** Every other header is sent exactly if it is carried over, with all the
      values the overrides leave it. */
  lemma OthersSent(req: Request, r: Route, client: Client, w: World, a: Attempt, n: string)
    requires a in Attempts(JobOf(req, r, client), w, 0, []).0 && a.sent.Some?
    requires n != "host" && n != "x-forwarded-for" && n != "x-forwarded-proto" && n != "x-client-cert-fingerprint"
    ensures n in a.sent.value <==> CarriedOver(req.head, r.requestHeaders, n)
    ensures n in a.sent.value ==> Some(a.sent.value[n]) == Overridden(req.head, r.requestHeaders, n)
  {
    hide Attempts, AttemptHead, AnyLists, Overridden, ApplyOverrides, Named, HostPort, OneHop;
    HeadOfAttempt(req, r, client, w, a);
    AttemptHeadPassThrough(req.head, r.requestHeaders, client, HostText(a.addr), n);
    ListedExactly(req.head, r.requestHeaders, n);
    OverriddenExactly(req.head, r.requestHeaders, n);
    OneHopIsFixed(n);
  }

  // --------------------------------------------------------------- routing

  /** A request matches a route for one host exactly if its first Host line can
      be read and is that host, whatever its case and port. */
  lemma RoutedByFirstHost(req: Request, r: Route, host: string)
    requires r.host == Some(host) && !("*." <= host) && r.path == None
    ensures SelectRoute([r], HostOf(req), req.path).Some? <==>
            && "host" in req.head && Visible(req.head["host"][0])
            && Lower(Before(req.head["host"][0], ':')) == Lower(host)
  {
    hide Visible, Lower, Before;
  }

  // -------------------------------------------------------------- response

  /** The client gets the answer of the last attempt, without its hop-by-hop
      headers and with the route's response overrides. */
  lemma AnswerReturned(req: Request, r: Route, client: Client, w: World, n: string)
    requires Attempts(JobOf(req, r, client), w, 0, []).1.Proxied?
    ensures var (attempts, reply) := Attempts(JobOf(req, r, client), w, 0, []);
            && attempts != [] && attempts[|attempts| - 1].outcome.Answered?
            && var answer := attempts[|attempts| - 1].outcome.head;
               match Deciding(r.responseHeaders, n)
               case Some(v) => (n in reply.head <==> v != "") && (n in reply.head ==> reply.head[n] == [v])
               case None =>
                 && (n in reply.head <==>
                       n in answer && !OneHop(n) && !AnyLists(Overridden(answer, [], "connection"), n))
                 && (n in reply.head ==> reply.head[n] == answer[n])
  {
    hide Attempts, AnyLists, Overridden, ApplyOverrides, Strip, OneHop, Deciding, EffectiveAttempts, CanRetry;
    var job := JobOf(req, r, client);
    OnlyLastDelivers(job, w, 0, []);
    var attempts := Attempts(job, w, 0, []).0;
    HeaderReturned(attempts[|attempts| - 1].outcome.head, r.responseHeaders, n);
  }

  lemma HeaderReturned(answer: Fields, overrides: Overrides, n: string)
    ensures var f := ApplyOverrides(Strip(answer), overrides);
            match Deciding(overrides, n)
            case Some(v) => (n in f <==> v != "") && (n in f ==> f[n] == [v])
            case None =>
              && (n in f <==> n in answer && !OneHop(n) && !AnyLists(Overridden(answer, [], "connection"), n))
              && (n in f ==> f[n] == answer[n])
  {
    hide AnyLists, Overridden, ApplyOverrides, Strip, OneHop, Deciding, Named;
    OverridesByName(Strip(answer), overrides, n);
    StripByName(answer, n);
    OneHopIsFixed(n);
    NothingOverridden(answer);
    ListedExactly(answer, [], n);
  }

  lemma NothingOverridden(f: Fields)
    ensures ApplyOverrides(f, []) == f
  {
  }
}
