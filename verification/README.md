# Verified model of the torana proxy core

torana is a reverse proxy. This project models the connected core of its
`torana-core` crate and proves what that core guarantees, across its parts: a
request is matched to a route, sent to upstreams chosen by a weighted schedule
and by health, retried when a connection cannot be made, and all the while
probers flip health flags, a reloader replaces routes, balancers and plugins,
and a shutdown waits for what is still open.

## The parts

| files | what they model |
|---|---|
| `Arithmetic`, `Schedule`, `Bursts` | weight reduction, the interleaved schedule, and how fairly it serves |
| `LoadBalancing`, `Redistribution`, `Tickets` | the balancer object, selection by health and earlier attempts, who takes over for unhealthy slots, and many callers drawing tickets |
| `HealthRegistry` | the shared registry: every lock and atomic step of any number of callers, and the object itself |
| `Strings`, `Addresses`, `Headers`, `Routing` | upstream addresses, header rewriting, route matching |
| `Configuration`, `Shares`, `Probers` | the checks of a configuration the core relies on, the balancer map, the shares of traffic it serves, the probers asked for |
| `Engine`, `AttemptProperties`, `SentHeads`, `RetryProgress`, `Timeouts` | serving one request: route, filter, mirror, attempt loop, and what goes to the upstream and back |
| `Reload`, `ReloadProperties`, `Generations`, `Plugins`, `Reloader` | the reload protocol interleaved with any number of requests, when a request meets a single generation of everything, when it finds its route's plugin, and one undisturbed pass of the protocol |
| `Probing` | probers, reloads and the registry as one system: who may report on an address, and what becomes of its verdict |
| `Drain` | graceful shutdown |
| `WholeSystem` | one request while reloads, probers and other requests run |

Code that changes objects is modelled by classes and loops (`LoadBalancer`,
`Registry`, `HeaderMap`, `ProxyEngine`, `ReloadTargets`, `SpawnAll`,
`WaitForDrain`), each proved against a function of its inputs and old state;
the laws are then proved about those functions. What several tasks do at once
(tickets, registry, reload, shutdown) is a state machine whose steps are the
individual lock and atomic operations; a run is any sequence of steps, in which
a part may also rest while others move, and the laws hold in every state of
every run.

What a single call cannot control is an argument, so that a law proved for all
arguments holds whatever happens around the call. `World` gives, for each
attempt, the schedule found in the cache, the ticket drawn, the result of every
single read of a health flag, how the upstream answers and how long that takes.
`HealthReads` gives the result of each registry read of one selection, so flags
may flip between two reads. An exchange ends answered, with a failure to
connect, with another error, or timed out; a failure to connect means the
upstream has not seen the request, which is what the HTTP client promises.

The ticket counter is a `usize`. `fetch_add` wraps, and so does the index
arithmetic `start + i` of a selection in a release build; both are modelled so.
`InOrderExactly` says which scans keep the cyclic order all the same: those that
stay below the end of `usize`, and all scans of schedules whose length divides
its range. `WrapIsSeamless` says the same of the counter.

## Where the code differs from its documentation

The model follows the code. For a claim that fails, a lemma gives the input and
another the exact condition under which the claim holds.

- "Retry a different upstream" (repository README, line 21): the last resort of
  `next_healthy` ignores the excluded addresses, and a scan that passes the end
  of `usize` can miss upstreams. `FailOpenMayRepeat` and `WrapBreaksRetry` give
  the cases, `RetryGoesElsewhere` the exact condition over the slots a scan looks
  at, `RetriesProgress` what holds with upstreams that stay healthy and within
  reach of the scans; `InOrderReaches` says that scans in order reach all.
- "Per-route total timeout" (repository README, line 30): the timeout restarts
  with every attempt. `SlowRefusals` is the failing surroundings for any route
  with a usable address, `TimeoutBoundsRequestExactly` the exact condition,
  `RequestWaitingBounded` what always holds. Which authorities the URI parser
  accepts is a parameter of both.
- "Rebuild atomically" (repository README, lines 29 and 236): the targets are
  swapped one by one. `SwapsAreNotAtomic` gives a run for every pair of valid
  configurations and every request the old one matches;
  `SingleGenerationExactly` says exactly when all a request reads is of one
  generation, `PluginGenerationExactly` the same for the plugin it runs, and
  `ReloadOrdering` what holds in any case: balancers and plugins are never
  older than the route.
- An address without an active health check reads healthy
  (`torana-core/src/health.rs:8-11`): registry entries are never removed.
  `StaleVerdict` gives a run for every pair of valid configurations of which
  only the first checks the address, `HealthyExactly` the exact condition, and
  `DroppedCheckIsFinal` what becomes of a dropped check.
  `NeverCheckedReadsHealthy` is the part of the comment that holds.
- "Appends to any client-supplied `X-Forwarded-For`" (repository README, line
  32): only the first field line is carried on, and only if it can be read; the
  client's Connection header and overrides can take it away altogether.
  `SecondChainLost`, `ConnectionDropsChain` and `OverrideDropsChain` give the
  cases, `ChainCarriedExactly` the exact condition on what the client sent.
- The verified fingerprint "is forwarded to the upstream" (repository README,
  line 25): not if the client lists the header in Connection.
  `ConnectionDropsFingerprint` gives the case, `AttemptHeadIdentity` the exact
  condition.
- One balancer per route (`torana-core/src/upstream.rs:97-98`): they are kept by
  route name, and the last route of a name wins. `OneBalancerEachExactly` is the
  exact condition; routes of one name share a ticket counter even if they list
  the same upstreams. `FirstOfTwoLoses` gives a case where the first is served
  from the other's upstreams, `OwnScheduleExactly` says exactly when a route is
  served from its own.
- Header overrides are a map without an order: of two names that differ in case
  only either can win. `CaseClash` gives the case, `OverrideOrderIrrelevant` the
  exact condition.
- The number in the "connections still open" warning
  (`torana-core/src/server.rs:493-495`) counts references.
  `OneConnectionCountsTwice` gives the case, `LeftoverCountsReferences` the
  number, `LeftoverIsConnectionsExactly` the exact condition.
- A broken plugin "must abort the whole reload" (`torana-core/src/reload.rs:51-52`)
  but does not stop the start: the cache is left empty, and requests whose
  plugin is not in the cache are not filtered. The same happens to a request of
  the old configuration that reads the cache after a swap that drops its plugin.
  `UnfilteredAfterFailedStart` and `UnfilteredDuringReload` give the cases,
  `PluginMissedExactly` the exact condition.

## Model

| member | source | states |
|---|---|---|
| Arithmetic.GcdDivides | torana-core/src/upstream.rs:89-95 | The divisor Euclid's recursion returns divides both arguments. |
| Arithmetic.GcdScales | torana-core/src/upstream.rs:89-95 | Scaling both arguments by k scales the result by k. |
| Arithmetic.GcdAllDivides | torana-core/src/upstream.rs:22 | The folded divisor divides every weight. |
| Arithmetic.DividesGcdAllMultiple | torana-core/src/upstream.rs:22 | Whatever divides c times every weight divides c times the folded divisor; with c = 1, it is the greatest. |
| Schedule.ReducedExact | torana-core/src/upstream.rs:22-29 | Reduction is exact: reduced weight times divisor is the weight clamped to at least 1, and no reduced weight is zero. |
| Schedule.ReducedCoprime | torana-core/src/upstream.rs:22-29 | The reduced weights have greatest common divisor 1. |
| Schedule.SameReducedExactly | torana-core/src/upstream.rs:22-29 | Two lists of weights reduce to the same list if and only if all cross products of the clamped weights are equal. |
| Schedule.ScaleInvariant | torana-core/src/upstream.rs:22-39 | Multiplying all positive weights by the same factor yields the identical schedule. |
| Schedule.SlotsCount | torana-core/src/upstream.rs:31-39 | One schedule holds each entry exactly as often as its reduced weight says. |
| Schedule.ScheduleLength | torana-core/src/upstream.rs:22-39 | The schedule of a non-empty list is not empty, and its length times the divisor is the sum of the clamped weights. |
| Schedule.ExactShares | torana-core/src/upstream.rs:31-53 | Any m schedule lengths of consecutive tickets, starting anywhere, pick entry j exactly m times its reduced weight, that is m·w/g times. |
| Schedule.NeverTrails | torana-core/src/upstream.rs:31-53 | Counted from ticket zero, over any number of tickets, an entry is never more than one pick behind a lighter or equal one. |
| Schedule.MinimalSchedule | torana-core/src/upstream.rs:22-39 | Every pick sequence in exact proportion to the clamped weights is a whole number of schedules long: no shorter schedule is fair. |
| Bursts.TopTwoExists | torana-core/src/upstream.rs:31-39 | Two or more positive weights have a heaviest entry and a runner-up. |
| Bursts.BurstBound | torana-core/src/upstream.rs:31-51 | Consecutive tickets, across the wrap-around too, pick the same entry at most (largest - second largest reduced weight) + 1 times in a row; with equal ones never twice. |
| LoadBalancing.LoadBalancer.constructor | torana-core/src/upstream.rs:18-45 | The nested push loops build the schedule the laws above are about, and the counter starts at zero. |
| LoadBalancing.LoadBalancer.Next | torana-core/src/upstream.rs:47-53 | A call serves the schedule slot of the old counter and advances the counter by one, wrapping; an empty schedule serves nothing and draws no ticket. |
| LoadBalancing.LoadBalancer.NextHealthy | torana-core/src/upstream.rs:60-86 | The two scans and the last resort return what the selection function says, whatever each health read returns and wherever the index arithmetic wraps; one ticket is drawn. |
| LoadBalancing.InOrderExactly | torana-core/src/upstream.rs:69-80 | A scan looks at the slots in cyclic order if and only if it stays below the end of `usize` or the schedule length divides its range. |
| LoadBalancing.ScannedInOrder | torana-core/src/upstream.rs:60-86 | A scan in order is the cyclic window of the schedule that begins at the ticket. |
| LoadBalancing.WrapMissesSlot | torana-core/src/upstream.rs:69-80 | Of three slots the last ticket before the wrap looks at the first twice and at the third not at all. |
| LoadBalancing.SameScheduleExactly | torana-core/src/upstream.rs:18-45 | Two lists of upstreams have the same schedule if and only if they name the same addresses in the same order with clamped weights in the same proportion (equal cross products). |
| LoadBalancing.ExpandServesAll | torana-core/src/upstream.rs:18-45 | The schedule serves exactly the configured addresses: all of them, no others. |
| LoadBalancing.ExpandPick | torana-core/src/upstream.rs:31-53 | The upstream a ticket is served is the configured entry whose index the schedule of indices holds for it. |
| LoadBalancing.SelectionUnderInterference | torana-core/src/upstream.rs:60-86 | For every ticket, with flags flipping between reads: the result is a schedule entry; if some non-excluded upstream the scan looks at stays healthy it is non-excluded and was read healthy; if any stays healthy it was read healthy; a scan in order looks at every upstream. |
| Redistribution.ServingSlotIsFirstUp | torana-core/src/upstream.rs:68-85 | With health fixed and nothing excluded, a ticket's serving slot is the first healthy one at or after it, cyclically. |
| Redistribution.ScannedIsServing | torana-core/src/upstream.rs:68-85 | For every scan in order, that slot is the one a call serves. |
| Redistribution.SharesRedistributed | torana-core/src/upstream.rs:68-85 | Any schedule length of consecutive tickets serves each healthy slot 1 + (unhealthy slots immediately before it) times and no unhealthy slot, which accounts for all tickets. |
| Redistribution.AllUpPicks | torana-core/src/upstream.rs:60-86 | With all upstreams up and nothing excluded, health-aware selection serves each ticket its own slot, as `next` does. |
| Tickets.RunKeepsInv | torana-core/src/upstream.rs:51 | In every interleaving, across wraps of the counter too, no draw is lost or handed out twice, and each is served what its ticket stands for. |
| Tickets.ConcurrentShares | torana-core/src/upstream.rs:47-53 | Exact shares hold for the consecutive finished draws of every interleaving of `next` callers, unless the counter wraps among them and the schedule length does not divide its range. |
| Tickets.ConcurrentHealthyShares | torana-core/src/upstream.rs:60-86 | The same for interleaved `next_healthy` callers while all upstreams are up and nothing is excluded. |
| Tickets.ConcurrentRedistribution | torana-core/src/upstream.rs:60-86 | With health fixed and some slot up, a schedule's worth of consecutive finished draws of interleaved `next_healthy` callers serves each healthy slot 1 + (unhealthy slots immediately before it) times. |
| Tickets.QuiescentServed | torana-core/src/upstream.rs:47-53 | When no call is under way, the draws served are exactly those made. |
| Tickets.WrapIsSeamless | torana-core/src/upstream.rs:51 | The wrap of the counter leaves the order of service unbroken exactly for schedule lengths that divide the counter's range. |
| HealthRegistry.StepKeepsLocks | torana-core/src/health.rs:22-51 | Every step keeps the lock discipline: readers and a writer never overlap and hold the lock exactly in their critical sections. |
| HealthRegistry.RunKeepsInv | torana-core/src/health.rs:22-51 | In every reachable state there is at most one flag per address, shared with no other, and per address the reported transitions alternate, unhealthy first, and agree with the verdict in force. |
| HealthRegistry.RunRefines | torana-core/src/health.rs:22-51 | Every step is a step of an atomic map defaulting to healthy: a set takes effect at its swap, a lookup returns the map's value at its last read, and flags are never replaced. |
| HealthRegistry.FlagsArePermanent | torana-core/src/health.rs:34-42 | Once an address has a flag it keeps that flag for ever. |
| HealthRegistry.VerdictPersists | torana-core/src/health.rs:22-51 | While no set of an address reaches its swap, the verdict on that address stays what it was. |
| HealthRegistry.HealthyExactly | torana-core/src/health.rs:22-51 | In every run an address reads healthy if and only if no verdict on it was ever swapped in or the last one was healthy. |
| HealthRegistry.Registry.IsHealthy | torana-core/src/health.rs:22-27 | The lookup returns the address's flag, and healthy if there is none. |
| HealthRegistry.Registry.Set | torana-core/src/health.rs:29-51 | An undisturbed set changes the verdict on its address and on no other, keeps every existing flag object, adds at most one, and reports exactly a change. |
| Addresses.RoundTrip | torana-core/src/proxy.rs:147-162 | Printing any non-empty slash-free host and any u16 port, with any path after it, and parsing again gives the pair back. |
| Addresses.ParsePrintParse | torana-core/src/proxy.rs:71-74 | Parsing the printed result of a parse equals that parse. |
| Addresses.HostPortExactly | torana-core/src/proxy.rs:147-162 | An address stands for a host and port if and only if the text before the first slash is that host, a colon and that port, its last colon counting, or has no colon and is the host, the port then being 80; the host is never empty. |
| Addresses.SchemeOptional | torana-core/src/proxy.rs:148-150 | The scheme makes no difference to an address that does not begin with another one. |
| Addresses.PortExactly | torana-core/src/proxy.rs:154-155 | A port is written in decimal digits, leading zeros and one plus sign allowed, for a number below 65 536. |
| Headers.StripExact | torana-core/src/proxy.rs:92-107 | Stripping removes exactly the fixed hop-by-hop fields and those the Connection lines list (section 7.6.1 of RFC 9110): the tokens between the commas of a readable line, blanks around them or not; the other value lists are kept. |
| Headers.TrimUnique | torana-core/src/proxy.rs:99 | Trimming leaves exactly what lies between the blanks at both ends. |
| Headers.CharacterClasses | torana-core/src/proxy.rs:97-99 | Tokens are made of the visible characters that delimit nothing, values of all but control characters other than tabs, text of the ASCII ones among those. |
| Headers.StripIdempotent | torana-core/src/proxy.rs:92-107 | Stripping twice is stripping once. |
| Headers.OverridesByName | torana-core/src/proxy.rs:112-132 | The last usable override of a name sets it to one value or removes it; unnamed headers keep all their values. |
| Headers.OverrideOrderIrrelevant | torana-core/src/proxy.rs:112-132 | Every iteration order of the overrides has the same result on every head if and only if overrides affecting one header carry the same value. |
| Headers.CaseClash | torana-core/src/proxy.rs:112-132 | Names that differ in case only, with different values, make the result depend on the order. |
| Headers.AttemptHeadAddresses | torana-core/src/proxy.rs:77-82 | An attempt carries exactly one Host, one X-Forwarded-Proto and one X-Forwarded-For: the first surviving line with the client address added once if that line can be read, and the client address alone otherwise. |
| Headers.ChainCarriedExactly | torana-core/src/proxy.rs:134-144 | The chain the client sent goes on in full with its address added if and only if: no override decides the header, at most one readable line was sent, and the outgoing Connection header does not list it; or an override removes a header that was not sent, or sets the very text sent and that gets through, or sets one that does not get through where none was sent. |
| Headers.SecondChainLost | torana-core/src/proxy.rs:134-144 | Of two lines the second is lost, and both are if the first cannot be read. |
| Headers.ConnectionDropsChain | torana-core/src/proxy.rs:92-107 | A client that lists the header in Connection has its chain dropped: only its address is sent. |
| Headers.OverrideDropsChain | torana-core/src/proxy.rs:112-132 | So has a client of a route with an override that removes the header. |
| Headers.AttemptHeadIdentity | torana-core/src/server.rs:247-261 | The fingerprint header is absent or exactly the verified fingerprint; it is sent if and only if one was verified and Connection does not list the header. |
| Headers.ConnectionDropsFingerprint | torana-core/src/server.rs:247-261 | A client that lists the fingerprint header in Connection keeps its verified fingerprint from being sent. |
| Headers.AttemptHeadPassThrough | torana-core/src/server.rs:236-261 | Every other header is sent exactly when it survives the overrides and the stripping, with all its values. |
| Headers.AttemptsDifferInHostOnly | torana-core/src/server.rs:236-261 | The heads of two attempts of one request differ in the Host header and nothing else. |
| Headers.HeaderMap.StripHopByHop | torana-core/src/proxy.rs:92-107 | The two removal loops, editing in place, compute the stripping function. |
| Headers.HeaderMap.Override | torana-core/src/proxy.rs:112-132 | The override loop, editing in place, computes the override function. |
| Headers.HeaderMap.Forward | torana-core/src/proxy.rs:134-144 | The forwarding edit always succeeds and sets the chain and the scheme. |
| Configuration.ValidateExact | torana-core/src/config.rs:273-403 | In a build with plugins, the route checks accept exactly the non-empty lists of routes with upstreams, absolute paths, parsable plain upstream and mirror addresses, capped weights and rates, well-formed durations, no zero retries and valid header overrides. |
| Configuration.ValidatedRoute | torana-core/src/config.rs:286-377 | Under a validated configuration no upstream or mirror address of any route fails to parse, and a configured number of attempts is the limit. |
| Configuration.LbMapHolds | torana-core/src/upstream.rs:99-115 | The schedule kept under a name is that of the last route bearing it. |
| Shares.ConfiguredShares | torana-core/src/upstream.rs:99-115 | Any number of schedules' worth of consecutive tickets of the balancer kept for a name serve each address in exact proportion to the weight the last route of that name lists for it: as configured, at least one, a hundred if none is given. |
| Shares.OwnScheduleExactly | torana-core/src/upstream.rs:99-115 | A route is served from its own schedule if and only if the last route of its name lists the same addresses in the same order with configured weights in the same proportion (equal cross products). |
| Configuration.OneBalancerEachExactly | torana-core/src/upstream.rs:97-115 | There are as many balancers, and so ticket counters, as routes if and only if no two routes share a name. |
| Shares.FirstOfTwoLoses | torana-core/src/upstream.rs:99-115 | Of two routes that share a name and list different single upstreams, the first is served from the second's. |
| Configuration.LbMapNames | torana-core/src/upstream.rs:99-115 | Every name in the map is borne by a route, and there is a last one. |
| Configuration.ValidatedSchedules | torana-core/src/upstream.rs:99-115 | Under a validated configuration exactly the route names have schedules, and none of them is empty. |
| Routing.SelectRoute | torana-core/src/routing.rs:7-15 | The selected route matches; if none is selected, none matches. |
| Routing.EarlierRoutesWin | torana-core/src/routing.rs:12-14 | Configuration order is priority: a route that matches while no earlier one does is the one selected. |
| Routing.PathBySegments | torana-core/src/routing.rs:37-50 | A path pattern matches exactly the paths whose slash-split segments begin with those of the trimmed pattern. |
| Routing.PlainPathBySegments | torana-core/src/routing.rs:37-50 | A non-empty pattern that does not end in a slash matches exactly the paths whose segments begin with its own. |
| Routing.TrailingSlashIgnored | torana-core/src/routing.rs:41 | A slash more at the end of a pattern makes no difference to any path. |
| Routing.SlashesMatchAll | torana-core/src/routing.rs:41-44 | A pattern of slashes alone, or an empty one, matches every path. |
| Routing.HostByLabels | torana-core/src/routing.rs:17-35 | A wildcard matches exactly the hosts whose dot-split labels end with its own, ignoring case and port; any other pattern, the host itself. |
| Routing.HostCoversExact | torana-core/src/routing.rs:17-35 | One host pattern covers another exactly when it matches every host the other matches; a pattern with a colon matches none. |
| Routing.PathCoversExact | torana-core/src/routing.rs:37-50 | One path pattern covers another exactly when it matches every path the other matches. |
| Routing.CoversTransitive | torana-core/src/routing.rs:17-50 | Coverage of routes is transitive. |
| Routing.ShadowedRouteIsDead | torana-core/src/routing.rs:7-15 | Deleting a route covered by an earlier one changes the selection for no request. |
| Routing.DeadRouteExactly | torana-core/src/routing.rs:7-50 | A route can never be the first to match if and only if its host pattern has a colon or a single earlier route covers it. |
| Engine.ProxyEngine.Handle | torana-core/src/server.rs:98-310 | Not found, denial, or the attempt loop with the route's limit; the mirror is used only for replayable requests; requests, failures and responses are counted. |
| Engine.ProxyEngine.RunAttempts | torana-core/src/server.rs:212-309 | The loop makes the attempts and gives the reply of the attempt function; the streaming body is there whenever it is taken. |
| Engine.ProxyEngine.Prepare | torana-core/src/server.rs:236-261 | The in-place edits build the head of an attempt from the untouched original, or fail on an unusable address. |
| AttemptProperties.OnlyLastDelivers | torana-core/src/server.rs:215-306 | All attempts but the last failed to connect, there are no more than allowed, and the reply tells how the last one ended. |
| AttemptProperties.AtMostOnce | torana-core/src/server.rs:172-306 | At most one upstream may have seen a request, counting the mirror at most one server unless it is a GET, HEAD or OPTIONS without a body; the body is streamed at most once; attempts are failures counted plus responses observed. |
| AttemptProperties.RepeatedOnlyIfSafe | torana-core/src/server.rs:173-180 | A request of another method, or one that does not announce an empty body, has at most one attempt and no mirror. |
| AttemptProperties.SafeRequestIsRetried | torana-core/src/server.rs:173-176 | While nothing connects, a GET, HEAD or OPTIONS without a body gets all its route's attempts: as many as configured, or two with several upstreams and one with a single one. |
| AttemptProperties.MirroredExactly | torana-core/src/server.rs:179-183 | A request is mirrored if and only if its route has a mirror, it is a GET, HEAD or OPTIONS without a body, and the sample is below the rate, or the rate absent or full. |
| AttemptProperties.WaitingBounded | torana-core/src/server.rs:265-275 | Waiting for upstreams takes at most the timeout once per allowed attempt. |
| AttemptProperties.RequestWaitingBounded | torana-core/src/server.rs:265-275 | A request waits at most its route's timeout, thirty seconds if none is configured, times its attempts: those of the route for a GET, HEAD or OPTIONS without a body, otherwise one. |
| Timeouts.TimeoutBoundsRequestExactly | torana-core/src/server.rs:265-275 | Served from its own route's schedule, a request waits at most the route's timeout whatever its upstreams do within it, if and only if it has a single attempt, the timeout is zero, or no listed address can be used: split, taken by the URI parser and sent as Host. |
| AttemptProperties.NoUpstreamsExact | torana-core/src/server.rs:215-234 | "No upstreams available" is replied if and only if an attempt, all earlier ones having failed to connect, finds no schedule or an empty one. |
| SentHeads.AttemptExactly | torana-core/src/server.rs:215-306 | Each attempt goes where its own ticket and health reads select from the schedule of the moment, the addresses of the attempts before being excluded, and ends as that upstream behaves then, or with an error of its own if nothing could be sent. |
| SentHeads.HostSent | torana-core/src/proxy.rs:71-82 | An attempt of a request sends something if and only if its address splits and can be a Host value; its Host is then host, colon and port, its X-Forwarded-Proto the client's scheme. |
| SentHeads.IdentitySent | torana-core/src/server.rs:247-261 | An attempt sends the fingerprint header if and only if a fingerprint was verified and the Connection lines left by the overrides do not list the header, and then sends exactly the verified one. |
| SentHeads.ChainSentBy | torana-core/src/proxy.rs:134-144 | An attempt sends one forwarding chain: the first line carried over, if it can be read, and the client's address. |
| SentHeads.OthersSent | torana-core/src/server.rs:236-261 | An attempt sends every other header exactly as the client sent it or the deciding override of the route says, unless it is one of the eight hop-by-hop fields or listed by Connection. |
| SentHeads.AnswerReturned | torana-core/src/server.rs:278-286 | The client gets the last attempt's answer: each header as the deciding response override says, otherwise as answered unless hop-by-hop. |
| SentHeads.RoutedByFirstHost | torana-core/src/server.rs:108-112 | A route for one host matches a request if and only if its first Host line can be read and is that host, whatever its case and port. |
| RetryProgress.FirstAttemptsDiffer | torana-core/src/server.rs:212-306 | With a set of upstreams that stay healthy and that every scan of the request looks at, the attempts numbered below its size go to pairwise different addresses, whatever tickets are drawn. |
| RetryProgress.InOrderReaches | torana-core/src/upstream.rs:68-80 | Scans in order look at every upstream of the schedule. |
| RetryProgress.RetriesProgress | torana-core/src/server.rs:212-306 | Besides, with at least as many attempts as addresses, one healthy upstream answering and all others answering or failing to connect, the client gets an answer. |
| RetryProgress.ThreeToOne | torana-core/src/upstream.rs:18-39 | Weights 3 and 1 make the schedule a, b, a, a. |
| RetryProgress.FailOpenMayRepeat | torana-core/src/upstream.rs:85 | With those weights and everything unhealthy, both attempts can go to the heavier upstream. |
| RetryProgress.RetryGoesElsewhere | torana-core/src/upstream.rs:68-85 | For every ticket, with health fixed, a selection avoids the tried addresses if and only if an untried upstream its scan looks at is up, or none of those is up at all and the ticket falls on an untried one; in order the scan looks at all. |
| RetryProgress.WrapBreaksRetry | torana-core/src/upstream.rs:69-85 | At the wrap of the counter a retry can go back to the upstream it tried although another is up. |
| Probers.SpawnAll | torana-core/src/health.rs:74-97 | The loops spawn one prober for each upstream entry of each health-checked route, in order. |
| Probers.ProberForEntry | torana-core/src/health.rs:79-95 | Each upstream entry of each health-checked route has its own prober, and there are no others. |
| Probers.ProberSettings | torana-core/src/health.rs:83-93 | A prober works with the path, interval and timeout of its route, or with the root, ten seconds and two. |
| Probers.ProbedAddresses | torana-core/src/health.rs:74-97 | An address is probed if and only if a health-checked route lists it. |
| ReloadProperties.RunKeepsInv | torana-core/src/reload.rs:35-89 | In every interleaving each target holds what its generation's configuration says, every installed configuration passed validation, and the probers running are accounted for. |
| ReloadProperties.ReloadOrdering | torana-core/src/reload.rs:62-79 | In every interleaving the balancers of an attempt are of a generation at least that of the route's configuration and of its plugin, generations never decrease from attempt to attempt, and plugins read under the configuration lock are at most one ahead. |
| ReloadProperties.LoopHeadIsConsistent | torana-core/src/reload.rs:35-89 | At every loop head all targets are of the newest, validated configuration and exactly its probers run. |
| ReloadProperties.FailedReloadChangesNothing | torana-core/src/reload.rs:35-60 | A reload that fails to load, to validate or to compile a plugin leaves configuration, balancers, plugins and probers as they were. |
| ReloadProperties.NoSpuriousNoUpstreams | torana-core/src/server.rs:215-234 | "No upstreams available" is replied only if a reload overlapped the request and the newer generation has no route of that name. |
| Generations.SingleGenerationExactly | torana-core/src/reload.rs:62-79 | All a request has read up to an attempt is of the generation of its configuration if and only if it did not arrive between the swap of the balancers and that of the configuration and the balancers were not swapped since. |
| Generations.PluginGenerationExactly | torana-core/src/reload.rs:70-79 | The plugin a request reads is of the generation of its configuration if and only if it did not arrive between the swap of the plugins and that of the configuration and the plugins were not swapped since. |
| Generations.SwapsAreNotAtomic | torana-core/src/reload.rs:66-79 | For all valid configurations and every request the old one matches there is a run in which the request meets the balancers of the new one while the old one is installed. |
| Plugins.PluginMissedExactly | torana-core/src/server.rs:145-153 | In every run a request misses its route's plugin if and only if the plugins are still those of a failed start, or the cache is one generation ahead of its configuration and no route there has the plugin; a plugin found is of the cache's generation. |
| Plugins.UnfilteredAfterFailedStart | torana-core/src/server.rs:46-55 | For every valid configuration and request of a route with a plugin there is a run in which the start failed and the plugin is missed. |
| Plugins.UnfilteredDuringReload | torana-core/src/reload.rs:66-79 | For every valid configuration and successor without a plugin there is a run, its start in order, in which a request of the old one misses it while the old one is installed. |
| Reloader.ReloadTargets.Reload | torana-core/src/reload.rs:35-89 | An undisturbed pass replaces everything and leaves exactly the new probers running, or fails and changes nothing. |
| Drain.RunKeepsInv | torana-core/src/server.rs:485-496 | In every reachable state the tracker's references are those of the live tasks, and no receiver that is cloned from has been advanced. |
| Drain.CountWitnessesLife | torana-core/src/server.rs:486-490 | While a listener or a connection, handshaking or serving, is alive, the count exceeds the baseline. |
| Drain.DrainSafety | torana-core/src/server.rs:485-496 | Leaving the wait before the deadline, or reporting nothing left over, means that all listeners and connections have finished. |
| Drain.LeftoverCountsReferences | torana-core/src/server.rs:493 | The count above the baseline is listeners plus connections plus, once more, the serving ones. |
| Drain.LeftoverIsConnectionsExactly | torana-core/src/server.rs:493-495 | That number is the number of open connections if and only if no listener is alive and no connection is past its handshake. |
| Drain.OneConnectionCountsTwice | torana-core/src/server.rs:493-495 | In a reachable state a single serving connection makes the number two. |
| Drain.WaitForDrain | torana-core/src/server.rs:489-493 | The polling loop stops at the first evaluation that finds the count at one or fifteen seconds passed, after at most 300 sleeps. |
| Drain.WaitingTime | torana-core/src/server.rs:488-492 | In every run the wait ends only when nothing is alive or fifteen seconds after it began. |
| Drain.ShutdownIsSeen | torana-core/src/server.rs:541-546 | Once shutdown is sent, every live listener can stop and every serving connection can see it, those accepted afterwards included. |
| WholeSystem.OnlyLookupsMatter | torana-core/src/server.rs:212-306 | A request's attempts depend on the schedules it looks up and the tickets it draws and on no others. |
| WholeSystem.ScheduleAddresses | torana-core/src/upstream.rs:99-115 | The addresses a route's schedule can send to are exactly those it lists, unless a later route bears its name. |
| WholeSystem.NoOverlapMeansSteady | torana-core/src/server.rs:215-227 | If no reload swapped the balancers since the match, every attempt meets the schedule of the request's own configuration. |
| WholeSystem.SystemRetryProgress | torana-core/src/server.rs:212-306 | In every run of reloader, probers and registry together, from a request's arrival on and with no swap of the balancers meanwhile: pairwise different first attempts among the upstreams that are up, not reported down and within reach of its scans, and an answer if one of them answers and all others answer or fail to connect. |
| Probing.RunsOfParts | torana-core/src/health.rs:56-70 | Seen from the reloader or from the registry, a run of the whole is a run of that part, so all laws of the parts hold in it. |
| Probing.DroppedCheckIsFinal | torana-core/src/reload.rs:80-86 | Once a reload has dropped an address's check and no set of it is under way, its verdict never changes until a configuration asks for it again, and is healthy if and only if no verdict was ever swapped in or the last one was healthy. |
| Probing.NeverCheckedReadsHealthy | torana-core/src/health.rs:8-11 | An address no configuration so far has asked to check reads healthy. |
| Probing.StaleVerdict | torana-core/src/health.rs:8-11 | For all valid configurations of which only the first checks the address, there is a run in which a lookup returns unhealthy after the reload is over and no prober of the address is left. |

## Left out

- Sockets, the HTTP client and server, TLS, ALPN, certificates, ACME, WASM execution, metrics output, logging and the command line: library behaviour or plumbing.
- TOML decoding, the parser of durations and the listener checks of `Config::validate`: single branches that no law here depends on.
- The network side of a probe: its result is any boolean.
- The mirror's own head and outcome: only whether and where a request is mirrored is modelled. The mirror does not pass through overrides or the fingerprint step.
- The clock sample behind `mirror.rate`: a parameter.
- The grammar of URIs: which authorities parse is a parameter of the timeout law; elsewhere such a failure is among the "other error" outcomes, and the head recorded for the attempt is the one that would have been sent.
- IPv6 literals in Host: the text before the first colon is taken, as in the code, but no law is stated about what that means for them.
- Memory ordering: each counter and flag is a single atomic location, so one step per access is enough.
- Fairness of locks, and that connections ever end: the laws are about safety, and for shutdown about what is enabled.
- Stopping a prober takes effect at once, except that a `set` under way may go on, or be dropped where it waits for a lock.
- Expanding weights and summing them is done on unbounded numbers; validation caps weights at 10 000, far below the end of `u32`.
- Engine.ProxyEngine.Handle: selection is a function of the ticket drawn and the reads made (`Select`, which `NextHealthy` is proved to return) instead of a call on a shared balancer object, because other requests draw tickets in between.
- LoadBalancing.LoadBalancer.NextHealthy: a debug build stops instead of wrapping the index arithmetic; the release build is modelled.
- Configuration.ValidateExact: a build without plugins also rejects routes that have one; the checks of listeners come before the cited lines.
- HealthRegistry.RunKeepsInv: the interleaved registry is a state machine on values, with flag identities for the shared flags; aliasing of real objects is in the `Registry` class only.
- ReloadProperties.ReloadOrdering: the interleaved reload is a state machine on values; the object that is updated in place is `ReloadTargets`, for an undisturbed pass.
- Drain.WaitForDrain: the counts and times it meets are functions of the poll number, of which only the passing of time is assumed.
