# Verified model of the nw-lb-go load balancer

This project models the parts of the gRPC load balancer nw-lb-go whose guarantees cannot be read off a single
function, and proves them with Dafny 4.11. `dafny verify dfyconfig.toml` checks everything.

| file | component |
|---|---|
| `Exchange.dfy` | one proxied RPC as a transition system: the handler goroutine and the pump goroutine, every send, receive and critical section one step, peers chosen by the environment |
| `ExchangeSafety.dfy`, `ExchangeClient.dfy`, `ExchangeAttempts.dfy` | what every step keeps: control, messages and half-close; the client's view; attempts, reach and buffers |
| `ExchangeTheorems.dfy`, `ExchangeFailover.dfy` | the guarantees over every interleaving; when the next candidate is tried, and which status is returned |
| `CircuitModel.dfy` | the circuit breaker as a state machine over a log of outcomes |
| `Circuit.dfy` | the breaker class: circular buckets, running totals, probe tokens, refining the log |
| `CircuitRuns.dfy` | non-interference, state paths and recovery over every sequence of calls |
| `ProbeLedger.dfy` | one breaker with every admission and resolution |
| `RpcFleet.dfy`, `RunRefinement.dfy` | any number of RPCs following `run` and `CircuitBreak`; the link from `run` to the exchange |
| `RingOrder.dfy`, `HashRing.dfy` | the consistent hash ring, for every hash function, collisions allowed |
| `Pool.dfy`, `Balancer.dfy` | backends, and `Pick` with its fail-open ladder |
| `HealthCheck.dfy` | rise/fall hysteresis |
| `LoadStats.dfy`, `LoadReport.dfy` | nearest-rank percentiles, the one-pass report, the SLO verdict |
| `Arithmetic.dfy`, `Sorting.dfy`, `StatusCodes.dfy` | division lemmas, sorting, status codes |

Modelling decisions:

- Times are integer nanoseconds read from a clock that does not run backwards; every breaker call reads it under the
  lock. `FailureRatio` is a real number. The two ring hashes are arbitrary functions.
- A breaker's lock-free read of `fastState` and its locked path are separate: the flag `raced` covers a breaker that
  changed state between the two.
- In the exchange a message is identified with the buffer it arrived in, since bodies are opaque. A failed downstream
  `SendHeader` was not observed by the client; a failed downstream `SendMsg` may or may not have been.
- In the fleet the interceptor and the attempt loop of one request appear as two RPC processes, each holding at most one
  admission. An admission is named after its RPC and attempt. Candidates may share a breaker, as distinct backends do
  once the registry has handed out its limit of breakers (internal/circuit/circuit.go:417).
- `slices.Sort` and `slices.SortFunc` are represented by an insertion sort of which only "sorted permutation" is used;
  `sort.Search` by its binary search.
- Three promises that hold only under a condition, each with the condition proved exact. The error ratio is rounded to
  six decimals before it is compared with the budget, so the budget verdict is right exactly outside a gap between the
  budget and the middle of its part per million (`BudgetVerdictExactly`): a run over its budget can pass
  (`OverBudgetRunCanPass`), a run within it can fail (`WithinBudgetRunCanFail`), and every budget below 1 has such runs
  (`OnlyTheFullBudgetIsExact`). Two backends can accept the first message exactly under the `unavailable` policy with
  two candidates or more (`DuplicatesExactlyWhen`), as its documentation says. A lap of keyless requests is even except
  across the wrap-around of the 64-bit counter, where it is only if the number of backends divides 2^64
  (`KeylessLapIsEven`, `UnevenAtTheWrap`).
- Where code and documentation differ the code was followed: the retryable codes are those of `canRetry`
  (internal/proxy/proxy.go:415-461), not the longer list of docs/CONTRACT.md:461-467; filtering candidates in `Pick`
  polls breakers and reserves nothing, unlike the comment at internal/balancer/balancer.go:88-89.

## Model

| member | source | states |
|---|---|---|
| ExchangeTheorems.RetriesKeepTheMessages | internal/proxy/proxy.go:205-355 | under every interleaving of handler and pump, what each upstream stream was offered is a prefix of the client's messages and what it accepted a prefix of that; only the last installed stream was offered more than the first message, and it was offered everything except what the pump still holds |
| ExchangeTheorems.ClientSeesOneStream | internal/proxy/proxy.go:249-258 | all the client observes comes from the last installed stream: at most one header, before any message, then a prefix of that stream's messages in order, then a trailer only if that stream had ended |
| ExchangeTheorems.SuccessIsComplete | internal/proxy/proxy.go:359-371 | an RPC that returns OK was relayed completely: its stream ended in order and the client was shown every message it produced and then its trailer |
| ExchangeTheorems.NoAttemptAfterDelivery | internal/proxy/proxy.go:412-430 | no attempt starts, dials, replays or publishes once the client has seen anything |
| ExchangeTheorems.HalfCloseForwardedOnce | internal/proxy/proxy.go:294-342 | no stream is half-closed twice or before the client's EOF was processed, and once it was the installed stream has been half-closed unless the pump is just about to, whether EOF came before or after a replacement |
| ExchangeTheorems.FirstMessageAcceptedOnce | internal/proxy/proxy.go:431-461 | under none and connect-failure at most one attempt gets past install and at most one stream accepts the first message; under none there is at most one attempt |
| ExchangeTheorems.UnavailableMayDuplicate | internal/config/config.go:43-46 | under unavailable, for every RPC with two or more candidates, there is a run in which two streams accept the first message |
| ExchangeTheorems.DuplicatesExactlyWhen | internal/proxy/proxy.go:415-461 | a run in which two streams accept the first message exists if and only if the policy is unavailable and there are at least two candidates |
| ExchangeTheorems.FallbackUnreachable | internal/proxy/proxy.go:205-270 | at least one attempt and at most one per candidate is made once the first receive did not fail, and neither use of the "no backends available" fallback in run is ever reached |
| ExchangeTheorems.BuffersReleasedOnce | internal/proxy/codec.go:26-57 | each received buffer's proxy reference is released at most once, exactly once when both goroutines are done, and no released buffer is handed to SendMsg, replays of the first message included |
| ExchangeTheorems.StepKeeps | internal/proxy/proxy.go:167-203 | every step of either goroutine keeps all invariants of the exchange |
| ExchangeFailover.FailoverExactly | internal/proxy/proxy.go:412-461 | in every reachable state a failed attempt is followed by the next candidate if and only if there is one, the client has seen nothing, the pump has neither taken a second message nor found the client gone, the context is alive, and policy, stage and status are in a written-out table; otherwise the status is final |
| ExchangeFailover.EveryCandidateIsTried | internal/proxy/proxy.go:205-261 | under both retrying policies, if no backend can be reached all candidates are asked, an attempt is made on each admitted one, and only then is Unavailable returned |
| ExchangeFailover.AttemptsExactly | internal/proxy/proxy.go:205-216 | over every run the attempts are one per admitted candidate, and one for the last candidate whether admitted or not |
| ExchangeFailover.LastStatusIsReturned | internal/proxy/proxy.go:205-261 | an RPC that returns gives the client the last status any attempt or its own first receive came back with, and never anything else |
| ExchangeFailover.LastWords | internal/proxy/proxy.go:249-258 | if the relayed stream reported its end its trailer, and its header if it could still be sent, reach the client on success and failure alike; if it did not, nothing is added |
| ExchangeFailover.NeverStuck | internal/proxy/proxy.go:190-203 | in every reachable state the handler can go on until it has returned, and the pump until it has stopped, except while it waits for the lock the handler holds |
| ExchangeSafety.MessagesPump | internal/proxy/proxy.go:326-355 | the pump's steps keep the message invariant: before it commits, the client's messages are the first one plus what it holds; afterwards they all go to the captured stream |
| ExchangeSafety.MessagesInstall | internal/proxy/proxy.go:275-305 | opening, replaying and publishing a stream under the lock keeps the message invariant |
| ExchangeSafety.HalfCloseInstall | internal/proxy/proxy.go:294-303 | a replacement published after the client's EOF is closed by install, and the pump's pending close is for another stream |
| ExchangeClient.ViewedRelay | internal/proxy/proxy.go:359-410 | relaying, header forwarding and the end of an attempt keep the client's transcript a header, a prefix of the messages and a trailer of one stream |
| ExchangeAttempts.TriedLoop | internal/proxy/proxy.go:205-239 | the candidate loop keeps: every index is in range, an earlier published attempt left an error behind, attempts never exceed candidates and streams never exceed attempts |
| ExchangeAttempts.BuffersRelay | internal/proxy/proxy.go:359-395 | every exit of relay frees the message it holds exactly once |
| RunRefinement.ExchangeRefinesRun | internal/proxy/proxy.go:205-261 | over every joint run of an exchange and a fleet with any other events in between: the exchange's steps are a run of it, their image with the other events is a run of the fleet, and the fleet's RPC ends where the handler does; Reserve admits exactly as health and the fleet's breaker answer |
| RunRefinement.EveryExchangeRunOccurs | internal/proxy/proxy.go:205-261 | in every fleet each run of the exchange is part of a joint run, so nothing proved of joint runs leaves one out |
| RunRefinement.StepRefines | internal/proxy/proxy.go:205-261 | every step of the exchange is one step of the fleet's attempt loop or invisible to it |
| RunRefinement.ExchangeSettlesItsAdmissions | internal/proxy/proxy.go:207-261 | whatever else the fleet does, a proxied RPC holds an admission only for the attempt it is making and of that candidate's breaker, and past its last record every admission it took has been resolved exactly once |
| RunRefinement.FailoverIsCharged | internal/proxy/proxy.go:435-483 | whenever an attempt is failed over, the breaker of its backend is given one failure, on the admission if there is one and as a stray outcome if not, and its log grows by exactly that failure |
| RunRefinement.EveryAttemptIsRecorded | internal/proxy/proxy.go:474-485 | every attempt that ends, failed over or final, adds one outcome to the log of its backend's breaker and touches no other breaker; the outcome is a failure exactly for five written-out codes |
| RunRefinement.NothingElseIsRecorded | internal/proxy/proxy.go:224-232 | no other step of an exchange logs an outcome, an attempt refused by install included |
| RpcFleet.ProbesAreInFlightRpcs | internal/circuit/circuit.go:210-231 | over every interleaving of any number of RPCs, candidates sharing a breaker included, a half-open breaker's probes is the number of RPCs in flight holding a token of the running generation, never above HalfOpenMax |
| RpcFleet.ResolvedExactlyOnce | internal/middleware/circuitbreaker.go:21-51 | when an RPC is over, each admission it took for any attempt has been resolved exactly once and none it did not take, on every exit path of run and CircuitBreak, handler panics included |
| RpcFleet.VerdictIsEarned | internal/proxy/proxy.go:474-485 | over every run, once a handler or an attempt has ended the books hold for its admission exactly one verdict for good: failed for a panic or one of five codes, succeeded for any other, abandoned if install refused |
| RpcFleet.InterceptorTellsTheTruth | internal/middleware/circuitbreaker.go:38-67 | over every run, the admission of a wrapped handler is resolved as a failure if and only if the handler panicked or returned one of five written-out codes |
| RpcFleet.InterceptorGates | internal/middleware/circuitbreaker.go:21-30 | the handler runs if and only if the method's breaker is closed, or open past its timeout, or half-open with fewer than HalfOpenMax RPCs in flight on its probes |
| RpcFleet.ReserveGates | internal/proxy/proxy.go:207-216 | a candidate is tried if and only if it is healthy and let through where its breaker gates, or is the last; an admission is held exactly if the breaker was asked and let it through |
| RpcFleet.ExitLogs | internal/middleware/circuitbreaker.go:38-47 | the end of a handler or attempt logs one outcome with its own breaker and no other, admitted or not; an attempt refused by install logs none |
| RpcFleet.AskIsLegal | internal/proxy/proxy.go:207-248 | no step of an RPC resolves an admission it does not hold or takes a second one for the same attempt |
| RpcFleet.StepKeepsInv | internal/proxy/proxy.go:205-261 | every step of every RPC, and polls, counts and resets from outside, keep holders and ledgers in agreement |
| ProbeLedger.EveryMoveIsJustified | internal/circuit/circuit.go:246-286 | over every run: half-open closes only when HalfOpenMax distinct probes of that episode succeeded and none failed, reopens only on such a probe's failure, closed opens only on the trip condition, open leaves only to half-open after OpenTimeout; probe tokens come only from the episode they name |
| ProbeLedger.EveryMoveHappens | internal/circuit/circuit.go:246-286 | the converse, over every run: the state after each operation is the one the history demands, the trip condition counted over the log positions inside the window |
| ProbeLedger.AdmissionExactly | internal/circuit/circuit.go:202-231 | over every run a request is admitted if and only if the breaker is closed, or open past its timeout, or half-open with fewer than HalfOpenMax of its probes outstanding |
| ProbeLedger.NoEarlyAdmission | internal/circuit/circuit.go:309-315 | after a trip no run without Reset admits anything before OpenTimeout has elapsed |
| ProbeLedger.SlotsAreConserved | internal/circuit/circuit.go:139-152 | probes and successes in half-open are the outstanding and the successful probes of the running episode, and no admission is resolved twice |
| ProbeLedger.RecoversFromEveryRun | internal/circuit/circuit.go:263-279 | from every reachable state without an outstanding current probe, once the timeout is over at most HalfOpenMax admit-and-succeed rounds close the breaker with an empty window |
| CircuitRuns.StaleOutcomeIsAPoll | internal/circuit/circuit.go:252-286 | replacing an outcome that is not from the running episode, arriving while the breaker is not closed, by a State poll changes no later state, transition, readiness or admission of any run |
| CircuitRuns.OneConnectedPath | internal/circuit/circuit.go:353-376 | every call appends at most one transition and all transitions of a run form one connected path |
| ProbeLedger.TransitionsFormOnePath | internal/circuit/circuit.go:353-376 | the same for every run whose callers present only tokens they were given, from closed to the state the breaker is in, with nothing left to assume about generations |
| CircuitRuns.MinRequestsFailuresTrip | internal/circuit/circuit.go:258-262 | MinRequests failures in a row open a freshly closed breaker whose FailureRatio is at most 1, and not one fewer, if they fall into one bucket or are recent when the last arrives |
| CircuitRuns.NoWedge | internal/circuit/circuit.go:263-279 | with no probe outstanding the breaker closes after exactly HalfOpenMax minus the successes so far rounds |
| CircuitRuns.StrandedProbesWedge | internal/circuit/circuit.go:134-138 | with HalfOpenMax probes never resolved no sequence of other calls is ever admitted again, so the premise of NoWedge is needed |
| CircuitModel.Normalize | internal/circuit/circuit.go:47-70 | every normalized Settings is usable, each usable value is kept whatever the others are, the open timeout always |
| CircuitModel.Defaults | internal/circuit/circuit.go:47-70 | the values that replace unusable ones |
| CircuitModel.BucketDur | internal/circuit/circuit.go:154-159 | a bucket is at least one nanosecond wide and a lap of buckets misses the window by less than one nanosecond per bucket |
| CircuitModel.WindowBounds | internal/circuit/circuit.go:317-335 | the counts are the numbers of log positions, and of failures among them, since one cut-off: nothing as old as the configured window is counted, everything younger than all but one of its B parts is, up to the rounding of the bucket width |
| CircuitModel.TripsExactly | internal/circuit/circuit.go:246-262 | an outcome on a closed breaker opens it if and only if, counting it, the window holds at least MinRequests outcomes and at least FailureRatio of them failed |
| CircuitModel.AdmitsExactly | internal/circuit/circuit.go:202-231 | when Admit succeeds in each state, and that every other admission than by a closed breaker is a probe of the episode it names, counted in the slots |
| CircuitModel.PollsDoNotChangeCounts | internal/circuit/circuit.go:317-335 | rolling forward in any number of polls reports the same counts as rolling once, although the bucket alignment may differ |
| Circuit.TotalIsBucketSum | internal/circuit/circuit.go:94-97 | the running total is the sum of the buckets |
| Circuit.RotateKeeps | internal/circuit/circuit.go:328-333 | retiring the oldest bucket leaves buckets and total exact for the window moved by one bucket width |
| Circuit.CountKeeps | internal/circuit/circuit.go:344-351 | counting an outcome leaves buckets and total exact for the longer log |
| Circuit.Breaker.constructor | internal/circuit/circuit.go:154-168 | a new breaker is closed with an empty exact window |
| Circuit.Breaker.AdvanceLocked | internal/circuit/circuit.go:318-335 | in place rolling of the circular buckets keeps them exact and moves only the window start |
| Circuit.Breaker.ClearLocked | internal/circuit/circuit.go:337-342 | clearing is exact whenever everything logged lies before the new window |
| Circuit.Breaker.CountLocked | internal/circuit/circuit.go:344-351 | appends the outcome to the log and keeps the window exact |
| Circuit.Breaker.SetStateLocked | internal/circuit/circuit.go:353-376 | the state change of the model, with its transition appended, the mirror updated, the window emptied on close |
| Circuit.Breaker.RefreshLocked | internal/circuit/circuit.go:308-315 | rolls the window and expires the open timer as the model does |
| Circuit.Breaker.PollState | internal/circuit/circuit.go:172-184 | reports the state after the expiry; a closed breaker is not touched |
| Circuit.Breaker.Ready | internal/circuit/circuit.go:186-200 | true exactly when Admit would succeed at that instant, without reserving |
| Circuit.Breaker.Admit | internal/circuit/circuit.go:202-231 | token, verdict and new state are those of the model; allowed exactly when closed, or open past the timeout, or half-open with a slot free |
| Circuit.Breaker.Record | internal/circuit/circuit.go:246-286 | state, log and transitions are those of the model; a closed breaker opens exactly when the outcomes of the window are enough and too many of them failed |
| Circuit.Breaker.Release | internal/circuit/circuit.go:134-152 | gives back a slot of the running episode and changes nothing else |
| Circuit.Breaker.Counts | internal/circuit/circuit.go:288-295 | returns the number of logged outcomes, and of failures, since a cut-off that lies as far back as the configured window demands |
| Circuit.Breaker.Reset | internal/circuit/circuit.go:297-306 | closed, empty log, window restarted, no slots taken, the episode counter kept, one transition exactly if it was not closed |
| HashRing.VnodeCount | internal/hashring/hashring.go:186-197 | every member has at least one virtual node |
| HashRing.VnodesGrow | internal/hashring/hashring.go:188-197 | more weight never means fewer virtual nodes, whatever the configured number |
| HashRing.VnodesFloor | internal/hashring/hashring.go:186-197 | for every weight the virtual nodes are the configured number times weight per hundred, rounded down, and at least one |
| HashRing.VnodesScale | internal/hashring/hashring.go:15-20 | a weight of k hundred gets k times the configured virtual nodes, and a non-positive weight counts as 100 |
| HashRing.Build | internal/hashring/hashring.go:143-184 | the points are exactly every virtual node of the final id-to-weight map, sorted by hash and owner, and the members are sorted by id |
| HashRing.BuildIsUnique | internal/hashring/hashring.go:22-29 | the snapshot depends on the id-to-weight map alone, not on input or map order, hash collisions included |
| HashRing.Index | internal/hashring/hashring.go:134-141 | binary search finds the first point at or after the position, wrapping to 0 |
| HashRing.Get | internal/hashring/hashring.go:96-103 | the owner of the clockwise successor point and head of the preference order; fails only on an empty ring |
| HashRing.GetN | internal/hashring/hashring.go:105-132 | exactly the first min(n, members) entries of the preference order, for every n, so it is prefix-stable |
| HashRing.PreferIsPermutation | internal/hashring/hashring.go:105-132 | the preference order lists every member exactly once |
| HashRing.FilterIsRebuild | internal/hashring/hashring.go:107-197 | the preference order filtered by a set of members is the preference order of a ring rebuilt from only those |
| HashRing.RemovalMovesOnlyItsKeys | internal/hashring/hashring.go:64-79 | removing a member moves only the keys it owned |
| HashRing.GrowthMovesOnlyOntoIt | internal/hashring/hashring.go:53-62 | adding a member or giving it more virtual nodes moves keys only onto it |
| HashRing.OthersKeepTheirOrder | internal/hashring/hashring.go:53-62 | changing one member leaves the relative order of all others unchanged for every key |
| HashRing.Ring.constructor | internal/hashring/hashring.go:39-44 | the ring of the given members |
| HashRing.Ring.Set | internal/hashring/hashring.go:46-51 | replaces the membership, last occurrence of an id winning |
| HashRing.Ring.Add | internal/hashring/hashring.go:53-62 | membership updated at one id, snapshot the build of it |
| HashRing.Ring.Remove | internal/hashring/hashring.go:64-79 | membership without the id, snapshot the build of it, unknown ids a no-op |
| Pool.Backend.SetState | internal/pool/pool.go:82-86 | stores the state and reports exactly the real transitions |
| Pool.Backend.Available | internal/pool/pool.go:92-102 | true exactly when healthy and, if the breaker gates, it would admit; reserves nothing |
| Pool.Backend.Reserve | internal/pool/pool.go:104-118 | admits through the breaker only when healthy and gated, otherwise an unattributed token and an untouched breaker |
| Balancer.CollectRing | internal/balancer/balancer.go:139-154 | for arbitrary answers extends the list by distinct snapshot backends up to the limit; for steady ones it is the filtered scan |
| Balancer.CollectRotation | internal/balancer/balancer.go:156-169 | for arbitrary answers distinct backends up to the limit; for steady ones the filtered rotation |
| Balancer.TwoStep | internal/balancer/balancer.go:116-125 | scanning the first few and resuming over the whole order only when something was filtered equals filtering the whole order |
| Balancer.LadderServes | internal/balancer/balancer.go:82-90 | the candidates are the head, in preference order and passing nothing over, of the available backends if there are any, else of the healthy ones, else of all: as many as maxAttempts (at least one) or as the rung has |
| Balancer.PickKeyed | internal/balancer/balancer.go:90-137 | for arbitrary changing answers and lagging ring snapshots: non-empty, duplicate-free, at most maxAttempts, from the snapshot; for steady answers and a matching ring exactly the head of the first non-empty rung in preference order |
| Balancer.PickKeyless | internal/balancer/balancer.go:104-114 | the same over the backends rotated by the counter, which advances by one |
| Balancer.KeylessLapIsEven | internal/balancer/balancer.go:35-37 | while all N backends stay available the first choices of N keyless requests in a row are N different backends, if and only if the 64-bit counter does not wrap among them or N divides 2^64 |
| Balancer.UnevenAtTheWrap | internal/balancer/balancer.go:104-114 | three available backends and a counter about to wrap: two of three requests in a row get the same first choice |
| Balancer.RoutesLikeRebuiltRing | internal/balancer/balancer.go:1-7 | while some backend is available a key gets exactly the first maxAttempts entries of the preference order of a ring rebuilt from the available backends only |
| Balancer.OutageMovesOnlyItsKeys | internal/balancer/balancer.go:3-7 | a key whose first choice stays available keeps it when other backends go down |
| Balancer.SameMembership | internal/balancer/balancer.go:200-212 | true exactly for the identical list of backends |
| Balancer.Balancer.Rebuild | internal/balancer/balancer.go:173-198 | afterwards ring and snapshot are those of the pool, the ring untouched if nothing changed, everything untouched once closed |
| Balancer.Balancer.Pick | internal/balancer/balancer.go:82-137 | never empty unless the pool is, duplicate-free, at most maxAttempts, from the pool; for steady answers the head of the first non-empty rung, its length min(maxAttempts, rung) included, and for a key the order of the ring rebuilt from the available backends |
| HealthCheck.CountersTellTheHistory | internal/health/health.go:245-297 | for every probe history the counters are the trailing runs clamped at the thresholds, the state is the latest verdict of the history, and notifications are exactly its changes |
| HealthCheck.FlipsCostProbes | internal/health/health.go:3-7 | h upward and u downward flips take at least h*Rise + u*Fall probes |
| HealthCheck.Checker.constructor | internal/health/health.go:75-99 | thresholds are raised to at least one, the counters start at zero |
| HealthCheck.Checker.Record | internal/health/health.go:245-297 | the published state is the verdict of the whole history and a change is reported exactly when it changed |
| LoadStats.PercentileIndex | cmd/loadgen/stats.go:112-133 | an index into the samples for every percentile, -1 only without samples |
| LoadStats.RankIsLeast | cmd/loadgen/stats.go:125-132 | the rank is the least that covers the requested share |
| LoadStats.IndexMonotone | cmd/loadgen/stats.go:118-133 | a higher percentile never selects a lower rank |
| LoadStats.NoOverflow | cmd/loadgen/stats.go:129-130 | the product fits int64 for every percentile exactly up to 9223372036853 samples |
| LoadStats.NearestRank | cmd/loadgen/stats.go:135-144 | the percentile is a sample, the smallest one not exceeded by at least the requested share |
| LoadStats.LatencyStatsOf | cmd/loadgen/stats.go:146-164 | percentiles, maximum and the mean of the sum of all samples |
| LoadStats.FiguresAreWhatTheySay | cmd/loadgen/stats.go:146-164 | p50, p90, p95, p99 and p99.9 are the nearest ranks of 1/2, 9/10, 19/20, 99/100 and 999/1000, then the greatest sample and the mean, each rounded to the nearest microsecond |
| LoadStats.EndsOfTheScale | cmd/loadgen/stats.go:118-124 | percentile 0 and below is the least sample, 100 and above the greatest |
| LoadStats.FiguresAreOrdered | cmd/loadgen/stats.go:155-163 | p50, p90, p95, p99, p99.9 and the maximum are in ascending order and the mean does not exceed the maximum |
| LoadStats.ResponseDominatesService | cmd/loadgen/stats.go:146-164 | if one list of times is pointwise at least another, every figure is, although they are sorted independently |
| LoadReport.OmissionOnlyRaisesLatency | cmd/loadgen/stats.go:28-34 | if nothing was sent before it was scheduled every response-time figure is at least the service-time figure |
| LoadReport.LatenessIsTheDifference | cmd/loadgen/stats.go:20-34 | all response times together exceed all service times together by exactly the time requests were sent after their schedule |
| LoadReport.Aggregate | cmd/loadgen/stats.go:202-240 | the one-pass loop collects exactly the OK and error times, the violations, the histograms by code and backend, and the stickiness sets |
| LoadReport.BuildReport | cmd/loadgen/stats.go:180-264 | totals add up, figures are those of the OK samples only, distinct and split keys are counted as defined over the whole sample list |
| LoadReport.P99IsTheOnePercent | cmd/loadgen/stats.go:266-290 | the 99th percentile exceeds the SLO exactly when more than 1% of the OK requests violated it |
| LoadReport.LatencyVerdictIsHonest | cmd/loadgen/stats.go:274-290 | a latency failure implies more than 1% violations; a pass implies successes, no interruption and p99 below the SLO plus one microsecond |
| LoadReport.LatencyVerdictExactly | cmd/loadgen/stats.go:274-290 | the reported p99 exceeds the reported SLO if and only if more than 1% of the OK requests took longer than the SLO rounded to microseconds plus 499 nanoseconds |
| LoadReport.PassExactly | cmd/loadgen/stats.go:274-290 | a run passes if and only if it was not interrupted, answered something, its error ratio is below the middle of the budget's part per million and at most 1% of its answers exceeded the rounded SLO |
| LoadReport.BudgetIsRounded | cmd/loadgen/stats.go:257-284 | for every budget, a run is over it exactly when its error ratio reaches the middle of the part per million in which the budget lies |
| LoadReport.BudgetVerdictExactly | cmd/loadgen/stats.go:274-284 | the verdict agrees with errors/total > budget if and only if the ratio does not lie between the budget and that middle |
| LoadReport.OnlyTheFullBudgetIsExact | cmd/loadgen/main.go:166-168 | of all budgets in [0,1] only 1 is judged right for every run |
| LoadReport.OverBudgetRunCanPass | cmd/loadgen/stats.go:257-284 | every report of ten million immediate requests with 10004 errors passes a budget of 0.001, which it exceeds |
| LoadReport.WithinBudgetRunCanFail | cmd/loadgen/stats.go:257-284 | every report of ten million immediate requests with 10006 errors fails a budget of 0.0010007, which it keeps |

## Left out

- gRPC, HTTP/2, dialing, keepalive, deadlines and contexts: only the results of calls are modelled, chosen by the environment.
- internal/ratelimit, internal/config, cmd/lb, cmd/backend, cmd/loadgen/main.go: limits, parsing, flags, wiring and servers.
- Metrics, logging, request ids, metadata copying and report rendering: no invariants beyond plumbing.
- Order in which state-change callbacks run across goroutines: they fire after unlock; only the transitions appended under the lock are claimed.
- circuit.Registry: create-on-miss would only add easy members; its effect, that backends may share a breaker, is covered in the fleet.
- Panics inside `run`: there is no deferred resolution there, so panics are covered for `CircuitBreak` only.
- Hash quality and load-balance ratios: not provable over arbitrary hash functions.
- exchange as an object: the exchange is modelled as values and steps, because two goroutines interleave on it; update in place is not captured.
- Circuit.Breaker.Record: the generation counter is unbounded instead of 64 bits wide.
- HashRing.VnodeCount: virtual nodes times weight is not limited to 64 bits.
- LoadStats.PercentileIndex: percentiles are real numbers, so the not-a-number case is left out.
- LoadReport.BuildReport: request rates, durations and the fields copied from the parameters are left out.
