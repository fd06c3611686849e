# Concurrency and resilience components, modelled and proved

This project models ten components of the egl-utils-go module in Dafny and proves what they promise about
every interleaving, every run or every input. `dafny verify dfyconfig.toml` checks all of it.

Most of the components are objects shared by goroutines. Each of those appears twice:

- as a *class* (`RateLimiter.Limiter`, `BreakerSequential.Breaker`, `PubSubBroker.Broker`, `WorkerPool.Pool`,
  `MetricsRecorder.Recorder`, `Cache.TTLCache`, `Lifecycle.Coordinator`) with one method per lock-protected body or
  loop, proved against a specification function;
- as a *transition system* whose steps are the atomic actions of the code (a critical section, a select, an atomic
  load or add, a channel operation), interleaved in any order with clock ticks, cancellations, consumers and other
  callers. `Runs.Run` says what a run is, `Runs.Invariance` lifts what every step keeps to every state of every run,
  and the theorems below are about those states. Extra fields log what happened (messages received, tasks finished,
  funding instants), so that the theorems can speak about the whole past.

| file | models |
|---|---|
| `Runs`, `Collections` | runs of a transition system; counting, subsequences |
| `PubSub`, `PubSubSafety`, `PubSubOutcome`, `PubSubFifo`, `PubSubOrder`, `PubSubBroker` | pkg/pubsub: the broker cut at the three selects of `deliver`; accounting and channel lifetime; what each call comes to; order among concurrent publishers; what publications that do not overlap add; the object |
| `RateLimit`, `RateLimitOrder`, `RateLimitCancel`, `RateLimiter` | pkg/ratelimit: the token-bucket law; every funding instant in closed form, arrival order and windows; cancellation; the object |
| `CircuitBreaker`, `BreakerSequential` | pkg/circuitbreaker: overlapping calls; calls that do not overlap, and the object |
| `WorkerPool` | pkg/workerpool |
| `Metrics`, `MetricsSafety`, `MetricsRecorder` | pkg/metrics: observers and scrapes; what they keep; labels, sorting and the object |
| `Cache` | pkg/cache: the sharded cache against one plain map; the object |
| `Pipelines`, `PipelinesProgress` | pkg/fanout and pkg/fanin, and one feeding the other; nobody is stuck |
| `Retry` | pkg/retry over wrapping 64-bit integers |
| `Lifecycle` | pkg/lifecycle |

Conventions. Instants and durations are integer nanoseconds, tokens and rates are reals. The clock, random draws,
contexts, the hash function, the outcome of user functions and the machine's floating addition are parameters or
step labels. A `requires` on a constructor or policy is the check whose failure panics in the source. Where a step
could be refused by the scheduler (a full queue, a busy lock) it is simply not enabled, so the theorems are about
safety only.

Some statements in the repository's documentation do not hold of the code; the model follows the code. For each there is
a run that shows it fail, and a theorem that says when it holds.

- The design record of the rate limiter says that every window obeys the bucket law. `RateLimitCancel.CancelledRun` is a run
  with two cancelled Waits that breaks it. `RateLimitOrder.PairLaw` says, for any two tokens of any run, exactly when the
  tokens between them obey the law, `RateLimitOrder.SurvivorLaw` the same for those not given back, and
  `RateLimitOrder.DebtEpisode` what it comes to while the bucket stays in debt: fewer than `burst` repayments.
  `RateLimitOrder.WindowLaw` bounds every window of every run by the law plus the repayments, so that it holds without
  cancellation. `RateLimitOrder.WindowLawExactly` reduces the law over all windows of a run to the windows that end at
  tokens, and `RateLimitOrder.WindowLawInOrder` gives the plain condition as long as nobody has overtaken. The law counted from
  construction survives cancellation (`RateLimit.TokenBucketLaw`).
- The same record says that waiters are served in arrival order. The same run breaks it; `RateLimitOrder.Overtaking` says
  exactly when, for any two tokens of any run, and in debt that is when more tokens were repaid than taken between them
  (`RateLimitOrder.DebtEpisode`). Otherwise the order holds (`RateLimitOrder.ArrivalOrder`).
- It also says, as does the comment on Wait, that a cancelled Wait never costs a token.
  `RateLimitCancel.CancelledWaitCostsToken` are two runs in which it costs another caller one. For any calls in between,
  `RateLimitCancel.CancelledWait` says exactly when no Allow is answered differently because of the Wait, from the run
  without it alone; then it costs nothing. `RateLimitCancel.InvisibleBeforeFunding` adds that a Wait cancelled by the
  instant of its funding costs nothing in all, if nobody else repays, and `RateLimitCancel.CancelledWaitAmongCalls` that at
  most one Allow fewer is granted in any case.
- And it says that the repayment is exact. `RateLimitCancel.LateCancelMintsToken` are two runs in which it leaves a token too
  many; `RateLimitCancel.CancelledWait` says exactly when neither the answers nor the bucket show that the Wait ever was.
- A comment in pkg/metrics says that a scrape never sees the count ahead of the sum. The sum is read first, so it can:
  `MetricsSafety.CountCanLeadSum` is a run that does, `MetricsSafety.CountAheadOfSum` says exactly when, and
  `MetricsSafety.CountFirstNeverAhead` that reading the count first would make the comment true.

## Model

| member | source | states |
|---|---|---|
| PubSubSafety.ExactlyOnce | pkg/pubsub/pubsub.go:106-206 | in every interleaving and under every policy, the publications of a message that reached a subscription are the copies received, buffered, reported dropped and in a publisher's hand; with no delivery under way to it, everything offered is accounted for exactly once, as multisets |
| PubSubOutcome.PublishReaches | pkg/pubsub/pubsub.go:106-145 | in every run, whoever else is publishing: a Publish with a done context returns its error and one on a closed broker ErrClosed, reaching nobody; any other has, when it returns, reached exactly the subscriptions that were registered on its topic when it was called and accept the message, and returns ErrSlowSubscriber or nil as it reported a drop or not |
| PubSubSafety.PublishOutcome | pkg/pubsub/pubsub.go:116-145 | a finished Publish reached exactly those of its audience whose filter accepts the message, and returned ErrSlowSubscriber if and only if it reported a drop |
| PubSubOutcome.OfferOutcome | pkg/pubsub/pubsub.go:160-173 | the first select in every run: to a receiver parked on an empty channel, else into free room; else DropOldest goes on and the other policies drop and report the message, Disconnect listing the subscription |
| PubSubOutcome.MakeRoomOutcome | pkg/pubsub/pubsub.go:175-186 | the second select discards and reports exactly the oldest buffered message, if there still is one |
| PubSubOutcome.AgainOutcome | pkg/pubsub/pubsub.go:188-198 | the third select sends if it can, and otherwise drops and reports the message; a loss is counted if it dropped or had evicted |
| PubSubOutcome.SubscribeOutcome | pkg/pubsub/pubsub.go:219-251 | in every run, an open broker and a live context give an open, empty, watched and registered channel, however many others there are; otherwise one closed once and not registered; nobody else is affected |
| PubSubOutcome.WatcherOutcome | pkg/pubsub/pubsub.go:249-272 | the watcher of a done context closes and unregisters its subscription and no other, leaving what is buffered |
| PubSubOutcome.DisconnectOutcome | pkg/pubsub/pubsub.go:134-139 | a publisher disconnects only subscriptions that lost its message under Disconnect, closing and unregistering each |
| PubSubOutcome.DisconnectRemoves | pkg/pubsub/pubsub.go:121-139 | once a Publish under Disconnect has returned, every subscription that could not take its message is closed and unregistered |
| PubSubOutcome.CloseIsFinal | pkg/pubsub/pubsub.go:277-295 | after Close nothing is ever registered again, every channel old or new is closed, and every later Publish returns ErrClosed or its context's error, reaching nobody |
| PubSubOutcome.PublisherCanStep | pkg/pubsub/pubsub.go:106-145 | no publisher is ever stuck: it has a step to take, or waits for the write lock while some publisher under the read lock has one |
| PubSubSafety.ChannelLifetime | pkg/pubsub/pubsub.go:219-295 | a channel is closed at most once by watcher, Disconnect and Close together, is open exactly while registered, has a pending removal once its context is done and no watcher left once closed, and is never sent to or evicted from when closed |
| PubSubSafety.StepInv | pkg/pubsub/pubsub.go:106-295 | every step of publishers, consumers, watchers, Subscribe, remove and Close keeps the registry, publisher and accounting invariants |
| PubSubSafety.RemoveRegistered | pkg/pubsub/pubsub.go:259-272 | remove takes exactly one subscription out of the registry, drops the topic if and only if it was the last one, closes that channel and no other, and is a no-op on one already gone |
| PubSubFifo.GoroutineOrder | pkg/pubsub/pubsub.go:31-33 | in every interleaving with any other publishers: if one Publish had returned before another was called, its copy comes first in what any subscription received and has buffered; every copy there is the message of its publication, and no publication has two |
| PubSubFifo.StepTagged | pkg/pubsub/pubsub.go:160-199 | every step keeps each copy of a stream paired with the one publication that sent it, evictions included |
| PubSubOrder.PublishOrder | pkg/pubsub/pubsub.go:106-199 | for publications that do not overlap, in addition: received then buffered messages are a subsequence of publish order, under DropOldest the buffer is its end, and a registered subscription was offered exactly the accepted messages published since it subscribed |
| PubSubOrder.NewestEnters | pkg/pubsub/pubsub.go:175-199 | for publications that do not overlap and a buffer of at least one, the send after DropOldest's eviction always succeeds |
| PubSubOrder.StepSeq | pkg/pubsub/pubsub.go:106-199 | every step of a sequential publisher's run keeps the order and history invariants |
| PubSubBroker.UninterruptedDeliver | pkg/pubsub/pubsub.go:160-199 | the three selects taken in a row have exactly the effect deliver documents for each policy |
| PubSubBroker.Broker.Subscribe | pkg/pubsub/pubsub.go:219-251 | a live subscription is registered, open, empty and watched; a closed broker or done context yields a channel closed once and never registered; all other channels and registrations are unchanged |
| PubSubBroker.Broker.Remove | pkg/pubsub/pubsub.go:259-272 | the new registry and channel are those of the specification, including the already-gone case |
| PubSubBroker.Broker.Close | pkg/pubsub/pubsub.go:277-295 | the nested loops close every registered channel once, touch no other, and clear the registry; idempotent |
| PubSubBroker.Broker.Deliver | pkg/pubsub/pubsub.go:160-199 | changes exactly one subscription, to the specified effect, and reports the loss |
| PubSubBroker.Broker.FanOut | pkg/pubsub/pubsub.go:116-132 | the loop delivers to exactly the accepting audience, reports a loss if and only if some buffer was full, and lists exactly the losers for disconnection |
| PubSubBroker.Broker.Publish | pkg/pubsub/pubsub.go:106-145 | the whole effect and error of an uninterrupted Publish, with Disconnect unregistering and closing exactly the losers |
| RateLimit.TokenBucketLaw | pkg/ratelimit/ratelimit.go:67-116 | in every run, with sleeping and cancelled Waits, Allows granted plus Waits returned nil never exceed burst + rate * (time since construction) |
| RateLimit.StepInv | pkg/ratelimit/ratelimit.go:67-116 | every call, wake-up, cancellation and tick keeps: future debt is covered by the waiters still asleep then, and tokens are conserved |
| RateLimit.RefillInPieces | pkg/ratelimit/ratelimit.go:108-116 | refilling in two pieces equals refilling at once, cap included |
| RateLimit.SleepReachesFunding | pkg/ratelimit/ratelimit.go:88-97 | a sleeper's timer fires on the first whole nanosecond at or after its funding instant, when its debt is paid |
| RateLimitOrder.AllowExactly | pkg/ratelimit/ratelimit.go:67-76 | in every run, an Allow is granted if and only if burst plus accrual plus repayments, less the tokens taken and lost to the cap, is at least one at that instant |
| RateLimitOrder.WaitExactly | pkg/ratelimit/ratelimit.go:84-97 | in every run, a Wait returns at once if and only if that balance is at least one, and otherwise sleeps until the first whole nanosecond at or after the instant its token is funded |
| RateLimitOrder.SleepEnds | pkg/ratelimit/ratelimit.go:97-105 | a sleeping Wait may return nil exactly from the instant its token is funded, and may give it back at any time |
| RateLimitOrder.LostOnlyWhenFull | pkg/ratelimit/ratelimit.go:108-116 | the cap discards tokens only when the bucket is full |
| RateLimitOrder.FundingFormula | pkg/ratelimit/ratelimit.go:67-116 | in every run, with any cancellations, the funding instant of every token in closed form: from the tokens taken up to it, the repayments so far, what the cap discarded and what it left |
| RateLimitOrder.Spacing | pkg/ratelimit/ratelimit.go:67-116 | what accrues between the funding instants of any two tokens: the tokens taken since, less those repaid between, plus what the cap discarded and the difference of what they left |
| RateLimitOrder.StepBooked | pkg/ratelimit/ratelimit.go:67-116 | every call, wake-up, cancellation and tick keeps the ledger and the receipts that formula rests on |
| RateLimitOrder.Overtaking | docs/adr/0012-ratelimit-design.md:83 | in every run, a later token is funded before an earlier one if and only if the repayments between and what the earlier one left exceed the tokens taken since, what the cap discarded and what the later one left |
| RateLimitOrder.ArrivalOrder | docs/adr/0012-ratelimit-design.md:83 | in every run, no token is funded before an earlier one unless more were repaid than taken between; a Wait that finds nothing left is funded exactly 1/rate after the token before it unless one was repaid since |
| RateLimitOrder.WindowLaw | docs/adr/0012-ratelimit-design.md:80-82 | in every run, the tokens funded in any window (a, b] number at most burst + rate * (b - a) plus the repayments made, and at most burst + rate * (b - a) whenever the repayments between any two of them are affordable |
| RateLimitOrder.WindowLawExactly | docs/adr/0012-ratelimit-design.md:80-82 | in every run, all windows obey the law if and only if those from the funding instant of one token to that of another do, which is told in the terms of the ledger: the repayments between the two, and the tokens funded between though not taken between, fit into the burst; the plain condition is that of WindowLawInOrder and DebtEpisode |
| RateLimitOrder.WindowLawInOrder | docs/adr/0012-ratelimit-design.md:80-82 | while nobody has overtaken, all windows obey the law if and only if the repayments between any two tokens are affordable |
| RateLimitOrder.SurvivorWindowLaw | docs/adr/0012-ratelimit-design.md:80-82 | in every run, the tokens of a window that were not given back exceed burst + rate * (b - a) at most by those given back among the tokens taken before the first of them |
| RateLimitOrder.PairLaw | docs/adr/0012-ratelimit-design.md:80-82 | in every run, the tokens from one to another obey the law if and only if the repayments between, with what the first left, fit into the burst, what the cap discarded and what the last left; so they do without repayments |
| RateLimitOrder.SurvivorLaw | docs/adr/0012-ratelimit-design.md:80-82 | the same for the tokens not given back, each one given back among them paying for one repayment |
| RateLimitOrder.DebtEpisode | docs/adr/0012-ratelimit-design.md:80-83 | two tokens of one episode of debt with n taken and c repaid between are funded exactly (n - c)/rate apart; the later overtakes if and only if c > n; they and those between obey the law if and only if c < burst, and the survivors among them if and only if c less those given back among them is below burst |
| RateLimitCancel.CancelledWait | docs/adr/0012-ratelimit-design.md:43-45 | for any calls in between with whatever outcome: every Allow is answered as without the cancelled Wait if and only if each one granted without it leaves at least one token less what the cap discarded since, and then no token is missing; answers and bucket are all as without it if and only if in addition nothing overflowed meanwhile or the bucket ends full |
| RateLimitCancel.CancelledWaitAmongCalls | pkg/ratelimit/ratelimit.go:82-83 | for any calls in between, at most one Allow fewer is granted in all; if as many are, no token is missing; if one fewer is, its token is still there afterwards if and only if the bucket without the Wait has room for it |
| RateLimitCancel.CancelledWaitCostsToken | pkg/ratelimit/ratelimit.go:82-83 | two runs with the same Allows: with the cancelled Wait one fewer is granted, and no token more is left |
| RateLimitCancel.InvisibleAmongRefusals | pkg/ratelimit/ratelimit.go:97-103 | among clock advances and Allows refused even without it, the cancelled Wait is invisible, cap or no cap |
| RateLimitCancel.InvisibleBeforeFunding | pkg/ratelimit/ratelimit.go:97-103 | cancelled no later than its funding instant, with whatever others call if none of them repays: granted Allows and tokens add up to the same as without it, and the bucket is the same if and only if as many Allows were granted |
| RateLimitCancel.LateCancelMintsToken | docs/adr/0012-ratelimit-design.md:43-45 | two runs with the same Allows, granted in both: the one with a Wait cancelled late ends with one token more |
| RateLimitCancel.CancelledRun | docs/adr/0012-ratelimit-design.md:80-83 | a run with two cancellations in which a later Wait overtakes a surviving one and three tokens that are kept fall due in a window that allows two |
| RateLimiter.Limiter.Advance | pkg/ratelimit/ratelimit.go:108-116 | the new balance and instant, unchanged when no time has passed |
| RateLimiter.Limiter.Allow | pkg/ratelimit/ratelimit.go:67-76 | takes a token if and only if a whole one is there after refilling |
| RateLimiter.Limiter.Reserve | pkg/ratelimit/ratelimit.go:88-96 | always takes a token, and sleeps zero exactly when it was there |
| RateLimiter.Limiter.Repay | pkg/ratelimit/ratelimit.go:98-101 | refills, then returns one token, capped |
| CircuitBreaker.BreakerInvariant | pkg/circuitbreaker/circuitbreaker.go:146-215 | in every interleaving: half-open in-flight probes are the running calls of the generation and fit the budget, at most successThreshold calls are admitted per half-open episode, closed failures stay below the threshold, no running call carries an open breaker's generation |
| CircuitBreaker.StepInv | pkg/circuitbreaker/circuitbreaker.go:146-215 | every admission, outcome and tick keeps that invariant |
| CircuitBreaker.AdmitsExactly | pkg/circuitbreaker/circuitbreaker.go:146-165 | in every interleaving, a call is admitted if and only if the breaker is closed, or open with the cool-down over, or half-open with successes recorded in the episode plus running probes below successThreshold; a refused call changes nothing |
| CircuitBreaker.EpisodeIsTrace | pkg/circuitbreaker/circuitbreaker.go:170-201 | an episode is exactly the outcomes, in order, of the calls that ended since the last transition under the generation that admitted them |
| CircuitBreaker.LastProbeCloses | pkg/circuitbreaker/circuitbreaker.go:187-196 | when half-open closes, the call just recorded was the only probe running |
| CircuitBreaker.TripsExactly | pkg/circuitbreaker/circuitbreaker.go:178-186 | closed trips if and only if the last failureThreshold outcomes of the episode are all failures |
| CircuitBreaker.ProbesDecide | pkg/circuitbreaker/circuitbreaker.go:187-196 | half-open closes if and only if the outcomes of the episode are successThreshold successes, and reopens exactly at its first recorded failure |
| CircuitBreaker.CoolDown | pkg/circuitbreaker/circuitbreaker.go:150-155 | after the breaker was open, no call is admitted before openedAt + openTimeout |
| CircuitBreaker.OpenedWhenTripped | pkg/circuitbreaker/circuitbreaker.go:206-215 | openedAt is the instant of the step that opened the breaker, as long as it stays open |
| CircuitBreaker.CoolDownFromTrip | pkg/circuitbreaker/circuitbreaker.go:150-155 | after the step that trips the breaker, no call is admitted until openTimeout has passed |
| CircuitBreaker.ReportIsNextAdmission | pkg/circuitbreaker/circuitbreaker.go:217-230 | State names the state the next admission at that instant works under |
| BreakerSequential.SequentialRefinement | pkg/circuitbreaker/circuitbreaker.go:119-215 | for calls that do not overlap, exactly the admissions and states of a machine without generations and in-flight counts |
| BreakerSequential.FreshMeansRunning | pkg/circuitbreaker/circuitbreaker.go:95-106 | a new breaker admits exactly the calls the simple machine admits from its initial state |
| BreakerSequential.Breaker.Transition | pkg/circuitbreaker/circuitbreaker.go:206-215 | resets all counters, bumps the generation, and records the instant only when opening |
| BreakerSequential.Breaker.Admit | pkg/circuitbreaker/circuitbreaker.go:146-165 | the decision and the new fields, the lazy move to half-open included |
| BreakerSequential.Breaker.Record | pkg/circuitbreaker/circuitbreaker.go:170-201 | the new fields for a matching or superseded generation in each state |
| BreakerSequential.Breaker.State | pkg/circuitbreaker/circuitbreaker.go:223-230 | changes nothing and agrees with the next admission |
| BreakerSequential.Breaker.Do | pkg/circuitbreaker/circuitbreaker.go:119-140 | a done context counts nothing, a rejected call never runs fn, a panic counts as a failure |
| WorkerPool.PoolConservation | pkg/workerpool/workerpool.go:92-156 | in every run, started then queued tasks are the admitted ones in order, those are exactly the Submits that returned nil, and nothing is sent after the single close |
| WorkerPool.FinishedOnce | pkg/workerpool/workerpool.go:151-156 | no task finishes twice or without having been admitted |
| WorkerPool.CloseDrains | pkg/workerpool/workerpool.go:127-148 | when any Close has returned nil, every task whose Submit returned nil has finished exactly once and no other ran |
| WorkerPool.SubmitReplies | pkg/workerpool/workerpool.go:92-115 | in every run, ErrClosed if and only if the pool was closed at the call, nil exactly when the task was admitted, ErrQueueFull only without blocking and with a full queue, the context's error only with blocking |
| WorkerPool.SubmitNeverStuck | pkg/workerpool/workerpool.go:101-114 | a waiting Submit can be answered: at once where it does not block, by room, a worker or its context where it does |
| WorkerPool.WorkersNeverStuck | pkg/workerpool/workerpool.go:151-156 | while a task is queued or running, or a closed pool has a worker left, some worker has a step to take |
| WorkerPool.CloseOutcome | pkg/workerpool/workerpool.go:127-148 | Close waits only for blocked Submits, closes the queue for good, and may return nil exactly when every worker has exited |
| WorkerPool.Pool.Submit | pkg/workerpool/workerpool.go:92-115 | the reply and queue in each mode, with the closed, full and cancelled cases |
| WorkerPool.Pool.CloseQueue | pkg/workerpool/workerpool.go:128-133 | closes once |
| WorkerPool.Pool.Work | pkg/workerpool/workerpool.go:151-156 | runs every queued task in order and leaves the queue empty |
| Metrics.SlotMeaning | pkg/metrics/exposition.go:93-105 | an observation is in slot i or below if and only if it is at most the i-th bound |
| Metrics.BucketIndex | pkg/metrics/exposition.go:98-105 | the first bound not exceeded, or the overflow slot |
| MetricsSafety.ScrapeConsistency | pkg/metrics/exposition.go:138-162 | against any concurrent observers, cumulative buckets never decrease, +Inf is at least the count and exceeds it by at most the observations overlapping the reads |
| MetricsSafety.NothingLost | pkg/metrics/metrics.go:117-143 | with no observation under way, however series creation raced, the buckets, the count and the observations of each key agree, and the sum is theirs in some order |
| MetricsSafety.LookupOutcome | pkg/metrics/metrics.go:117-125 | a recording uses the series registered for its key, if there is one |
| MetricsSafety.CreateOutcome | pkg/metrics/metrics.go:133-143 | and otherwise the one that won the race, or an empty one of its own if there is still none |
| MetricsSafety.CasOutcome | pkg/metrics/exposition.go:111-119 | the observation is added to the sum if and only if nobody changed it since it was loaded |
| MetricsSafety.ObserverCanStep | pkg/metrics/exposition.go:87-91 | no recording is ever stuck |
| MetricsSafety.BucketsCountObservations | pkg/metrics/exposition.go:87-91 | in every run, cumulating the buckets counts the observations at or below each bound |
| MetricsSafety.CountAheadOfSum | pkg/metrics/exposition.go:79-84 | in every run, a scrape's count is ahead of the observations in its sum if and only if more were counted between its two reads than were in the sum and uncounted at the first; so not when none was counted between |
| MetricsSafety.CountFirstNeverAhead | pkg/metrics/exposition.go:79-84 | in every run, a count is never ahead of a sum read at the same instant or later |
| MetricsSafety.CountCanLeadSum | pkg/metrics/exposition.go:147-153 | a run in which a scrape reports count 1 beside sum 0 |
| MetricsSafety.StepInv | pkg/metrics/metrics.go:117-143 | every atomic step of observers and scrapes keeps one live series per key, exact counts and the scrape bounds |
| MetricsRecorder.CardinalityBound | pkg/metrics/metrics.go:16-21 | in every run that records normalised methods and status codes 100 to 999, a Recorder holds at most 9000 series |
| MetricsRecorder.ItoaInjective | pkg/metrics/metrics.go:140 | different status codes have different labels |
| MetricsRecorder.MethodLabels | pkg/metrics/metrics.go:44-61 | the nine known methods are their own label, every other string is "other" |
| MetricsRecorder.StrLessMeaning | pkg/metrics/exposition.go:167-171 | the comparison is dictionary order: a proper beginning, or smaller where the two first differ |
| MetricsRecorder.CodesCompare | pkg/metrics/exposition.go:167-171 | for codes 100 to 999 it is the numeric order |
| MetricsRecorder.CollectAnyInterleaving | pkg/metrics/exposition.go:138-174 | against any concurrent recording, a scrape lists exactly one entry per key registered at its walk and none for anything else, strictly increasing by code, numerically for 100 to 999, and then by method in dictionary order; in each entry the buckets never decrease and +Inf is at least the count |
| MetricsRecorder.SortCorrect | pkg/metrics/exposition.go:164-172 | sorting snapshots with distinct labels gives a strictly increasing permutation |
| MetricsRecorder.Cumulate | pkg/metrics/exposition.go:154-160 | entry i is the total of the buckets up to i |
| MetricsRecorder.Recorder.NewSeries | pkg/metrics/metrics.go:133-143 | creates the series only if it is absent |
| MetricsRecorder.Recorder.Observe | pkg/metrics/metrics.go:117-128 | one more in the bucket whose bounds enclose the value, one more in the count, the value added to the sum, in exactly the series of its key |
| MetricsRecorder.Recorder.Collect | pkg/metrics/exposition.go:138-174 | strictly sorted by code, numerically for 100 to 999, then method in dictionary order, one snapshot per series with its buckets cumulated, none for anything else |
| Cache.ShardedRefinesPlain | pkg/cache/cache.go:135-220 | for any hash function, every run of the sharded cache with sweeps interleaved anywhere is matched by a run of one plain map without a sweeper, with the same answers |
| Cache.GetReturnsLastSet | pkg/cache/cache.go:143-167 | in every run, a Get returns v if and only if the last write of its key before it read, with no Delete since, has value v and a deadline after the instant of the return |
| Cache.SetThenGet | pkg/cache/cache.go:135-167 | from a Set through a Get of its key with no other write or Delete between: the value is returned exactly while now is before the clock the Set read plus the TTL |
| Cache.ShardIsRemainder | pkg/cache/cache.go:101-103 | a key lives in the shard that is the remainder of its hash by 32 |
| Cache.SetWritesClockPlusTTL | pkg/cache/cache.go:135-141 | a Set writes the clock it read plus the TTL, however long it waited for the lock |
| Cache.SimStep | pkg/cache/cache.go:135-220 | each step, a stale sweep of one shard included, keeps the two sides in agreement and every key in its own shard |
| Cache.SweepReclaims | pkg/cache/cache.go:208-220 | a sweep step removes from its shard exactly what had expired at the instant the sweeper read, and from no other shard |
| Cache.NeverStuck | pkg/cache/cache.go:135-220 | a Set, Get or sweep under way can always take its next step |
| Cache.TTLCache.Set | pkg/cache/cache.go:135-141 | changes exactly one key |
| Cache.TTLCache.Get | pkg/cache/cache.go:154-167 | returns v if and only if the key is stored with value v and a deadline after now |
| Cache.TTLCache.Delete | pkg/cache/cache.go:170-175 | removes exactly one key |
| Cache.TTLCache.RemoveExpired | pkg/cache/cache.go:208-220 | removes exactly what had expired, and changes no later answer |
| Pipelines.SplitDelivers | pkg/fanout/fanout.go:30-59 | each value taken is in exactly one forwarder's part; that part is its output, its hand and at most one loss after cancellation; outputs are subsequences of the input and closed when their forwarder exits |
| PipelinesProgress.SplitNeverStuck | pkg/fanout/fanout.go:40-57 | a forwarder waits for nothing but input, and can exit at once when cancelled |
| Pipelines.MergeInterleaves | pkg/fanin/fanin.go:27-65 | the output interleaves the inputs in order, short of hands and at most one loss each; closed at most once, only after every forwarder exited, with no send afterwards |
| PipelinesProgress.MergeNeverStuck | pkg/fanin/fanin.go:40-59 | a forwarder waits for nothing but its own input |
| PipelinesProgress.MergeCanClose | pkg/fanin/fanin.go:60-63 | once every forwarder has exited, the output can be closed |
| Pipelines.PipeAccount | pkg/fanin/fanin.go:27-65 | Split into Merge at every instant, cancelled or not: as multisets, the values taken are those on the output, those between the stages, those in the hands of either and those dropped, at most one by each forwarder of each stage and only after its cancellation |
| Pipelines.RoundTrip | pkg/fanin/fanin.go:27-65 | Split into Merge without cancellation: when the output has closed, exactly the input has come out, as multisets |
| Pipelines.Forward | pkg/fanout/fanout.go:40-57 | a forwarder's loop sends what it received, in order, short of the one value in hand when cancellation wins |
| Retry.DelayIsCappedPower | pkg/retry/retry.go:61-74 | the pre-jitter delay before retry i is exactly min(BaseDelay * 2^(i-1), MaxDelay) over unbounded integers |
| Retry.NextIsCappedDouble | pkg/retry/retry.go:115-121 | doubling in wrapping int64 with the two checks is capped doubling without overflow |
| Retry.JitterCapped | pkg/retry/retry.go:93-112 | a jittered delay is in [0, MaxDelay] for every draw and every out-of-range conversion |
| Retry.JitterSpread | pkg/retry/retry.go:91-112 | when the range fits int64, the delay is within Jitter of its value, or is the cap |
| Retry.JitterByDraw | pkg/retry/retry.go:91-112 | at the middle draw the delay is unchanged, at the ends it is (1 - Jitter) and (1 + Jitter) of itself, to the nanosecond and up to the cap |
| Retry.JitterGrows | pkg/retry/retry.go:91-112 | a larger draw never gives a shorter delay |
| Retry.Backoff | pkg/retry/retry.go:53-75 | the calls stop at the first success, interrupted sleep or spent budget; one sleep between calls, each the jittered capped power and within the cap; the error is nil, fn's last, or the context's |
| Lifecycle.ShutdownConverges | pkg/lifecycle/lifecycle.go:164-207 | for any number of concurrent callers, the hooks run so far are a prefix of the reversed registrations, all of them before anyone returns, and everyone returns the errors of that one run |
| Lifecycle.HooksFrozen | pkg/lifecycle/lifecycle.go:164-174 | once a Shutdown has begun, no hook is added and the log only grows |
| Lifecycle.HooksAreRegistrations | pkg/lifecycle/lifecycle.go:164-174 | in every run the hooks are those of the Register calls before the first Shutdown, in order; later ones are rejected |
| Lifecycle.ErrorsMeaning | pkg/lifecycle/lifecycle.go:198-204 | the combined error holds the error of every hook that failed, in the order they failed, and nothing else |
| Lifecycle.TriggerLatches | pkg/lifecycle/lifecycle.go:180-182 | from a Trigger on the request stands, its channel closed once |
| Lifecycle.SomebodyCanStep | pkg/lifecycle/lifecycle.go:184-207 | no Shutdown caller is ever stuck |
| Lifecycle.Coordinator.Register | pkg/lifecycle/lifecycle.go:164-174 | appends, or panics once a Shutdown has begun |
| Lifecycle.Coordinator.Shutdown | pkg/lifecycle/lifecycle.go:184-207 | runs every hook once in reverse, collecting every error; later calls return the first result |
| Lifecycle.Coordinator.Trigger | pkg/lifecycle/lifecycle.go:180-182 | latches once |

## Left out

- Liveness, fairness and timing: what is proved is safety, and that nobody is stuck; nothing is said about how soon Close, Wait or Shutdown return.
- IEEE-754 rounding, NaN and float-to-int overflow: tokens, rates and jitter are reals; the metrics sum uses an arbitrary addition, and an out-of-range jitter conversion an arbitrary result.
- Wrap-around of the breaker's generation and of the metric counters: natural numbers.
- Panics of user code other than in the breaker: tasks, hooks, filters and drop handlers are assumed not to panic or to call back into the component.
- The drop handler itself: a report is a log entry on the subscription's account; nobody can tell from the log whether a handler was installed.
- Aliased outputs given to Split: the outputs are assumed to be distinct channels.
- A Wait or Publish whose context is already done before the lock is a call without effect; Wait's has no step of its own.
- RateLimitOrder.WindowLawExactly: once somebody has overtaken, its condition still counts the tokens funded between two others; the condition on repayments alone is that of WindowLawInOrder and DebtEpisode.
- BreakerSequential.Breaker.Do: states the whole call only when no other call overlaps it; overlapping calls are the steps of CircuitBreaker.
- PubSubBroker.Broker.Publish: states the effect when nobody interferes; interference is the subject of PubSub, PubSubSafety and PubSubFifo.
- PubSubBroker.Broker.FanOut: likewise.
- PubSubBroker.Broker.Deliver: likewise, and with no receiver parked on the channel.
- WorkerPool.Pool.Submit: the blocking form is stated for the call that returns, that is with room in the queue or a done context; blocked submitters are steps of the transition system.
- WorkerPool.Pool.Work: one worker draining after the close; concurrent workers are steps of the transition system.
- MetricsRecorder.Recorder.Observe: states the call with no other recording overlapping; overlapping ones are the steps of Metrics.
- MetricsRecorder.Recorder.Collect: likewise; `CollectAnyInterleaving` states the scrape among recordings.
- Cache.TTLCache.RemoveExpired: one sweep nobody interrupts; a sweep shard by shard among other calls is a step of the transition system.
- Lifecycle.Coordinator.Shutdown: the call of one caller; concurrent callers are steps of the transition system.
- The text of the metrics exposition (number formatting, HELP and TYPE lines) and the HTTP middleware and handlers.
- MetricsRecorder.SortCorrect: models slices.SortFunc by insertion sort, since only the order of the result matters.
- lifecycle.WaitForSignals, cache.Close and the sweeper's ticker: a select over signals and a one-shot flag, which would only add easy members.
- pkg/semaphore, hash, config, db, env, logger, health, middleware, validator, errx, syncpool, contrib, examples and tools: wrappers over other libraries, for which only shallow claims remain.
