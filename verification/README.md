# Verified model of the tunnel client runtime

The tunnel client keeps a pool of websocket connections to its server, repairs it while it
runs, relays upstream responses through it, and guards itself with a circuit breaker, a ping
watchdog, a stream semaphore, a login limiter and a reconnect backoff. This project models
those parts in Dafny and proves what they keep over every run.

| files | part |
|---|---|
| `PoolSpec`, `PoolLaws`, `ConnectionPool` | the connection pool: operations on values, laws of single operations, and the object updated in place, proved against the operations |
| `Session`, `SessionInvariant`, `SessionProofs`, `SessionSteps`, `SessionTheorems`, `SessionController` | one session as a state machine of slot workers, ping loops, closing goroutines and the error channel; its inductive invariant; what each step does and what holds in every run; and the controller object that performs the steps on the pool object |
| `Streaming` | relaying one upstream response, with sends and reads as arbitrary inputs |
| `Breaker`, `Requests` | the circuit breaker, and all interleavings of requests that report to it |
| `Watchdog`, `StreamSlots` | the ping loop; the stream semaphore, stream counts and gauge |
| `Limiter`, `LimiterTheorems`, `SessionStore` | the login limiter, first one address's log and then every run, and the login session store, against event logs |
| `Backoff` | 64-bit backoff arithmetic and the attempt numbers of the reconnect loop |
| `Prelude` | options and counting |

Cancel functions, connections and ping loops are numbers minted in order; a pool operation
returns the cancel functions it calls, in call order. Dialling, acknowledgements, stream
counts, reads, sends, clocks and jitter are inputs or nondeterministic actions. Times are
integers; a trace's times never decrease. The zero time is `None`.

## Assumptions of the session machine

- One action is one grouped step of a goroutine: the context check with the add and the start
  of the ping loop (pkg/client/client.go:716-732); the context check with the remove, the
  close, the promoted connection's ping loop and the error report (738-766); the resize with
  its ping loop and the new workers (77-103); the end of runSession with pool.close and the
  cancellation of the session context. The code releases the pool lock inside these groups.
- The initial start loop finishes before the first other step, and no read loop resizes the
  pool after runSession has returned.
- A connection counts as closed when its owner gives it up. A ping loop that fails by itself
  (`LoopFails`) also calls Close on a connection the pool still owns; until the read loop of that
  connection ends, the connection stays in the pool and nothing pings it.

Nothing else is assumed about the granted size: the start loop is modelled with the uncapped
grant (client.go:246), so workers beyond slot 31 exist, and stale workers that outlive a
shrink followed by a growth are part of every run.

## Results that differ from what one would expect

- A grant below one makes a session that is silently dead from the start: one slot, no worker,
  no error (`NoSilentDeathIff`). Whether such a grant passes the validation of the ack is decided
  in code that is not part of this model.
- The breaker does not always recover. It rejects every later request for ever exactly when it is
  half-open and no outstanding handler will record an outcome, because each ends on its timeout or
  does not end (`RejectsForeverIff`). Both happen, for every threshold and cooldown: a probe that
  times out (`TimedOutProbeSticks`; `StuckIff` says when nobody is left at all), and a probe that
  is an event stream without an end, which is exempt from the timeout (`EndlessProbeRejects`).
  If every handler records an outcome it always recovers (`RecoversIfAllReport`).
- The control loops of a session share one failure counter (client.go:48). After a failover the
  cancelled loop may still handle a tick and raise it, and then two missed pings end the new
  control connection instead of three (`TwoMissesSuffice`; exactly when: `ThreeMissesNeededIff`).
- CHANGELOG.md:21-22 promises at most 10 login attempts per minute. The code counts in fixed
  windows: exactly the first 10 of a window, but up to 19 in one closed minute
  (`AtMostNineteenPerMinute`, attained by `NineteenAttained`). A minute exceeds 10 exactly when a
  window opens inside it with enough attempts to follow (`MoreThanTenPerMinuteIff`).
- The backoff product overflows from attempt 34 on, and the attempt count is never reset, so
  the 35th failed session of a client's life does not wait at all (`IntendedAttempts`,
  `RunNeverResets`, `ThirtyFifthFailureDoesNotWait`). Nor does a slot that fails to join 35 times in a
  row while other connections live (`ThirtyFifthSlotWait`, `SlotStopsWaiting`).
- `add` and `setConnPingCancel` lose a cancel function, and `add` a connection, when called on a
  slot in the wrong state; the exact conditions are `AddConservesIff` and `SetConnPingCancelConservesIff`, and the session
  invariant shows that the session never does so.

## Model

| member | source | states |
|---|---|---|
| PoolSpec.FirstFrom | pkg/client/pool.go:144-151 | the scan returns the least eligible slot, and -1 exactly when there is none |
| PoolLaws.RemoveConserves | pkg/client/pool.go:111-162 | remove calls exactly the ping cancels the pool stops storing, each once, and lets go of exactly the slot's connection |
| PoolLaws.RemoveFailsOver | pkg/client/pool.go:133-161 | the heir is the least idle slot; no heir with connections remaining exactly when all remaining are busy; remaining is one less than before; what happens to the control index in each case |
| PoolLaws.RemoveShape | pkg/client/pool.go:119-160 | every other slot, the slot cancels and the size are untouched, except the heir's own ping cancel |
| PoolLaws.ResizeConserves | pkg/client/pool.go:208-299 | for every size: ping cancels, connections and slot cancels that leave the pool are called or drained, each exactly once |
| PoolLaws.ShrinkPartitions | pkg/client/pool.go:231-298 | a shrink partitions exactly: the drained are the tail's connections, the prefix is unchanged but for the promoted slot's ping cancel, a surviving control slot keeps its role, otherwise the lowest surviving connection inherits it or the pool is empty |
| SessionSteps.ResizeSizes | pkg/client/pool.go:208-229 | the pool gets exactly the size asked for, 1 for less and 32 for more |
| PoolLaws.ReplaceConserves | pkg/client/pool.go:164-173 | the old cancel is called, the new one stored, nothing else moves |
| PoolLaws.AddConservesIff | pkg/client/pool.go:61-82 | add loses a stored ping cancel exactly when its slot holds one, and a held connection exactly when its slot is occupied |
| PoolLaws.SetConnPingCancelConservesIff | pkg/client/pool.go:91-99 | the token is stored and none lost exactly when the slot is occupied without a ping cancel |
| PoolLaws.CloseReleasesAll | pkg/client/pool.go:301-336 | close calls every stored ping and slot cancel once, closes every held connection once and keeps no ping cancel |
| PoolLaws.CloseShape | pkg/client/pool.go:301-336 | close leaves slots, sizes and the control role as they were |
| PoolLaws.AddTakesControlIff | pkg/client/pool.go:69-81 | under the pool invariant a connection put into a vacant slot takes control exactly when the pool was empty |
| ConnectionPool.Pool.constructor | pkg/client/pool.go:44-57 | the new object stands for the blank pool of the clamped size |
| ConnectionPool.Pool.ActiveCount | pkg/client/pool.go:192-200 | the loop counts the occupied slots |
| ConnectionPool.Pool.FindFirst | pkg/client/pool.go:144-151 | the scan loop finds the first eligible slot below a limit |
| ConnectionPool.Pool.Add | pkg/client/pool.go:61-82 | the object moves as PoolSpec.Add says, with a fresh record in the slot and all other records kept |
| ConnectionPool.Pool.SetConnPingCancel | pkg/client/pool.go:91-99 | updates one record in place, leaves all others |
| ConnectionPool.Pool.SetSlotCancel | pkg/client/pool.go:101-109 | stores the slot cancel, ignores an index out of range |
| ConnectionPool.Pool.ReplacePingLoop | pkg/client/pool.go:164-173 | stores the new cancel, returns the old one as called |
| ConnectionPool.Pool.FailOver | pkg/client/pool.go:144-161 | hands control to the least idle record in place |
| ConnectionPool.Pool.Remove | pkg/client/pool.go:111-162 | the object and all results agree with the conserved, failing-over removal above |
| ConnectionPool.Pool.ClearTail | pkg/client/pool.go:256-269 | the downward loop collects records, ping cancels and slot cancels of the tail in order and leaves the prefix alone |
| ConnectionPool.Pool.Shrink | pkg/client/pool.go:231-283 | the object, the drained records and the calls agree with the exact partition above |
| ConnectionPool.Pool.Resize | pkg/client/pool.go:208-299 | clamping, growing, shrinking and the no-op agree with PoolSpec.Resize, calls and drained records included |
| ConnectionPool.Pool.Close | pkg/client/pool.go:301-336 | the object, the calls and the closed connections agree with PoolSpec.Close |
| ConnectionPool.Drain | pkg/client/pool.go:285-296 | the closing goroutine terminates, closes every drained connection once in order, after at most 50 polls each, and waits only while the connection is busy |
| SessionController.Controller.SendErr | pkg/client/client.go:659-664 | the first error stays in the channel, later ones are dropped |
| SessionController.Controller.StartPoolPingLoop | pkg/client/client.go:779-783 | a new loop on the connection replaces the control loop, whose cancel is called |
| SessionController.Controller.StartConnPingLoop | pkg/client/client.go:797-799 | a new loop on the connection is stored in its record |
| SessionController.Controller.StartSlots | pkg/client/client.go:71-75 | the start loop gives each index its worker and, where the index is in range, stores its cancel |
| SessionController.Controller.Resize | pkg/client/client.go:77-103 | the object reaches exactly the state of the machine's resize step |
| SessionController.Controller.Acknowledged | pkg/client/client.go:830-853 | the object reaches exactly the state of the machine's handshake step, check by check |
| SessionController.Controller.JoinFailed | pkg/client/client.go:692-714 | return, report or retry, as the machine's step says |
| SessionController.Controller.Install | pkg/client/client.go:716-732 | the object reaches exactly the state of the machine's install step |
| SessionController.Controller.ReadEnded | pkg/client/client.go:737-776 | the object reaches exactly the state of the machine's read-end step |
| SessionController.Controller.End | pkg/client/client.go:214-259 | the object reaches exactly the state of the machine's end step |
| SessionInvariant.InstallKeepsPool | pkg/client/client.go:716-732 | add and the start of the ping loop, grouped, keep the pool invariant |
| SessionInvariant.RemoveKeepsPool | pkg/client/client.go:746-757 | remove and the promoted connection's ping loop, grouped, keep the pool invariant |
| SessionInvariant.ResizeKeepsPool | pkg/client/client.go:77-98 | resize and the promoted connection's ping loop, grouped, keep the pool invariant |
| SessionProofs.DialKeepsInv | pkg/client/client.go:811-815 | a dial, failed or not, keeps the session invariant |
| SessionProofs.HandshakeKeepsInv | pkg/client/client.go:825-853 | every accepting and failing branch of the join handshake keeps the session invariant, ownership included |
| SessionProofs.InstallKeepsInv | pkg/client/client.go:716-735 | installing a connection keeps the session invariant, also for workers beyond slot 31 |
| SessionProofs.ReadEndsKeepsInv | pkg/client/client.go:737-776 | losing a connection keeps the session invariant |
| SessionProofs.ResizeKeepsInv | pkg/client/client.go:77-103 | a resize keeps the session invariant |
| SessionProofs.StartInv | pkg/client/client.go:214-252 | a session starts in the invariant for every grant of at least one |
| SessionProofs.EndKeepsInv | pkg/client/client.go:214-259 | the end of the session releases everything the pool owns |
| SessionProofs.StepKeepsInv | pkg/client/client.go:666-777 | every enabled step of every goroutine keeps the invariant |
| SessionProofs.RunInv | pkg/client/client.go:180-260 | every state of every run satisfies the invariant |
| SessionSteps.StartExact | pkg/client/client.go:214-252 | a session starts with as many empty slots as granted, at most 32, a worker for each number below the grant, and the control connection in the hand of worker 0 |
| SessionSteps.HandshakeExact | pkg/client/client.go:825-853 | an ack is accepted exactly if it is for this session, this subdomain and the pool's present size; otherwise the connection is closed and the join has failed |
| SessionSteps.JoinErrorExact | pkg/client/client.go:692-713 | a failed join reports JoinLost and returns exactly if no connection is left; otherwise the worker tries again |
| SessionSteps.InstallExact | pkg/client/client.go:716-732 | in every run a live worker's connection ends up in its own slot with a new ping loop, the control role is taken exactly if the pool was empty, and nothing else changes |
| SessionSteps.InstallRefused | pkg/client/client.go:716-724 | a cancelled worker, or one beyond slot 31, closes its connection and returns |
| SessionSteps.ReadEndsExact | pkg/client/client.go:737-776 | in every run a lost connection is reported as AllLost if it was the last, as ControlLost if it was the control connection and all others are busy, and not at all otherwise; the worker returns exactly if it reports |
| SessionSteps.ControlAfterLoss | pkg/client/pool.go:133-161 | in every run: which slot is in control after a loss |
| SessionSteps.ResizeExact | pkg/client/client.go:77-103 | in every run a resize gives the size asked for between 1 and 32, keeps the slots below, hands the connections above to a closing goroutine, cancels their workers, and starts one worker for each new slot |
| SessionSteps.EndExact | pkg/client/client.go:254-259 | in every run the session ends with the first error reported or nil, every slot's connection closed and every stored cancel called |
| SessionSteps.CanEnd | pkg/client/client.go:254-259 | an error that was ever reported can end the session |
| SessionSteps.SlotRepairable | pkg/client/client.go:689-735 | from every reachable state a live worker without a connection can join and fill its slot |
| SessionTheorems.PoolShape | pkg/client/pool.go:17-36 | in every reachable state of a live session: sizes agree and lie in 1..32, records know their slot, the control slot is occupied if any is, the pool's ping cancel is set exactly when it is, and exactly the other connections have their own |
| SessionTheorems.OneLoopEach | pkg/client/client.go:721-757 | in every reachable state each active connection has exactly one uncancelled ping loop, and every uncancelled loop is that of an active connection |
| SessionTheorems.PingCancelsConserved | pkg/client/pool.go:123-173 | over every run each minted ping cancel is stored in exactly one place or has been called exactly once |
| SessionTheorems.ConnectionsConserved | pkg/client/client.go:689-748 | over every run each dialled connection is in exactly one of a worker's hand, a slot, a drain list, or closed |
| SessionTheorems.SlotCancelsConserved | pkg/client/pool.go:101-109 | over every run a slot cancel is called exactly once, namely when the pool stops storing it or the session ends; those of workers beyond slot 31 never |
| SessionTheorems.EndReleasesAll | pkg/client/pool.go:301-336 | after the end every ping loop and every worker is cancelled; once workers and closing goroutines are done every connection ever dialled has been closed exactly once |
| SessionTheorems.NoSilentDeathIff | pkg/client/client.go:246-259 | over all runs, a session whose contexts live has an error posted or a working goroutine for every slot, if and only if the grant is at least one |
| SessionTheorems.FatalRemovalPosts | pkg/client/client.go:746-766 | a removal that empties the pool or leaves no control slot has an error in the channel in the same step; a worker returns from it exactly when it reports |
| SessionTheorems.FirstFaultWins | pkg/client/client.go:254-259 | the session ends with the first fault ever reported, and with nil only when the caller's context is done |
| SessionTheorems.RunNeverResets | pkg/client/client.go:141-211 | for every sequence of calls of runSession, registered sessions of any course and failures before registration, the n-th wait of Run asks for attempt n - 1: the reset is never reached |
| SessionTheorems.SlotStopsWaiting | pkg/client/client.go:689-710 | with two or more slots granted, a slot can fail to join any number of times in a row while another connection lives, and after the 35th it does not wait |
| SessionTheorems.SlotTurnExact | pkg/client/client.go:701-713 | a worker waits exactly when it goes from a failed join or a lost connection back to joining, and its counter starts over exactly at a successful join |
| Breaker.CircuitBreaker.constructor | pkg/client/circuit.go:30-44 | thresholds below one and negative cooldowns are clamped |
| Breaker.CircuitBreaker.Allow | pkg/client/circuit.go:46-64 | answers and moves as the timed state machine |
| Breaker.CircuitBreaker.RecordSuccess | pkg/client/circuit.go:66-74 | moves as the timed state machine |
| Breaker.CircuitBreaker.RecordFailure | pkg/client/circuit.go:76-96 | moves as the timed state machine |
| Breaker.RefinesLog | pkg/client/circuit.go:66-96 | after any trace the counter is the number of failures since the last success, closed means that number is below the threshold, and the last failure time is that of the last failure, for all constructor arguments |
| Breaker.OpensExactly | pkg/client/circuit.go:84-95 | the breaker opens at the failure that completes a row of threshold, and at each failure while half-open, and the cooldown counts from that failure |
| Breaker.StraysChangeNothing | pkg/client/circuit.go:88-89 | failures while open do not extend the cooldown |
| Breaker.AdmittedExactlyAfterCooldown | pkg/client/circuit.go:53-58 | after an opening, whatever failures stray in, a request is admitted exactly once the cooldown has passed |
| Breaker.RateBound | pkg/client/circuit.go:46-64 | the k-th call admitted after an opening comes no earlier than k cooldowns later, whatever failures stray in |
| Breaker.RateBoundTight | pkg/client/circuit.go:76-96 | for every k the bound is attained |
| Requests.Proxy.Accept | pkg/client/client.go:397-435 | a handler up to the breaker's answer moves the breaker as the world's arrival step, at any point of any interleaving |
| Requests.Proxy.Finish | pkg/client/client.go:437-590 | the rest of an admitted handler moves the breaker as the world's leaving step; it stays outstanding exactly while it is still reading |
| Requests.OutcomesAccounted | pkg/client/client.go:432-446 | in every interleaving a request has recorded one outcome if its handler has left, none if it left on the timeout, was rejected, never asked or is outstanding |
| Requests.BreakerRefinesOutcomes | pkg/client/circuit.go:66-96 | in every interleaving the breaker's counter is the number of failures that handlers recorded since the last success, and closed means below the threshold |
| Requests.ErrorResponsesOpen | pkg/client/client.go:448-590 | as many responses other than 2xx, or failed calls, as the threshold open a fresh breaker: the next request is rejected until the cooldown has passed |
| Requests.GoodResponseCloses | pkg/client/client.go:582-586 | from any world one 2xx response relayed to its end closes the breaker and the next request is admitted |
| Requests.StuckIff | pkg/client/circuit.go:53-60 | over all runs, half-open with nobody outstanding arises exactly when the last outstanding handler leaves on its timeout |
| Requests.StuckForever | pkg/client/circuit.go:53-60 | from such a state every request that asks is rejected for ever and no outcome is recorded |
| Requests.HalfOpenHasProbe | pkg/client/circuit.go:53-60 | half-open implies an outstanding request, which may be one that never ends, in all interleavings of requests none of whose inputs reach a timeout exit |
| Requests.RejectsForeverIff | pkg/client/circuit.go:46-64 | for every world: every later request that asks is rejected, whatever happens from now on, exactly when the breaker is half-open and no outstanding handler will record an outcome |
| Requests.RecoversIfAllReport | pkg/client/circuit.go:46-64 | in runs of requests whose handlers all record an outcome the breaker never rejects for ever |
| Requests.EndlessProbeRejects | pkg/client/client.go:449-463 | for every threshold and cooldown a run whose probe is an endless event stream, after which every request is rejected though the probe is outstanding |
| Requests.TimedOutProbeSticks | pkg/client/client.go:439-446 | for every threshold and cooldown a run that needs the hypothesis |
| Streaming.RelayedEnd | pkg/client/client.go:454-590 | however a relay ends, the upstream's reads and the sends that succeed determine which exit it takes |
| Streaming.TimelyEnd | pkg/client/client.go:484-570 | if no read meets the timeout, no timeout exit is reached |
| Streaming.TurnDecides | pkg/client/client.go:466-570 | which exit the first turn that does not go on takes, and what it records: 2xx statuses are successes and all others failures, read errors failures unless the timeout caused them, the timeout nothing; event streams are exempt from it |
| Streaming.OutcomeByStatus | pkg/client/client.go:448-586 | a response relayed as far as its receiver took it records a success for 200..299 and a failure otherwise |
| Streaming.Relay | pkg/client/client.go:454-590 | for arbitrary reads and send failures: which messages have been sent, recorded and counted at each way out, with message bodies intact although the chunk buffer is reused |
| Streaming.StreamShape | pkg/client/client.go:495-570 | the sent bytes are a prefix of the upstream bytes, pieces have 1..chunk size bytes, status and headers come first only, EndStream comes last only and exactly on completion with the whole body sent, and the counter rises once per ended stream |
| Streaming.SendProxyError | pkg/client/client.go:617-633 | one complete, ended response, counted exactly when it goes out |
| Streaming.HandleHTTPRequest | pkg/client/client.go:397-590 | every path: what is sent, counted and recorded, with the exit and the records being those its inputs determine; which requests ask the breaker; 501, 502, 503 or 502 as the request's fields, the breaker and the upstream say |
| Watchdog.PingLoop | pkg/client/client.go:358-395 | the loop decides as the watch automaton, on every tick sequence and whatever others do to the shared counter |
| Watchdog.TickDecides | pkg/client/client.go:363-392 | what one tick decides: a done context stops the loop, an overdue pong fails it, for control at three, a ping that cannot be sent fails it, and otherwise it goes on |
| Watchdog.TickCounts | pkg/client/client.go:366-384 | the control counter after one tick |
| Watchdog.ReportMeansMisses | pkg/client/client.go:380-388 | a control loop that reports a pong timeout has seen as many successive ticks, overdue against one pong, as the raises by others leave of three |
| Watchdog.ControlNeedsThreeMisses | pkg/client/client.go:380-388 | no pong timeout of the control loop without three successive ticks overdue against the same pong, unless another loop has raised the counter since it was last zeroed |
| Watchdog.ThreeMissesNeededIff | pkg/client/client.go:779-783 | at any point of any trace, a report needs three misses of the loop's own exactly when no other loop has raised the counter since the start or the last zeroing |
| Watchdog.TwoMissesSuffice | pkg/client/client.go:366-388 | a trace in which one raise by a cancelled loop lets the report come a tick early |
| Watchdog.FailsInTime | pkg/client/client.go:358-395 | with the last pong at p, interval I and timeout T, a data loop fails at a tick in (p+I+T, p+2I+T] and the control loop after m misses in (p+mI+T, p+(m+1)I+T], where m is 3 unless another loop raises the counter |
| StreamSlots.CountersOrdered | pkg/client/client.go:297-318 | in every interleaving: 0 <= gauge <= sum of stream counts <= tokens held <= 128 |
| StreamSlots.AllReturnToZero | pkg/client/client.go:305-311 | when all handlers have finished all counters are zero |
| StreamSlots.OverloadedIff | pkg/client/client.go:298-304 | a request is rejected as overloaded exactly when 128 handlers are unfinished |
| StreamSlots.ProgressExact | pkg/client/client.go:305-311 | whatever others do in between, a handler is gone after exactly five steps of its own |
| StreamSlots.FiveSteps | pkg/client/client.go:305-311 | its steps raise and lower its connection's count and the gauge and give its token back |
| Limiter.LoginRateLimiter.Allow | cmd/client/login.go:128-156 | answers and updates one address's bucket, no other |
| Limiter.LoginRateLimiter.Sweep | cmd/client/login.go:158-166 | the loop drops exactly the stale buckets |
| Limiter.AnswerDependsOnOwnAttempts | cmd/client/login.go:128-166 | an answer is decided by the address's own attempts: other addresses and sweeps anywhere do not affect it |
| Limiter.SweepsUnobservable | cmd/client/login.go:158-166 | deleting all sweeps from a trace leaves the sequence of answers |
| LimiterTheorems.AdmittedIsAllowed | cmd/client/login.go:128-166 | in every run the attempts of an address that the limiter allows are those its own log allows |
| LimiterTheorems.TenPerWindow | cmd/client/login.go:142-155 | in every run, exactly the first 10 attempts of an address in a window are allowed |
| LimiterTheorems.AtMostNineteenPerMinute | cmd/client/login.go:142-155 | in every run at most 19 attempts of an address are allowed in any closed minute |
| LimiterTheorems.MoreThanTenPerMinuteIff | cmd/client/login.go:142-155 | in every run a minute exceeds 10 exactly when a window opens inside it and the attempts from there on, with those allowed before, exceed 10 |
| LimiterTheorems.NineteenAttained | cmd/client/login.go:142-155 | a run of the limiter attains 19 |
| LimiterTheorems.BlockExact | cmd/client/login.go:138-152 | in every run a block set at t refuses exactly the address's attempts before t + 5 minutes |
| LimiterTheorems.QuietIsAllowed | cmd/client/login.go:128-146 | an address that has not tried for five minutes, or never, is allowed |
| LimiterTheorems.SweepExact | cmd/client/login.go:158-166 | after a sweep exactly the buckets are gone whose window started more than ten minutes ago and whose block is over |
| SessionStore.Store.Validate | cmd/client/login.go:54-72 | accepts fresh tokens and lazily deletes expired ones |
| SessionStore.Store.Sweep | cmd/client/login.go:84-94 | the loop drops exactly the expired tokens |
| SessionStore.ValidateRefinesLog | cmd/client/login.go:39-94 | in every interleaving a check succeeds exactly when the token is non-empty, its latest creation has no later deletion and is at most ttl old |
| SessionStore.SweepExact | cmd/client/login.go:84-94 | after a sweep exactly the tokens remain that were created and not deleted, at most ttl ago |
| SessionStore.CheckExact | cmd/client/login.go:54-72 | a check drops its token exactly if it has expired, and no other |
| SessionStore.HousekeepingUnobservable | cmd/client/login.go:66-94 | lazy deletion and sweeping never change an answer |
| Backoff.BackoffDelay | pkg/client/reconnect.go:23-39 | up to attempt 33 the delay lies between the intended base and 500 ms above it |
| Backoff.NoOverflow | pkg/client/reconnect.go:31-32 | 33 is the last attempt whose product fits in 64 bits |
| Backoff.BaseExact | pkg/client/reconnect.go:31-35 | up to attempt 33 the base is min(2^attempt s, cap) and monotone |
| Backoff.BaseExactIff | pkg/client/reconnect.go:31-35 | the base is the intended one exactly when the product fits or its wrapped value still reaches the cap |
| Backoff.WrapsToZero | pkg/client/reconnect.go:31-32 | from attempt 55 on the product wraps to zero |
| Backoff.IntendedAttempts | pkg/client/reconnect.go:31-35 | for caps up to 91 years, exactly the attempts up to 33 and eight later ones get the intended base; the others get a negative or zero one |
| Backoff.Run | pkg/client/client.go:141-178 | the loop asks for the number of failures since the last nil result, turn by turn, and stops where the context ends |
| Backoff.NeverResets | pkg/client/client.go:153-170 | where nil comes only with a done context, the n-th wait asks for the count of all earlier failures |
| Backoff.ThirtyFifthFailureDoesNotWait | pkg/client/client.go:162-176 | after 35 failed sessions the wait is negative, for every cap up to 91 years and every jitter |
| Backoff.SlotWaits | pkg/client/client.go:701-713 | a slot worker asks for the number of waits since its last successful join, wait by wait |
| Backoff.ThirtyFifthSlotWait | pkg/client/client.go:769-770 | the 35th wait of a slot worker since its last join is negative, whatever the jitter |

## Left out

- Interleavings inside the grouped steps, and a resize by a read loop after runSession has returned: the pool invariant does not hold between the lock sections of a group.
- Websocket dialling and framing, message validation and the shared protocol module: foreign code; sends, receives and dials are nondeterministic.
- resolveTargetURL, header forwarding and content-type detection: inputs of the request handler.
- Streaming.HandleHTTPRequest: the order of a request's sends against other requests on the same connection is not modelled; the connection is reduced to whether the k-th send of this request succeeds.
- Streaming.Relay: a reader goroutine that is still blocked when the timeout path returns is not modelled; its result is never used.
- Backoff.BackoffDelay: beyond attempt 62 the conversion from float64 is implementation-dependent, so its value is an input there.
- Watchdog.FailsInTime: the ticker is taken as exact; ticks a slow receiver would drop are not modelled.
- Watchdog.PingLoop: a raise of the shared counter by another loop falls between two ticks, not inside the handling of one.
- Handlers, templates, cookies, origin checks, configuration parsing, logging, metrics registration and the status mirror: plumbing or settled by single branches.
- clientController in cmd/client/ui.go: its lock is released between stop and start.
