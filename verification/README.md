# Feathr events: the pipeline, proved

A Dafny 4.11 model of the event pipeline's core, with proofs of what its
documentation promises. Check the whole project with

    dafny verify dfyconfig.toml

## What is modelled

**The queue, the worker and the circuit.** An in-memory queue with SQS's verbs
lends messages under fresh receipt handles, sweeps lapsed loans lazily, backs
off after reported failures and dead-letters into a bounded ring. N consumers
write each event to the store, then to the index, then acknowledge; a shared
circuit decides how much work they may take.

- `QueueSpec` says what each verb does to the queue's tables, `EventQueue` is
  the class that does it in place, proved against `QueueSpec`. `Receiving` says
  what one `receive` does, from the outside.
- `Lifecycle` is the life of one message. `Ledger` is the queue with its history
  and shows that every verb moves one message at a time through that life;
  `QueueRuns` states what follows for whole runs.
- `CircuitSpec` and `SinkCircuit` are the circuit in the same two forms.
- `Pipeline` is the composition as a state machine, one step per stretch of
  consumer code between two suspensions. `PipelineCircuit`, `PipelineBackoff`
  and `PipelineRuns` hold its theorems. `CircuitRuns` tells the circuit of a run
  from its steps, `Batches` what becomes of the messages received. `ProbeHold`
  says how long a probe is the only one, `SingleFlight` is a run in which it is
  not.
  `EventWorker` is the class whose methods take those steps on real queue and
  circuit objects.

**The rate limiter.** `Bucket` is the token bucket and its envelope theorem,
`RateLimitSpec` the bounded table with both eviction passes, `RateLimitRuns` and
`RateLimitEnvelope` whole runs, `RateLimiter` the classes. `Forgetting` says what
eviction costs, `IdleEviction` and `BestWindow` hold runs in which it does.
`LimiterLog` adds the log lines, `Admission` puts the limiter in front of the
queue.
`OrderedDict` is Python's OrderedDict.

**The search correction.** `EditDistance` relates the recursive distance to edit
scripts; `Correction` is the single-row programme and the choice of a candidate.

**The live histogram.** `LiveBins` fills the bins, `LiveSummary` says which
events each number counts, `LiveFinality` for how long.

`Models` is the event, `Sequences` and `Arithmetic` what several modules use.

## How the model reads the source

- Every read of a clock is a parameter, and the readings of a run never go back.
  Times and tokens are reals; rounding is not modelled.
- `uuid4` is a counter: only the freshness of ids and handles is used. Python's
  dictionaries iterate in insertion order, which is the order of those counters.
- A store call is a write that may land at any moment before the call returns,
  and the call may fail whether or not it landed. Stores are maps keyed by
  `event_id`. The API gives each accepted event an id of its own.
- Between two messages of one batch a consumer may be preempted, which asyncio
  never does. The runs here therefore include all real ones and more.
- `WorldOk` is the invariant of the pipeline. `PipelineRuns.StartOk`, `StepOk`
  and `TraceOk` show that every world of every run satisfies it, so a theorem
  about a world that is `WorldOk` is one about every reachable world. `Good`
  plays the same part for the queue alone.
- `max_receives` and the circuit's threshold are at least 1, its pauses are not
  negative, capacities are at least 1 and the limiter's window is positive.

## Where the code and its documentation disagree

Each item names a lemma with an input on which the documentation is wrong and,
where there is one, the exact condition under which it is right.

- `app/worker.py:41-43` and `docs/ARCHITECTURE.md:748` say that the pause is
  never shorter than the queue's backoff. At the defaults the first pause is 5
  seconds and the first backoff 30: `PipelineCircuit.DefaultPauseFallsShort`.
  Whatever pause meets whatever delivery, it holds exactly when the first pause
  covers the backoff of the last delivery: `PauseCoversBackoffIff`.
  `SecondDeliveryOutlastsPause` shows that covering the first is not enough, and
  `PauseWithinBackoff` that the worker's own circuit does the opposite.
- `app/worker.py:106-111` calls the probe single-flight. A straggler's failure
  clears another consumer's flag: `SingleFlight.TwoProbesAtOnce` is a run at the
  defaults with two probes out. The prober keeps the probe until its own store
  call returns, in every schedule, exactly when no other consumer has live work
  in hand: `ProbeHold.SingleFlightIff`. `CircuitSpec.GrantThenZeros` and
  `StragglerFreesTheProbe` tell the same from the calls made since.
- `app/ratelimit.py:147-153` evicts idle clients first. The pass compares tokens
  that were not refilled and never fires (`RateLimitSpec.CheckIsLru`), so that a
  busy client can go and an idle one stay: `IdleEviction.BusyClientGoesFirst`.
  Forgetting the one that goes costs nothing exactly when its bucket is back at
  full capacity, which its stamp guarantees exactly from a window after its last
  check on: `Forgetting.EvictionIsFreeIff`, `WindowFreesIff`. Over whole runs
  the bound is invisible while no span shorter than a window sees too many keys,
  and the window is the best such constant: `RateLimitRuns.BoundIsInvisible`,
  `BestWindow.WindowIsBest`.
- `app/ratelimit.py:14-18` and `app/config.py:46-49` give one client 50 seconds
  to fill the queue. It takes 40, because the bucket starts full:
  `Admission.FortySecondsToFill`; `NoSooner` and `FastestClient` show that the
  time is exact for any limits.
- `app/queue.py:236-237` wants no retry sooner than a consumer may take; that
  needs a visibility timeout of at most 900 seconds: `Lifecycle.BackoffFloor`,
  and `BackoffUndercutsWindow` for 1000.
- `app/queue.py:12-18` counts a delivery when a loan lapses; the code counts it
  when the message is lent: `Receiving.CountedWhenLent`. A lapse never changes
  the count: `Receiving.SweepAllRoutes`. The model counts with the code.
- `app/queries.py:205-213` promises bins that are final and a cached answer that
  is exact, stragglers of some milliseconds aside. A cached answer is exact
  exactly until something stamped inside its slots arrives, and clients may date
  their events back as far as they like (`app/models.py:73-78`):
  `LiveFinality.CachedIsExactIff`, `LateArrivalIsCounted`, `BackDatedInput`. For
  what is stamped from the request on the bins are final, at every time, exactly
  when `window < bin` or `window % bin + gcd(60, bin) >= bin`, as it is for every
  bin that divides the minute: `AlwaysFinalIff`, with `FinalIff` for one given
  time and `NineSecondBinsStillFill` for a bin of nine seconds.
- `app/queries.py:200-204` promises a dense window. The slots are the window
  [since, end) at every time exactly when the bin divides both the minute and the
  window: `LiveSummary.AlwaysCoveredIff`, with `WindowCoveredIff` for one given
  time and `NineSecondBinsShift` for a bin of nine seconds. `SlotIsExact` says
  what is counted in any case.

## Model

| member | source | states |
|---|---|---|
| `QueueSpec.Send` | app/queue.py:150-155 | refused exactly at the bound, leaving the queue as it was; otherwise the event joins the deque as its last message, undelivered, and nothing else changes |
| `QueueSpec.RingPush` | app/queue.py:146 | of the dead letters so far and the new one, the newest DLQ_MAXLEN are kept, in order |
| `QueueSpec.SweepOne` | app/queue.py:301-336 | withdraws this one handle: by its count the message joins the deque again, as its last, or the dead letters; every other entry stays |
| `QueueSpec.ExpiredBelow` | app/queue.py:299 | exactly the lapsed handles, each once, in the order in which they were lent |
| `QueueSpec.LendManyUnfolds` | app/queue.py:166-170 | the entry of the message at the head always exists, so the "deleted while queued" branch is never taken |
| `QueueSpec.Delete` | app/queue.py:202-206 | accepted exactly for a handle in flight: the message and its handle are gone and nothing else changes; a refusal changes nothing |
| `QueueSpec.SetDeadline` | app/queue.py:208-212 | accepted exactly for a handle in flight: that loan ends at the time given and nothing else changes; a refusal changes nothing |
| `QueueSpec.Fail` | app/queue.py:214-231 | accepted exactly for a handle in flight: that loan ends after the backoff of its delivery count and nothing else changes |
| `Receiving.SweepAllQueues` | app/queue.py:296-336 | a sweep appends the returning messages to the deque and the spent ones to the dead letters, in the order they were lent; the newest letters are kept |
| `Receiving.SweepAllRoutes` | app/queue.py:301-336 | a swept message loses its handle, or its entry once its deliveries are spent; any other entry stays as it was |
| `Receiving.LendOneServes` | app/queue.py:167-199 | the head is lent with its own event, its count one higher, under a fresh handle until the deadline; no other entry changes |
| `Receiving.LendManyServes` | app/queue.py:166-200 | the k-th message handed out is the one at place k of the deque |
| `Receiving.LendManyMovesUp` | app/queue.py:166-200 | as many are handed out as were asked for and wait, and the rest move up |
| `Receiving.ReceiveServesTheLine` | app/queue.py:157-200 | all that a receive does: lapsed loans return to the end of the line or are buried, the first max_n in line are served in order, the rest keep their places, no other message changes |
| `Receiving.CountedWhenLent` | app/queue.py:12-18 | the first delivery of an event already counts one, though nothing has lapsed |
| `EventQueue.InMemoryEventQueue.constructor` | app/queue.py:129-146 | starts empty and valid |
| `EventQueue.InMemoryEventQueue.Send` | app/queue.py:150-155 | does what the specification says to the real tables, refusals included |
| `EventQueue.InMemoryEventQueue.CollectExpired` | app/queue.py:299 | the loop collects the lapsed handles in order |
| `EventQueue.InMemoryEventQueue.Sweep` | app/queue.py:296-336 | the two loops perform the whole specified sweep |
| `EventQueue.InMemoryEventQueue.SweepOne` | app/queue.py:301-336 | one loan is routed in place as specified |
| `EventQueue.InMemoryEventQueue.LendOne` | app/queue.py:167-199 | the body of the delivery loop, updated in place |
| `EventQueue.InMemoryEventQueue.LendMany` | app/queue.py:166-200 | the delivery loop returns the specified messages in order |
| `EventQueue.InMemoryEventQueue.Receive` | app/queue.py:157-200 | new state and messages are those of the specification |
| `EventQueue.InMemoryEventQueue.Delete` | app/queue.py:202-206 | new state and answer are those of the specification |
| `EventQueue.InMemoryEventQueue.ChangeVisibility` | app/queue.py:208-212 | new state and answer are those of the specification |
| `EventQueue.InMemoryEventQueue.Fail` | app/queue.py:214-231 | new state and answer are those of the specification |
| `Lifecycle.MoveOk` | app/queue.py:12-18 | every move of one message keeps its delivery count in range and its times apart |
| `Lifecycle.RetryBudget` | app/queue.py:214-242 | delivery by delivery: a reported one is followed no sooner than its backoff after the report, a lapsed one no sooner than the least window; dead-lettering waits out the sum |
| `Lifecycle.ReportedBudget` | app/queue.py:214-242 | all attempts reported: dead-lettering waits out the sum of the backoffs |
| `Lifecycle.StaysAtLeastWindows` | app/queue.py:236-242 | reported or lapsed, n deliveries take no less than n windows |
| `Lifecycle.UncappedBudget` | app/queue.py:233-242 | with no cap hit the sum is visibility_timeout * (2^n - 1) |
| `Lifecycle.DefaultBudget` | app/queue.py:233-242 | 930 seconds at the defaults |
| `Lifecycle.BackoffDoubles` | app/queue.py:233-242 | the first backoff is the visibility timeout, each later one twice the one before, none above 900 seconds, where it stays |
| `Lifecycle.BackoffFloor` | app/queue.py:236-242 | no retry comes sooner than a consumer may take, if and only if the visibility timeout is within the cap |
| `Lifecycle.BackoffUndercutsWindow` | app/queue.py:236-242 | an input where it fails: a visibility timeout of 1000 seconds, a first backoff of 900 |
| `Ledger.SweepLoanMoves` | app/queue.py:301-336 | a sweep moves one message back to VISIBLE or to the dead letters, by its count, and no other message |
| `Ledger.LendHeadMoves` | app/queue.py:167-199 | a delivery moves one message to INVISIBLE under a fresh handle, and no other message |
| `Ledger.AcknowledgeMoves` | app/queue.py:202-206 | an acknowledgement moves one message to gone, and no other message |
| `Ledger.HoldMoves` | app/queue.py:208-231 | a heartbeat or a report moves one deadline, and no other message |
| `Ledger.Accept` | app/queue.py:150-155 | an accepted event is recorded as sent; conservation, order and deadlines survive |
| `Ledger.SweepLoan` | app/queue.py:301-336 | conservation, order and deadlines survive a sweep |
| `Ledger.LendHead` | app/queue.py:167-199 | conservation, order and deadlines survive a delivery |
| `Ledger.Acknowledge` | app/queue.py:202-206 | conservation, order and deadlines survive; no message is acknowledged twice |
| `Ledger.Hold` | app/queue.py:208-231 | conservation, order and deadlines survive; a stale handle changes nothing |
| `Ledger.Collect` | app/queue.py:157-200 | conservation, order and deadlines survive a whole receive |
| `Ledger.CollectReceives` | app/queue.py:157-200 | the receive of the history model is the receive of the queue |
| `QueueRuns.ReceiveRespectsLeases` | app/queue.py:157-200 | a loan that has time left survives a receive untouched; one that has run out is withdrawn by it |
| `QueueRuns.NoEarlyRedelivery` | app/queue.py:157-200 | every message returned was visible, or its current deadline had passed |
| `QueueRuns.LapsedUntilSwept` | app/queue.py:296-304 | a lapsed handle still acknowledges and reports, until a receive sweeps it |
| `QueueRuns.LendManyMessages` | app/queue.py:188-199 | each message handed out is on loan under its handle with its own event and count |
| `QueueRuns.WindowIsGranted` | app/queue.py:157-200 | every message returned is on loan until the second clock reading plus the window asked, or the default one |
| `QueueRuns.HeartbeatHoldsTheLoan` | app/queue.py:208-212 | a heartbeat holds the loan for exactly the seconds asked, against any receive |
| `QueueRuns.FailureHoldsForTheBackoff` | app/queue.py:214-242 | a reported failure holds its message for exactly the backoff of its delivery count: no receive touches it sooner, the first from then on withdraws the loan |
| `QueueRuns.Conservation` | app/queue.py:285-292 | in every run each accepted message is in exactly one of pending, acknowledged, ring, discarded, with the event sent |
| `QueueRuns.DeliveryBound` | app/queue.py:296-336 | deliveries in any run are at most max_receives per accepted message; dead-lettering at exactly max_receives |
| `QueueRuns.DeliveriesRunOut` | app/queue.py:166-199 | the measure behind it: never negative, raised by max_receives per accepted send, lowered by one per delivery, touched by nothing else |
| `QueueRuns.RoomForAll` | app/queue.py:150-155 | the queue never holds more messages than were accepted |
| `QueueRuns.FirstDeliveriesInSendOrder` | app/queue.py:155-167 | before a message is delivered, every message sent earlier has been |
| `QueueRuns.BacklogIsWhatWaited` | app/queue.py:166-167 | the recorded backlog of a delivery is exactly what was still visible after it |
| `QueueRuns.NoOvertaking` | app/queue.py:336 | between two deliveries of a message everything that waited at the first is delivered, in order |
| `QueueRuns.FairRedelivery` | app/queue.py:336 | before a message is delivered again, the rest of the receive that delivered it and everything that receive left waiting are delivered, in order |
| `QueueRuns.RetiredForever` | app/queue.py:68-74 | a handle that left the in-flight table is refused by every verb, without effect, for the rest of the run |
| `QueueRuns.OneLiveHandle` | app/queue.py:189-191 | at most one handle of a message is live |
| `QueueRuns.RunRetryBudget` | app/queue.py:214-242 | in any run whose windows are at least v: waits and death of every message as in the budget, whether its deliveries were reported or lapsed |
| `CircuitSpec.FailureKeepsCoherent` | app/worker.py:134-146 | open, enough distinct failures and a counted pause always coincide |
| `CircuitSpec.RefinesHistory` | app/worker.py:105-153 | after any calls the state is what the history of failures since the last success says |
| `CircuitSpec.OpenExactlyOnThreshold` | app/worker.py:105-146 | open exactly when at least threshold distinct events have failed since the last success |
| `CircuitSpec.OneEventNeverOpens` | app/worker.py:37-40 | one event failing over and over never opens the circuit |
| `CircuitSpec.PauseDoubles` | app/worker.py:145 | the first pause is the one configured, each later one twice the one before, none above the cap |
| `CircuitSpec.PausesFromHistory` | app/worker.py:134-146 | the count of pauses and the end of the last are those told by the calls alone: a failure begins a pause if enough distinct events have failed and none is under way |
| `CircuitSpec.StragglerChangesNoPause` | app/worker.py:137-141 | a failure recorded before the pause is over moves neither its end nor the count |
| `CircuitSpec.NextPauseBegins` | app/worker.py:142-146 | a failure with no pause under way sets the end to its second clock reading plus the next pause, exactly if enough distinct events have then failed |
| `CircuitSpec.AllowanceFromHistory` | app/worker.py:105-117 | the allowance after any calls, told from the calls alone: the batch while fewer than threshold distinct events have failed since the last success, else one probe once the pause they give is over and no probe is out, else nothing |
| `CircuitSpec.ProbingMeansProbeOut` | app/worker.py:112-121 | the probing flag is up exactly while a granted probe is unanswered |
| `CircuitSpec.GrantThenZeros` | app/worker.py:105-117 | after a grant every caller gets zero until the next release |
| `CircuitSpec.StragglerFreesTheProbe` | app/worker.py:134-146 | with a probe out, any failure starts the next pause, and a second probe is granted exactly from its end on |
| `SingleFlight.TwoProbesAtOnce` | app/worker.py:105-146 | a run at the defaults, from the empty queue, in which consumer 5 is granted a probe while the store call of consumer 4, who was granted the last one, has not returned |
| `ProbeHold.AloneKeepsTheProbe` | app/worker.py:105-117 | if nobody else has live work in hand, everyone who asks gets nothing until a store call of the prober returns, whatever happens meanwhile |
| `ProbeHold.SingleFlightIff` | app/worker.py:105-146 | single flight lasts until then in every schedule, if and only if no other consumer has live work in hand |
| `SinkCircuit.SinkCircuit.constructor` | app/worker.py:79-94 | starts closed |
| `SinkCircuit.SinkCircuit.Allowance` | app/worker.py:105-117 | grants and state as specified |
| `SinkCircuit.SinkCircuit.AbandonProbe` | app/worker.py:119-121 | releases the probe and nothing else |
| `SinkCircuit.SinkCircuit.RecordSuccess` | app/worker.py:123-132 | forgets failures, pause and probe |
| `SinkCircuit.SinkCircuit.RecordFailure` | app/worker.py:134-146 | releases the probe, and pauses only on new evidence |
| `Pipeline.FirstHeartbeatSucceeds` | app/worker.py:262-309 | the stale-handle return is unreachable for the first message after a receive, hence for a probe |
| `Pipeline.ReceivedAreKnown` | app/worker.py:273-291 | a received message carries the event that was sent, under a live handle |
| `Pipeline.ConsumersKnowKept` | app/worker.py:262-366 | whatever a consumer holds stays an event the queue lent it |
| `Pipeline.RewriteIsHarmless` | app/stores.py:74-83 | writing a sent event over its own id changes no stored document |
| `Pipeline.LandKeepsStores` | app/worker.py:325-328 | the index never gets ahead of the store, whenever writes land |
| `Pipeline.FinishKeepsStores` | app/worker.py:325-366 | an acknowledged event is in both stores, and processed counts the acknowledged |
| `Pipeline.StoresOkKept` | app/worker.py:293-366 | every step keeps both stores right |
| `PipelineCircuit.PollKeepsCircuit` | app/worker.py:262-291 | taking a probe uses up one served pause, and the taker goes into a store call |
| `PipelineCircuit.FailKeepsCircuit` | app/worker.py:333-349 | a failure, a straggler's included, never shortens the outage's schedule and releases the probe |
| `PipelineCircuit.PauseCoversBackoffIff` | app/worker.py:41-43 | no pause is shorter than a backoff already imposed, on whatever delivery, if and only if the first pause covers the backoff of the last delivery |
| `PipelineCircuit.SecondDeliveryOutlastsPause` | app/worker.py:41-43 | an input where it fails though first pause and first backoff are equal: messages on their second delivery |
| `PipelineCircuit.DefaultPauseFallsShort` | app/worker.py:41-43 | an input where it fails: the defaults, with a first pause of 5 seconds and a first backoff of 30 |
| `PipelineCircuit.PauseWithinBackoff` | app/worker.py:45-49 | as the worker builds the circuit, no pause outlasts any backoff |
| `Batches.StepMoves` | app/worker.py:262-366 | each step: a batch is received whole, under consecutive handles, by a consumer with nothing left, and its first message begun; then one at a time from the front; no end of a store call touches the rest of a batch |
| `Batches.NothingIsDropped` | app/worker.py:290-323 | at every moment of a run each delivery ever made waits in exactly one batch, or a store call was started for it or its heartbeat refused, and never both |
| `Batches.TakenUpOnce` | app/worker.py:290-323 | a delivery is taken up once, by one consumer |
| `Batches.TakenUpInOrder` | app/worker.py:290-291 | of two deliveries waiting in a batch, the later is taken up by nobody before its consumer has taken up the earlier |
| `Batches.FailedCountsAttempts` | app/worker.py:333-334 | failed counts attempts: one for each store call that raised |
| `PipelineRuns.Safety` | app/worker.py:293-366 | every interleaving: one fate per message, acknowledged events in both stores as sent, index within store |
| `PipelineRuns.ScheduleIndependence` | app/worker.py:157-163 | two runs over the same events, all acknowledged, leave identical stores |
| `CircuitRuns.StepIsCalls` | app/worker.py:262-366 | each step makes just these calls of the circuit: a poll asks, and hands the probe back if it finds nothing; a call that raised records its event; only a finished message records a success |
| `CircuitRuns.PipelineRunsTheCircuit` | app/worker.py:262-366 | every run of the pipeline gives its circuit a history of calls in time order, so all that is proved of histories holds in it |
| `CircuitRuns.CountsWhatRaised` | app/worker.py:123-146 | at every moment of a run: the events counted are those whose store call raised since both writes of an event last went through, and the circuit is open exactly if there are at least threshold of them |
| `CircuitRuns.OpensIff` | app/worker.py:134-146 | a step opens the circuit if and only if it is closed and a store call raises for the event that makes the count threshold |
| `CircuitRuns.OutageBound` | app/worker.py:105-153 | until an event next gets through both stores, n messages taken since the circuit opened: the first n pauses fit into the time since, stragglers included |
| `PipelineRuns.StoresHoldWhatLanded` | app/worker.py:325-328 | at every moment MongoDB holds exactly the events of which an upsert has landed, the index those of which an index call has |
| `PipelineRuns.ProbeNeverOrphaned` | app/worker.py:262-323 | a held probe always has a holder inside a store call |
| `PipelineRuns.ProbeReleased` | app/worker.py:293-349 | a probe is released once its holder's store calls have returned |
| `PipelineRuns.ComposedRetryBudget` | app/queue.py:214-242 | the retry budget of every message in every run, with heartbeats, circuit and N consumers in play |
| `PipelineRuns.NoEarlyDeath` | app/queue.py:214-242 | whatever fails or lapses, no message is dead-lettered before max_receives windows have passed since its first delivery |
| `PipelineRuns.BackoffIsNeverThrownAway` | app/queue.py:173-187 | in every run a report stays on record with the deadline it set: no heartbeat overwrites its backoff |
| `PipelineRuns.StepIsOps` | app/worker.py:262-366 | each step makes just these calls of the queue, with these arguments: receive and heartbeat, heartbeat, fail, or delete |
| `PipelineRuns.PipelineRunsTheQueue` | app/worker.py:262-366 | every run of the pipeline is a run of the queue, so all run theorems of the queue hold in it |
| `PipelineBackoff.HeartbeatKeepsMarks` | app/worker.py:308 | a heartbeat for an unreported delivery makes no report and takes none back |
| `PipelineBackoff.ReportsAreNeverOverwritten` | app/worker.py:293-349 | no step of any consumer undoes a report, and no delivery is ever in two hands |
| `PipelineBackoff.WorkStartsWithAFullWindow` | app/worker.py:294-309 | no store call starts on a loan with less than the full visibility timeout left; a message whose handle has been withdrawn is dropped without a store call |
| `PipelineBackoff.FailureIsReported` | app/worker.py:333-349 | a failed store call puts its time on record as a report, and its message waits out the backoff of its count from then |
| `EventWorker.EventWorker.constructor` | app/worker.py:165-195 | starts as the empty pipeline |
| `EventWorker.EventWorker.Begin` | app/worker.py:294-323 | heartbeat, then the first store call or the early return |
| `EventWorker.EventWorker.Poll` | app/worker.py:262-291 | one turn of the loop up to its next suspension |
| `EventWorker.EventWorker.Next` | app/worker.py:290-291 | the batch goes on to its next message |
| `EventWorker.EventWorker.Failed` | app/worker.py:333-349 | the except branch, in order |
| `EventWorker.EventWorker.UpsertReturned` | app/worker.py:325-328 | what follows the return of the upsert |
| `EventWorker.EventWorker.Finished` | app/worker.py:331-366 | success recorded before the delete; processed counts only accepted deletes |
| `EventWorker.EventWorker.IndexReturned` | app/worker.py:328-366 | what follows the return of the index |
| `EventWorker.EventWorker.Ingest` | app/main.py:197-210 | the API's send, refused exactly when the queue is full |
| `Bucket.TakeLeavesSound` | app/ratelimit.py:82-89 | a stored bucket is strictly below capacity and never negative |
| `Bucket.WaitIsExact` | app/ratelimit.py:82-89 | granted exactly from the next grant time on; a refusal names that time and does not move it |
| `Bucket.LevelIsLeastHeadroom` | app/ratelimit.py:82-89 | the level is the least headroom over all earlier checks, and attained |
| `Bucket.Envelope` | app/ratelimit.py:82-89 | granted if and only if one more grant keeps every window ending now within capacity + rate * length |
| `Bucket.GrantsBounded` | app/ratelimit.py:82-89 | no window anywhere holds more than capacity + rate * length grants |
| `RateLimitSpec.PopPass` | app/ratelimit.py:161-162 | the table ends within MAX_CLIENTS |
| `RateLimitSpec.NothingLooksIdle` | app/ratelimit.py:156-160 | the first pass deletes nothing when no bucket is full |
| `RateLimitSpec.EvictKeeps` | app/ratelimit.py:146-162 | who stays when the table is too large: idle-looking keys go first, from the least recently checked on and no more than need be, then the least recently checked |
| `RateLimitSpec.EvictDropsOldest` | app/ratelimit.py:146-162 | eviction is LRU: at most the first key goes |
| `RateLimitSpec.CheckIsLru` | app/ratelimit.py:111-124 | the caller is kept and last, the table bounded, in order of last check, and never holding a full bucket |
| `IdleEviction.BusyClientGoesFirst` | app/ratelimit.py:146-162 | a run in which the client evicted is still short of tokens, while one that is back at full capacity stays |
| `RateLimitRuns.BoundedOk` | app/ratelimit.py:111-162 | the same in every run |
| `RateLimitRuns.BoundIsInvisible` | app/ratelimit.py:111-162 | no span below the window with more than MAX_CLIENTS keys: every wait is that of a table without bound |
| `BestWindow.BoundShows` | app/ratelimit.py:111-162 | for any shorter span there is a run in which no such span is crowded and yet a check is granted that a table without bound refuses |
| `BestWindow.WindowIsBest` | app/ratelimit.py:111-162 | so the bound is invisible for exactly the spans of at least a window |
| `Forgetting.ForgettableIff` | app/ratelimit.py:146-153 | forgetting a bucket changes no later answer if and only if it is back at full capacity |
| `Forgetting.WindowFreesIff` | app/ratelimit.py:146-153 | told from its stamp: so it is whatever the bucket held, if and only if a whole window has passed |
| `Forgetting.EvictionIsFreeIff` | app/ratelimit.py:146-162 | the key that a newcomer evicts is the one least recently checked, and when that costs nothing |
| `LimiterLog.LogKeepsTable` | app/ratelimit.py:126-137 | should_log changes no account, nor the order or the bound of the table |
| `LimiterLog.LoggingChangesNothing` | app/ratelimit.py:111-137 | a run that mixes checks and log calls leaves the accounts of the run of its checks alone |
| `LimiterLog.SameWait` | app/ratelimit.py:111-137 | and answers its checks with the same waits |
| `LimiterLog.LogLinesAddUp` | app/ratelimit.py:126-137 | while a client is not evicted, through any checks and log calls of any clients: its lines are LOG_EVERY_SECONDS apart, and reported plus outstanding refusals are all of them |
| `LimiterLog.EntersFresh` | app/ratelimit.py:115-137 | a client enters by a check of its own, with no refusal counted and no line written |
| `LimiterLog.LineIff` | app/ratelimit.py:126-137 | while a client stays, a refusal is reported exactly when LOG_EVERY_SECONDS have passed since the last line about it, or since clock zero if there is none, and the line counts the refusals since |
| `LimiterLog.StrangersAreNotReported` | app/ratelimit.py:127-129 | a client that is not in the table is not reported, and the call leaves no trace |
| `RateLimitEnvelope.LimitIsTheEnvelope` | app/ratelimit.py:82-124 | while a key is not evicted its checks obey exactly the linear envelope, whatever other clients do |
| `RateLimitEnvelope.GrantsInAnySpan` | app/ratelimit.py:82-124 | while a key is not evicted, no span of time, wherever it starts and ends, holds more grants than capacity + rate * length |
| `RateLimitEnvelope.RefusalsAreFree` | app/ratelimit.py:82-124 | asking again early is refused and names the same time; from that time on it is granted |
| `RateLimitEnvelope.RetryAfterIsTight` | app/ratelimit.py:220-223 | Retry-After is the least positive whole number of seconds that is enough |
| `RateLimitEnvelope.RetryAfterSucceeds` | app/ratelimit.py:220-223 | coming back after n whole seconds is granted exactly when n is at least Retry-After |
| `Admission.NoSooner` | app/ratelimit.py:14-18 | n requests of one client take at least (n - capacity) / rate seconds to get through |
| `Admission.OneClientFillsNoSooner` | app/ratelimit.py:14-18 | so one client alone cannot fill the queue in less |
| `Admission.FastestClient` | app/ratelimit.py:82-124 | and there is a client, never refused, that takes exactly that time |
| `Admission.SendsFill` | app/queue.py:150-155 | a queue left alone holds all it was sent, up to its bound |
| `Admission.FortySecondsToFill` | app/ratelimit.py:14-18 | as shipped that is 40 seconds for 10,000 events |
| `RateLimiter.Bucket.Take` | app/ratelimit.py:82-89 | tokens and stamp updated in place as specified, bookkeeping untouched |
| `RateLimiter.RateLimiter.constructor` | app/ratelimit.py:95-109 | starts with no clients |
| `RateLimiter.RateLimiter.Check` | app/ratelimit.py:111-124 | wait and table are those of the specification |
| `RateLimiter.RateLimiter.FindOrCreate` | app/ratelimit.py:115-117 | the caller's bucket, full if new, at the end of the table |
| `RateLimiter.RateLimiter.Spend` | app/ratelimit.py:122 | one bucket object changes, no other key sees it |
| `RateLimiter.RateLimiter.EvictIfNeeded` | app/ratelimit.py:146-162 | both passes, as specified |
| `RateLimiter.RateLimiter.DropIdle` | app/ratelimit.py:156-160 | the loop over the snapshot, with its early return |
| `RateLimiter.RateLimiter.DropOldest` | app/ratelimit.py:161-162 | pops from the front until the table fits |
| `RateLimiter.RateLimiter.ShouldLog` | app/ratelimit.py:126-137 | answer and counters are those of the specification |
| `EditDistance.DistanceIsLeastScript` | frontend/src/domain/correction.ts:14-30 | the distance is the length of a shortest edit script: one exists, none is shorter |
| `EditDistance.ZeroIffEqual` | frontend/src/domain/correction.ts:16 | zero exactly for equal strings |
| `EditDistance.Symmetric` | frontend/src/domain/correction.ts:14-30 | symmetric |
| `EditDistance.Triangle` | frontend/src/domain/correction.ts:14-30 | triangle inequality |
| `Correction.FirstRow` | frontend/src/domain/correction.ts:17 | the first row of the table |
| `Correction.NextRow` | frontend/src/domain/correction.ts:18-28 | one row from the previous one alone |
| `Correction.ComputeDistance` | frontend/src/domain/correction.ts:15-30 | the single-row programme returns the length of a shortest edit script |
| `Correction.CollectCandidates` | frontend/src/domain/correction.ts:44-51 | the loops that fill the Set leave exactly the candidates, which the next two rows describe |
| `Correction.CandidatesAreCarried` | frontend/src/domain/correction.ts:44-51 | a string is a candidate if and only if some hit has it, lowered, as its type, its user or a text in its metadata |
| `Correction.CandidatesInOrder` | frontend/src/domain/correction.ts:44-51 | of two candidates the earlier is seen before any sight of the later: by hit, then type, user and metadata in order |
| `Correction.OrderOfFirstOccurrence` | frontend/src/domain/correction.ts:44-51 | earlier in the Set means first seen earlier |
| `Correction.CorrectionFor` | frontend/src/domain/correction.ts:40-64 | of the types, users and texts that the hits carry the nearest, of several as near the one seen first; nothing exactly when nothing was typed, a hit carries what was typed, or all are more than two edits away |
| `LiveBins.FillBins` | app/queries.py:253-259 | each slot of each type is the sum of its rows; a type appears exactly if a row of it is in range |
| `LiveBins.SlotCovers` | app/queries.py:255 | which instants a slot counts, for any bin width |
| `LiveBins.FirstSlotStart` | app/queries.py:218-220 | the first slot begins at the window start exactly when that lies on a bin boundary |
| `LiveSummary.SlotIsExact` | app/queries.py:223-259 | a slot is the number of events of its type between its bounds, for any rows order and any width |
| `LiveSummary.WindowCoveredIff` | app/queries.py:247 | the slots are the window [since, end) if and only if it starts on a boundary and is whole bins long, or is empty |
| `LiveSummary.AlwaysCoveredIff` | app/queries.py:218-220 | so it is whatever the time, if and only if the bin divides the minute and the window, or the window is empty |
| `LiveSummary.NineSecondBinsShift` | app/queries.py:218-220 | an input where it fails: bins of nine seconds |
| `LiveSummary.DividingTheMinuteAligns` | app/queries.py:218-220 | a bin that divides the minute and the window puts it there |
| `LiveSummary.TypesPartition` | app/queries.py:264-267 | the types partition the events: totals add up to the grand total |
| `LiveSummary.SortedKeys` | app/queries.py:266 | strictly by name, each type once |
| `LiveSummary.Summarise` | app/queries.py:186-276 | the summary depends on the stored events alone: exact counts and totals, no empty series, no type missing; with a filter that is not empty all series are of the normalised type, with none or an empty one every type counts |
| `LiveSummary.AlignedSummary` | app/queries.py:186-276 | with a dividing bin: counts per [since + i*b, since + (i+1)*b), totals per [since, until) |
| `LiveSummary.SharedBinsAgree` | app/queries.py:209-217 | two windows over the same events agree on every bin they share, for bins and windows of any size |
| `LiveFinality.CountStaysIff` | app/queries.py:205-216 | a count changes if and only if something that arrives is stamped in its slot |
| `LiveFinality.CachedIsExactIff` | app/queries.py:205-216 | a summary asked for again shows the same counts if and only if nothing stamped inside its slots has arrived since |
| `LiveFinality.FinalIff` | app/queries.py:205-247 | at a given time: nothing stamped from then on changes a count, if and only if no slot is returned or the shift of the first is made up for by the left-over of the window and the seconds since its end |
| `LiveFinality.AlwaysFinalIff` | app/queries.py:205-247 | so it is whatever the time, if and only if window < bin or window % bin + gcd(60, bin) >= bin |
| `LiveFinality.UnfinishedAt` | app/queries.py:205-247 | otherwise there is a time, at the start of a minute, when a bin returned is still filling |
| `LiveFinality.NineSecondBinsStillFill` | app/queries.py:205-247 | an input where it fails: bins of nine seconds |
| `LiveFinality.EveryBinIsClosed` | app/queries.py:205-220 | with a bin that divides the minute, and any window, the last slot ends with the window, at the last bin boundary not after now |
| `LiveFinality.LateArrivalIsCounted` | app/models.py:73-78 | with bins and window as shipped, an event stamped in any slot that was shown changes its count when it arrives afterwards |
| `LiveFinality.BackDatedInput` | app/models.py:73-78 | for one, an event dated ten seconds back |

## Left out

- Shutdown and cancellation: a consumer cancelled during a probe leaves the flag
  up; the probe theorems are about runs without cancellation, `_stopping` is not
  modelled.
- `clear`, `reset_counters` and the demo routes: deliberate destruction of state,
  outside the port that the application depends on.
- The worker's handler for a failing `receive`: the in-memory queue never raises
  there.
- A write that lands only after its call has returned with a failure.
- Aliasing of `_Entry` objects: they never leave the queue, and are values in the
  `entries` map that the methods reassign. Buckets are objects, as in the source.
- `EventWorker.EventWorker.Landed`: the store's own step, not code of the worker.
- Logging text, and what `stats` and `remaining` report beyond the two counters
  of the worker.
- Float rounding: times, tokens and waits are reals.
- `classify`, `client_of` and the rest of the middleware: one-branch facts.
- MongoDB, Elasticsearch and Redis themselves: the aggregation is any list of
  rows that groups the matching events correctly, in any order.
- `sorted` is a library call; any strictly ordered list of the types will do, and
  `LiveSummary.SortedKeys` builds one.
- `trim`, `toLowerCase`, `strip` and `lower`: parameters; the theorems hold for
  any functions. A string is a sequence of characters; JavaScript's UTF-16 code
  units are not told apart from them.
- Which clock reading the cache key of `/events/stats/realtime` belongs to:
  caching is not part of this model.
- `search`, `search_terms`, `stats`, `list_events` and the React console: calls
  into systems the model cannot see, or views.
