/**
  Where single flight ends: a run of the worker as it ships, with eight
  consumers and every parameter at its default, in which two probes are out.
 */
module SingleFlight {
  import opened Sequences
  import opened Arithmetic
  import opened Models
  import opened QueueSpec
  import opened Ledger
  import opened CircuitSpec
  import opened Pipeline
  import opened PipelineCircuit
  import opened PipelineRuns
  import Lifecycle
  import QueueRuns
  import Receiving

  /** No loan of this run is due before this time. */
  const HORIZON: real := 30.0

  // ---- runs, one step at a time -------------------------------------------

  lemma {:induction false} ScheduleExtends(p: Params, w: World, steps: seq<Step>, s: Step)
    requires WorldOk(p, w) && Schedule(p, w, steps)
    requires Enabled(Trace(p, w, steps)[|steps|], s)
    requires WorldOk(p, Trace(p, w, steps)[|steps|])
    ensures Schedule(p, w, steps + [s])
    ensures Trace(p, w, steps + [s])[|steps| + 1] == Do(p, Trace(p, w, steps)[|steps|], s)
    decreases |steps|
  {
    hide Good, ConsumersKnow, StoresOk, CircuitOk, Enabled, Do;
    if steps == [] {
      StepOk(p, w, s);
      assert [s][1..] == [];
    } else {
      StepOk(p, w, steps[0]);
      ScheduleExtends(p, Do(p, w, steps[0]), steps[1..], s);
      assert (steps + [s])[1..] == steps[1..] + [s];
    }
  }

  lemma RunExtends(p: Params, steps: seq<Step>, s: Step)
    requires IsRun(p, steps) && Enabled(End(p, steps), s)
    ensures IsRun(p, steps + [s]) && End(p, steps + [s]) == Do(p, End(p, steps), s)
  {
    hide WorldOk, Enabled, Do, Schedule, Trace;
    StartOk(p);
    TraceOk(p, Start(p), steps, |steps|);
    ScheduleExtends(p, Start(p), steps, s);
  }

  // ---- a queue whose loans all last ---------------------------------------

  ghost predicate LoansLast(q: Queue) {
    forall id :: id in q.entries && q.entries[id].handle.Some? ==> q.entries[id].deadline >= HORIZON
  }

  lemma NothingExpired(cfg: Config, q: Queue, now: real)
    requires Valid(cfg, q) && LoansLast(q) && now < HORIZON
    ensures Expired(q, now) == []
  {
    var hs := Expired(q, now);
    forall h: nat ensures !IsExpired(q, h, now) {
      if h in q.inflight {
        assert LoanPlaced(q, h);
      }
    }
    HeadIsIn(hs);
  }

  lemma HeadIsIn(hs: seq<Handle>)
    ensures hs == [] || hs[0] in hs
  {
  }

  /** The one message that waits is handed out; the loans last on. */
  lemma ReceiveTakesTheOne(cfg: Config, q: Queue, n: int, t: real, id: MsgId)
    requires Valid(cfg, q) && LoansLast(q) && 0.0 <= t < HORIZON && cfg.visibility >= HORIZON
    requires q.visible == [id] && n >= 1
    ensures id in q.entries
    ensures var (q', ms) := Receive(cfg, q, n, None, t, t);
            && |ms| == 1 && ms[0].event == q.entries[id].event
            && q'.visible == [] && LoansLast(q')
  {
    hide Valid, Receive, Expired;
    NothingExpired(cfg, q, t);
    Receiving.ReceiveServesTheLine(cfg, q, n, None, t, t);
    var (q', ms) := Receive(cfg, q, n, None, t, t);
    var line := Receiving.Line(cfg, q, t);
    assert line == [id];
    assert Receiving.Served(q, q', line, ms, t + cfg.visibility, 0);
    forall k | k in q'.entries && q'.entries[k].handle.Some? ensures q'.entries[k].deadline >= HORIZON {
      if k != id {
        assert Receiving.Routed(cfg, q, q', [], k);
      }
    }
  }

  lemma HoldLasts(cfg: Config, l: Ledger, h: Handle, seconds: Option<real>)
    requires Good(cfg, l) && LoansLast(l.q) && l.clock >= 0.0 && HORIZON <= cfg.visibility <= BACKOFF_CAP_SECONDS
    requires seconds.Some? ==> seconds.value >= HORIZON
    ensures var q' := Hold(cfg, l, h, seconds).q; LoansLast(q') && q'.visible == l.q.visible
    ensures Hold(cfg, l, h, seconds).h.sent == l.h.sent
  {
    hide Conserved, Fifo, Told, Valid, Backoff, SetDeadline;
    Lifecycle.BackoffFloor(cfg);
  }

  // ---- the run, in stages -------------------------------------------------

  /** Events with ids of different lengths, hence different ids. */
  function Arrival(k: nat): Event {
    Event(seq(k, _ => 'x'), "click", "user", "https://example.com", 0, 0, "")
  }

  lemma ArrivalsDiffer(j: nat, k: nat)
    requires j != k
    ensures Arrival(j).event_id != Arrival(k).event_id
  {
    assert |Arrival(j).event_id| == j && |Arrival(k).event_id| == k;
  }

  /** Consumer `j` is writing event number `j`, or has given up on it. */
  ghost predicate Occupied(w: World, j: nat, busy: set<nat>)
    requires j < |w.consumers|
  {
    if j in busy then
      w.consumers[j].Upserting? && w.consumers[j].rest == [] && w.consumers[j].msg.event == Arrival(j)
    else w.consumers[j] == Idle([])
  }

  /** `n` events have come in, one to a consumer; those in `busy` are still at it. */
  ghost predicate Stage(w: World, n: nat, busy: set<nat>, c: Circuit, now: real) {
    && WorldOk(DEFAULTS, w)
    && |w.l.h.sent| == n && (forall k :: 0 <= k < n ==> w.l.h.sent[k] == Arrival(k))
    && w.l.q.visible == [] && LoansLast(w.l.q)
    && |w.consumers| == 8
    && (forall j {:trigger Occupied(w, j, busy)} :: 0 <= j < 8 ==> Occupied(w, j, busy))
    && w.circuit == c && w.l.clock == now && 0.0 <= now < HORIZON
  }

  lemma StartStage()
    ensures IsRun(DEFAULTS, []) && Stage(End(DEFAULTS, []), 0, {}, CLOSED, 0.0)
  {
    hide Good, ConsumersKnow, StoresOk, CircuitOk;
    StartOk(DEFAULTS);
    var w := End(DEFAULTS, []);
    assert w == Start(DEFAULTS);
    forall j | 0 <= j < 8 ensures Occupied(w, j, {}) {}
  }

  lemma AcceptOne(cfg: Config, l: Ledger, e: Event)
    requires Good(cfg, l) && l.q.visible == [] && LoansLast(l.q) && |l.h.sent| < cfg.maxsize
    ensures var l' := Accept(cfg, l, e);
            && l'.h.sent == l.h.sent + [e]
            && l'.q.visible == [|l.h.sent|] && LoansLast(l'.q)
            && |l.h.sent| in l'.q.entries && l'.q.entries[|l.h.sent|].event == e
  {
    QueueRuns.RoomForAll(cfg, l);
    hide Conserved, Fifo, Told, Valid;
  }

  /** One consumer polls, finds one message and starts on it. */
  lemma PollOne(w: World, i: nat, id: MsgId, now: real)
    requires WorldOk(DEFAULTS, w) && Enabled(w, Poll(i, now, now, now, now))
    requires w.l.q.visible == [id] && LoansLast(w.l.q) && 0.0 <= now < HORIZON
    requires Allowance(w.circuit, DEFAULTS.batch, now).1 >= 1
    ensures id in w.l.q.entries
    ensures var w' := Do(DEFAULTS, w, Poll(i, now, now, now, now));
            var c := Allowance(w.circuit, DEFAULTS.batch, now).0;
            && (exists m: Message :: m.event == w.l.q.entries[id].event
                                     && w'.consumers == w.consumers[i := Upserting(m, [], false)])
            && w'.l.h.sent == w.l.h.sent && w'.l.q.visible == [] && LoansLast(w'.l.q) && w'.l.clock == now
            && w'.circuit == c && w'.holder == if c.probing then i else w.holder
  {
    hide Conserved, Fifo, Told, Valid, Receive, Collect, Hold, LoansLast, ConsumersKnow, StoresOk, CircuitOk;
    var p := DEFAULTS;
    var (c, n) := Allowance(w.circuit, p.batch, now);
    var l1 := At(p.queue, w.l, now);
    var l2 := Collect(p.queue, l1, n, None, now, now);
    SameLoans(w.l.q, l1.q);
    ReceiveTakesTheOne(p.queue, l1.q, n, now, id);
    CollectReceives(p.queue, l1, n, None, now, now);
    FirstHeartbeatSucceeds(p, w, i, now, now, now, now);
    var ms := Receive(p.queue, l1.q, n, None, now, now).1;
    assert ms[1..] == [];
    var l3 := At(p.queue, l2, now);
    SameLoans(l2.q, l3.q);
    HoldLasts(p.queue, l3, ms[0].handle, Some(p.visibility));
    assert Do(p, w, Poll(i, now, now, now, now)).consumers == w.consumers[i := Upserting(ms[0], [], false)];
  }

  lemma SameLoans(q: Queue, q': Queue)
    requires q' == q && LoansLast(q)
    ensures LoansLast(q')
  {
  }

  /** The others are where they were. */
  ghost predicate OthersWait(w: World, w': World, i: nat) {
    && |w'.consumers| == |w.consumers|
    && forall j :: 0 <= j < |w.consumers| && j != i ==> w'.consumers[j] == w.consumers[j]
  }

  lemma OccupiedStays(w: World, w': World, i: nat, busy: set<nat>, busy': set<nat>)
    requires |w.consumers| == 8 && OthersWait(w, w', i) && i < 8
    requires forall j {:trigger Occupied(w, j, busy)} :: 0 <= j < 8 ==> Occupied(w, j, busy)
    requires forall j :: j != i ==> (j in busy' <==> j in busy)
    requires Occupied(w', i, busy')
    ensures forall j {:trigger Occupied(w', j, busy')} :: 0 <= j < 8 ==> Occupied(w', j, busy')
  {
    forall j | 0 <= j < 8 ensures Occupied(w', j, busy') {
      assert Occupied(w, j, busy);
    }
  }

  /** Event number `n` comes in and consumer `n` takes it. */
  function TakeSteps(n: nat, now: real): seq<Step> {
    [Ingest(Arrival(n)), Poll(n, now, now, now, now)]
  }

  lemma TakeStage(steps: seq<Step>, n: nat, busy: set<nat>, c: Circuit, t: real, now: real)
    requires IsRun(DEFAULTS, steps) && Stage(End(DEFAULTS, steps), n, busy, c, t)
    requires n < 8 && n !in busy && t <= now < HORIZON && Allowance(c, DEFAULTS.batch, now).1 >= 1
    ensures IsRun(DEFAULTS, steps + TakeSteps(n, now))
    ensures var w, w' := End(DEFAULTS, steps), End(DEFAULTS, steps + TakeSteps(n, now));
            var c' := Allowance(c, DEFAULTS.batch, now).0;
            && Stage(w', n + 1, busy + {n}, c', now) && OthersWait(w, w', n)
            && w'.holder == if c'.probing then n else w.holder
  {
    hide Good, ConsumersKnow, StoresOk, CircuitOk, Schedule, Trace, Accept, PollStep, Allowance, LoansLast;
    var p, w := DEFAULTS, End(DEFAULTS, steps);
    var s1, s2 := Ingest(Arrival(n)), Poll(n, now, now, now, now);
    forall k | 0 <= k < n ensures w.l.h.sent[k].event_id != Arrival(n).event_id {
      ArrivalsDiffer(k, n);
    }
    RunExtends(p, steps, s1);
    var w1 := End(p, steps + [s1]);
    AcceptOne(p.queue, w.l, Arrival(n));
    assert Occupied(w, n, busy);
    RunExtends(p, steps + [s1], s2);
    PollOne(w1, n, n, now);
    var w' := Do(p, w1, s2);
    assert steps + [s1] + [s2] == steps + TakeSteps(n, now);
    assert Occupied(w', n, busy + {n});
    OccupiedStays(w, w', n, busy, busy + {n});
  }

  /** The store call of consumer `i` raises. */
  lemma FailStage(steps: seq<Step>, n: nat, busy: set<nat>, c: Circuit, t: real, i: nat, now: real)
    requires IsRun(DEFAULTS, steps) && Stage(End(DEFAULTS, steps), n, busy, c, t)
    requires i in busy && i < 8 && t <= now < HORIZON
    ensures var s := UpsertReturns(i, false, now, now, now);
            && IsRun(DEFAULTS, steps + [s])
            && var w, w' := End(DEFAULTS, steps), End(DEFAULTS, steps + [s]);
               && Stage(w', n, busy - {i}, RecordFailure(DEFAULTS.circuit, c, Arrival(i).event_id, now, now), now)
               && OthersWait(w, w', i) && w'.holder == w.holder
  {
    hide Good, ConsumersKnow, StoresOk, CircuitOk, Schedule, Trace, RecordFailure, LoansLast, Hold;
    var p, w := DEFAULTS, End(DEFAULTS, steps);
    var s := UpsertReturns(i, false, now, now, now);
    assert Occupied(w, i, busy);
    RunExtends(p, steps, s);
    var w' := End(p, steps + [s]);
    SameLoans(w.l.q, At(p.queue, w.l, now).q);
    HoldLasts(p.queue, At(p.queue, w.l, now), w.consumers[i].msg.handle, None);
    assert Occupied(w', i, busy - {i});
    OccupiedStays(w, w', i, busy, busy - {i});
  }

  // ---- the circuit along the run ------------------------------------------

  function Id(k: nat): string {
    Arrival(k).event_id
  }

  const ONE_FAILED: Circuit := Circuit({Id(0)}, None, 0, false)
  const TWO_FAILED: Circuit := Circuit({Id(0), Id(1)}, None, 0, false)
  const PAUSED: Circuit := Circuit({Id(0), Id(1), Id(2)}, Some(5.0), 1, false)
  const PROBED: Circuit := PAUSED.(probing := true)
  const PAUSED_AGAIN: Circuit := Circuit({Id(0), Id(1), Id(2), Id(3)}, Some(15.0), 2, false)

  lemma OpeningFailures()
    ensures RecordFailure(DEFAULTS.circuit, CLOSED, Id(0), 0.0, 0.0) == ONE_FAILED
    ensures RecordFailure(DEFAULTS.circuit, ONE_FAILED, Id(1), 0.0, 0.0) == TWO_FAILED
    ensures RecordFailure(DEFAULTS.circuit, TWO_FAILED, Id(2), 0.0, 0.0) == PAUSED
  {
    hide Arrival;
    ArrivalsDiffer(0, 1);
    ArrivalsDiffer(0, 2);
    ArrivalsDiffer(1, 2);
    assert CLOSED.failures + {Id(0)} == {Id(0)};
    assert ONE_FAILED.failures + {Id(1)} == {Id(0), Id(1)};
    assert TWO_FAILED.failures + {Id(2)} == {Id(0), Id(1), Id(2)};
    assert |{Id(0), Id(1)}| == 2 && |{Id(0), Id(1), Id(2)}| == 3;
    assert Pow2(0) == 1;
  }

  lemma StragglerPausesAgain()
    ensures RecordFailure(DEFAULTS.circuit, PROBED, Id(3), 5.0, 5.0) == PAUSED_AGAIN
  {
    hide Arrival;
    ArrivalsDiffer(0, 1);
    ArrivalsDiffer(0, 2);
    ArrivalsDiffer(1, 2);
    assert PROBED.failures + {Id(3)} == {Id(0), Id(1), Id(2), Id(3)};
    assert {Id(0), Id(1), Id(2)} <= {Id(0), Id(1), Id(2), Id(3)};
    assert |{Id(0), Id(1), Id(2)}| == 3;
    assert Pow2(1) == 2;
  }

  // ---- two probes ---------------------------------------------------------

  ghost predicate Reaches(steps: seq<Step>, n: nat, busy: set<nat>, c: Circuit, now: real) {
    IsRun(DEFAULTS, steps) && Stage(End(DEFAULTS, steps), n, busy, c, now)
  }

  lemma Fails(steps: seq<Step>, n: nat, busy: set<nat>, c: Circuit, i: nat, now: real, busy': set<nat>, c': Circuit)
    requires Reaches(steps, n, busy, c, now) && i in busy && i < 8 && now < HORIZON
    requires busy' == busy - {i} && c' == RecordFailure(DEFAULTS.circuit, c, Id(i), now, now)
    ensures Reaches(steps + [UpsertReturns(i, false, now, now, now)], n, busy', c', now)
  {
    hide IsRun, End, Stage, RecordFailure, Arrival;
    FailStage(steps, n, busy, c, now, i, now);
  }

  function Below(n: nat): (ids: set<nat>)
    ensures forall k: nat :: k in ids <==> k < n
  {
    if n == 0 then {} else Below(n - 1) + {n - 1}
  }

  /** While the circuit is closed every consumer may take an event. */
  lemma {:induction false} AllTake(n: nat) returns (steps: seq<Step>)
    requires n <= 8
    ensures Reaches(steps, n, Below(n), CLOSED, 0.0)
  {
    hide IsRun, End, Stage, Arrival;
    if n == 0 {
      StartStage();
      steps := [];
    } else {
      steps := AllTake(n - 1);
      TakeStage(steps, n - 1, Below(n - 1), CLOSED, 0.0, 0.0);
      steps := steps + TakeSteps(n - 1, 0.0);
    }
  }

  /** Four consumers take an event each, three of them fail, and the circuit opens at time zero. */
  lemma Outage() returns (steps: seq<Step>)
    ensures Reaches(steps, 4, {3}, PAUSED, 0.0)
  {
    hide Reaches, RecordFailure, Id;
    OpeningFailures();
    steps := AllTake(4);
    Fails(steps, 4, Below(4), CLOSED, 0, 0.0, {1, 2, 3}, ONE_FAILED);
    steps := steps + [UpsertReturns(0, false, 0.0, 0.0, 0.0)];
    Fails(steps, 4, {1, 2, 3}, ONE_FAILED, 1, 0.0, {2, 3}, TWO_FAILED);
    steps := steps + [UpsertReturns(1, false, 0.0, 0.0, 0.0)];
    Fails(steps, 4, {2, 3}, TWO_FAILED, 2, 0.0, {3}, PAUSED);
    steps := steps + [UpsertReturns(2, false, 0.0, 0.0, 0.0)];
  }

  /**
    More than one consumer may be probing. At five seconds consumer 4 is
    granted the probe and starts writing. Consumer 3, whose write began before
    the circuit opened, fails; that clears the flag. At fifteen seconds consumer
    5 is granted a probe of its own, and consumer 4 is still where it was.
   */
  lemma TwoProbesAtOnce() returns (before: seq<Step>, after: seq<Step>)
    ensures IsRun(DEFAULTS, before) && IsRun(DEFAULTS, before + after)
    ensures forall s :: s in after ==> !IsReturn(s, 4)
    ensures var w, w' := End(DEFAULTS, before), End(DEFAULTS, before + after);
            && |w.consumers| == |w'.consumers| == 8
            && w.circuit.probing && w.holder == 4 && w.consumers[4].Upserting?
            && w'.circuit.probing && w'.holder == 5 && w'.consumers[5].Upserting?
            && w'.consumers[4] == w.consumers[4]
  {
    hide IsRun, End, RecordFailure, Arrival, WorldOk, LoansLast;
    var outage := Outage();
    TakeStage(outage, 4, {3}, PAUSED, 0.0, 5.0);
    before := outage + TakeSteps(4, 5.0);
    var straggler := UpsertReturns(3, false, 5.0, 5.0, 5.0);
    FailStage(before, 5, {3} + {4}, PROBED, 5.0, 3, 5.0);
    StragglerPausesAgain();
    assert {3} + {4} - {3} == {4};
    TakeStage(before + [straggler], 5, {4}, PAUSED_AGAIN, 5.0, 15.0);
    after := [straggler] + TakeSteps(5, 15.0);
    assert before + after == before + [straggler] + TakeSteps(5, 15.0);
    assert Occupied(End(DEFAULTS, before), 4, {3} + {4});
    assert Occupied(End(DEFAULTS, before + after), 5, {4} + {5});
  }
}
