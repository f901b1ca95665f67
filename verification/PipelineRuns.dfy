/**
  Whole runs of the pipeline, from empty queue and empty stores: any schedule
  of N consumers, any mixture of store failures and lapsed loans, any arrivals.
  No `clear`, no shutdown and no cancellation.
 */
module PipelineRuns {
  import opened Sequences
  import opened Arithmetic
  import opened Models
  import opened QueueSpec
  import opened Lifecycle
  import opened Ledger
  import opened CircuitSpec
  import opened Pipeline
  import opened PipelineCircuit
  import PipelineBackoff
  import QueueRuns

  ghost predicate WorldOk(p: Params, w: World) {
    && Sensible(p)
    && Good(p.queue, w.l)
    && ConsumersKnow(w)
    && StoresOk(w)
    && CircuitOk(p, w)
  }

  lemma StartOk(p: Params)
    requires Sensible(p)
    ensures WorldOk(p, Start(p))
  {
    hide Good, ConsumersKnow, StoresOk, CircuitOk;
    QueueRuns.StartGood(p.queue);
    StartKnows(p);
    StartStores(p);
    StartCircuit(p);
  }

  lemma StartKnows(p: Params)
    ensures ConsumersKnow(Start(p))
  {
  }

  lemma StartStores(p: Params)
    ensures StoresOk(Start(p))
  {
  }

  lemma StartCircuit(p: Params)
    requires Sensible(p)
    ensures CircuitOk(p, Start(p))
  {
  }

  lemma StepOk(p: Params, w: World, s: Step)
    requires WorldOk(p, w) && Enabled(w, s)
    ensures WorldOk(p, Do(p, w, s))
  {
    hide Good, ConsumersKnow, StoresOk, CircuitOk;
    StepKeepsParts(p, w, s);
  }

  lemma StepKeepsParts(p: Params, w: World, s: Step)
    requires WorldOk(p, w) && Enabled(w, s)
    ensures ConsumersKnow(Do(p, w, s)) && StoresOk(Do(p, w, s)) && CircuitOk(p, Do(p, w, s))
  {
    hide Do;
    ConsumersKnowKept(p, w, s);
    StoresOkKept(p, w, s);
    CircuitOkKept(p, w, s);
  }

  /** Every step of the schedule can be taken when its turn comes. */
  ghost predicate Schedule(p: Params, w: World, steps: seq<Step>)
    requires WorldOk(p, w)
    decreases |steps|
  {
    steps == [] ||
    (Enabled(w, steps[0]) && (StepOk(p, w, steps[0]); Schedule(p, Do(p, w, steps[0]), steps[1..])))
  }

  /** The worlds the schedule passes through, `w` first. */
  ghost function Trace(p: Params, w: World, steps: seq<Step>): (ws: seq<World>)
    requires WorldOk(p, w) && Schedule(p, w, steps)
    ensures |ws| == |steps| + 1 && ws[0] == w
    decreases |steps|
  {
    if steps == [] then [w]
    else
      StepOk(p, w, steps[0]);
      [w] + Trace(p, Do(p, w, steps[0]), steps[1..])
  }

  lemma {:induction false} TraceOk(p: Params, w: World, steps: seq<Step>, i: nat)
    requires WorldOk(p, w) && Schedule(p, w, steps) && i <= |steps|
    ensures WorldOk(p, Trace(p, w, steps)[i])
    decreases |steps|
  {
    hide Good, ConsumersKnow, StoresOk, CircuitOk, Enabled, Do;
    if i > 0 {
      StepOk(p, w, steps[0]);
      TraceOk(p, Do(p, w, steps[0]), steps[1..], i - 1);
    }
  }

  /** Each step of a schedule is taken in the world before it and leads to the one after. */
  lemma {:induction false} TraceStep(p: Params, w: World, steps: seq<Step>, i: nat)
    requires WorldOk(p, w) && Schedule(p, w, steps) && i < |steps|
    ensures WorldOk(p, Trace(p, w, steps)[i]) && Enabled(Trace(p, w, steps)[i], steps[i])
    ensures Trace(p, w, steps)[i + 1] == Do(p, Trace(p, w, steps)[i], steps[i])
    decreases |steps|
  {
    hide Good, ConsumersKnow, StoresOk, CircuitOk, Enabled, Do;
    StepOk(p, w, steps[0]);
    if i > 0 {
      TraceStep(p, Do(p, w, steps[0]), steps[1..], i - 1);
    }
  }

  ghost predicate IsRun(p: Params, steps: seq<Step>) {
    Sensible(p) && (StartOk(p); Schedule(p, Start(p), steps))
  }

  /** The worlds a run passes through. */
  ghost function Worlds(p: Params, steps: seq<Step>): (ws: seq<World>)
    requires IsRun(p, steps)
    ensures |ws| == |steps| + 1 && ws[0] == Start(p)
  {
    hide WorldOk;
    StartOk(p);
    Trace(p, Start(p), steps)
  }

  ghost function End(p: Params, steps: seq<Step>): (w: World)
    requires IsRun(p, steps)
    ensures WorldOk(p, w)
  {
    hide WorldOk;
    StartOk(p);
    TraceOk(p, Start(p), steps, |steps|);
    Worlds(p, steps)[|steps|]
  }

  // ---- safety -------------------------------------------------------------

  /**
    In every interleaving each accepted message is pending, acknowledged, in
    the dead-letter ring or discarded from it; every acknowledged event is in
    both stores as it was sent; the index holds nothing MongoDB lacks; and
    neither store holds anything that was not sent.
   */
  lemma Safety(p: Params, steps: seq<Step>)
    requires IsRun(p, steps)
    ensures var w := End(p, steps);
            && QueueRuns.FatesOk(w.l)
            && (forall id :: id in w.l.h.acked ==>
                  && id < |w.l.h.sent|
                  && Stored(w.store, w.l.h.sent[id])
                  && Stored(w.index, w.l.h.sent[id]))
            && IndexWithinStore(w)
            && OnlySent(w.store, w.l)
            && w.processed == |w.l.h.acked|
  {
    var w := End(p, steps);
    QueueRuns.GoodConserves(p.queue, w.l);
  }

  ghost predicate AllAcked(w: World) {
    forall id :: 0 <= id < |w.l.h.sent| ==> id in w.l.h.acked
  }

  /**
    Schedule independence: two runs that accept the same events, in whatever
    order, and end with all of them acknowledged leave the same documents in
    both stores, whatever failed, lapsed or was delivered twice on the way.
   */
  lemma ScheduleIndependence(p: Params, p': Params, steps: seq<Step>, steps': seq<Step>)
    requires IsRun(p, steps) && IsRun(p', steps')
    requires AllAcked(End(p, steps)) && AllAcked(End(p', steps'))
    requires forall e :: e in End(p, steps).l.h.sent <==> e in End(p', steps').l.h.sent
    ensures End(p, steps).store == End(p', steps').store == End(p, steps).index == End(p', steps').index
  {
    hide Good, CircuitOk;
    var w, w' := End(p, steps), End(p', steps');
    StoreIsWhatWasSent(p, w);
    StoreIsWhatWasSent(p', w');
    SameDocuments(w.store, w'.store, w.l, w'.l);
    SameDocuments(w.store, w.index, w.l, w.l);
    SameDocuments(w.store, w'.index, w.l, w'.l);
  }

  /** `t` holds the sent events, each under its id, and nothing else. */
  ghost predicate ExactlySent(t: Table, l: Ledger) {
    OnlySent(t, l) && forall e :: e in l.h.sent ==> Stored(t, e)
  }

  lemma StoreIsWhatWasSent(p: Params, w: World)
    requires WorldOk(p, w) && AllAcked(w)
    ensures ExactlySent(w.store, w.l) && ExactlySent(w.index, w.l)
  {
    hide Good, CircuitOk;
    forall e | e in w.l.h.sent ensures Stored(w.store, e) && Stored(w.index, e) {
      var id :| 0 <= id < |w.l.h.sent| && w.l.h.sent[id] == e;
      assert id in w.l.h.acked;
    }
  }

  lemma SameDocuments(t: Table, t': Table, l: Ledger, l': Ledger)
    requires ExactlySent(t, l) && ExactlySent(t', l')
    requires forall e :: e in l.h.sent <==> e in l'.h.sent
    ensures t == t'
  {
    forall k | k in t ensures k in t' && t'[k] == t[k] {
      assert Stored(t', t[k]);
    }
    forall k | k in t' ensures k in t {
      assert Stored(t, t'[k]);
    }
  }

  // ---- what the stores hold -----------------------------------------------

  /** In this step a pending `upsert` of the event takes effect. */
  predicate LandsInStore(w: World, s: Step, e: Event) {
    s.Lands? && s.i < |w.consumers| && w.consumers[s.i].Upserting? && w.consumers[s.i].msg.event == e
  }

  /** In this step a pending `index` of the event takes effect. */
  predicate LandsInIndex(w: World, s: Step, e: Event) {
    s.Lands? && s.i < |w.consumers| && w.consumers[s.i].Indexing? && w.consumers[s.i].msg.event == e
  }

  lemma StepWrites(p: Params, w: World, s: Step, e: Event)
    requires WorldOk(p, w) && Enabled(w, s)
    ensures Stored(Do(p, w, s).store, e) <==> Stored(w.store, e) || LandsInStore(w, s, e)
    ensures Stored(Do(p, w, s).index, e) <==> Stored(w.index, e) || LandsInIndex(w, s, e)
  {
    hide Good, ConsumersKnow, StoresOk, CircuitOk, Stored, LandStep, Do;
    if s.Lands? {
      LandingWrites(w, s, e);
      LandsIsLandStep(p, w, s);
    } else {
      StoresUntouched(p, w, s);
    }
  }

  lemma LandsIsLandStep(p: Params, w: World, s: Step)
    requires Good(p.queue, w.l) && Enabled(w, s) && s.Lands?
    ensures Do(p, w, s) == LandStep(w, s.i)
  {
    hide Good, LandStep;
  }

  lemma LandingWrites(w: World, s: Step, e: Event)
    requires StoresOk(w) && ConsumersKnow(w) && s.Lands? && Enabled(w, s)
    ensures Stored(LandStep(w, s.i).store, e) <==> Stored(w.store, e) || LandsInStore(w, s, e)
    ensures Stored(LandStep(w, s.i).index, e) <==> Stored(w.index, e) || LandsInIndex(w, s, e)
  {
    hide ConsumersKnow, StoresOk;
    LandKeepsStored(w, s.i);
  }

  lemma StoresUntouched(p: Params, w: World, s: Step)
    requires Good(p.queue, w.l) && Enabled(w, s) && !s.Lands?
    ensures Do(p, w, s).store == w.store && Do(p, w, s).index == w.index
  {
    hide Good, Receive, Collect, Hold, Accept, Acknowledge, RecordFailure, PollStep, FailStep;
  }

  /** A pending write of the event landed before moment `n`. */
  ghost predicate HasLanded(ws: seq<World>, steps: seq<Step>, n: nat, e: Event, inStore: bool)
    requires n <= |steps| < |ws|
  {
    exists k :: 0 <= k < n && if inStore then LandsInStore(ws[k], steps[k], e) else LandsInIndex(ws[k], steps[k], e)
  }

  /**
    At every moment each store holds exactly the events of which a write to it
    has landed: MongoDB those upserted, the index those indexed.
   */
  lemma {:induction false} StoresHoldWhatLanded(p: Params, steps: seq<Step>, n: nat, e: Event)
    requires IsRun(p, steps) && n <= |steps|
    ensures var ws := Worlds(p, steps);
            && (Stored(ws[n].store, e) <==> HasLanded(ws, steps, n, e, true))
            && (Stored(ws[n].index, e) <==> HasLanded(ws, steps, n, e, false))
  {
    hide WorldOk, Schedule, Trace, Enabled, Do, LandsInStore, LandsInIndex;
    StartOk(p);
    var ws := Worlds(p, steps);
    if n == 0 {
      NothingStoredYet(p, e);
    } else {
      StoresHoldWhatLanded(p, steps, n - 1, e);
      TraceStep(p, Start(p), steps, n - 1);
      StepWrites(p, ws[n - 1], steps[n - 1], e);
    }
  }

  lemma NothingStoredYet(p: Params, e: Event)
    ensures !Stored(Start(p).store, e) && !Stored(Start(p).index, e)
  {
  }

  // ---- the probe ----------------------------------------------------------

  /** At every moment of a run, whoever holds the probe is in a store call that will answer it. */
  lemma ProbeNeverOrphaned(p: Params, w: World, steps: seq<Step>, k: nat)
    requires WorldOk(p, w) && Schedule(p, w, steps) && k <= |steps|
    requires Trace(p, w, steps)[k].circuit.probing
    ensures var w' := Trace(p, w, steps)[k];
            w'.holder < |w'.consumers| && !w'.consumers[w'.holder].Idle?
  {
    hide Good, ConsumersKnow, StoresOk;
    TraceOk(p, w, steps, k);
  }

  predicate IsReturn(s: Step, i: nat) {
    (s.UpsertReturns? && s.i == i) || (s.IndexReturns? && s.i == i)
  }

  /** The step is a store call raising. */
  predicate Raised(s: Step) {
    (s.UpsertReturns? || s.IndexReturns?) && !s.ok
  }

  /** How many of the steps are store calls of consumer `i` returning. */
  function Returns(steps: seq<Step>, i: nat): nat {
    if steps == [] then 0
    else (if IsReturn(steps[0], i) then 1 else 0) + Returns(steps[1..], i)
  }

  function ReturnsNeeded(c: Consumer): nat {
    match c
    case Idle(_) => 0
    case Upserting(_, _, _) => 2
    case Indexing(_, _, _) => 1
  }

  /** While a probe stays out, only its holder's own store calls move its holder. */
  lemma HolderStays(p: Params, w: World, s: Step)
    requires WorldOk(p, w) && Enabled(w, s) && w.circuit.probing
    requires Do(p, w, s).circuit.probing
    ensures var w' := Do(p, w, s);
            && w'.holder == w.holder < |w.consumers| == |w'.consumers|
            && !w.consumers[w.holder].Idle? && !w'.consumers[w.holder].Idle?
            && ReturnsNeeded(w'.consumers[w.holder]) + (if IsReturn(s, w.holder) then 1 else 0)
               <= ReturnsNeeded(w.consumers[w.holder])
  {
    hide Conserved, Fifo, Told, Valid, ConsumersKnow, StoresOk, OutagePaced, Receive;
  }

  /**
    Every probe is released once its holder's store calls have returned: two
    returns suffice from the upsert, one from the index.
   */
  lemma {:induction false} ProbeReleased(p: Params, w: World, steps: seq<Step>)
    requires WorldOk(p, w) && Schedule(p, w, steps) && w.circuit.probing
    requires w.holder < |w.consumers| && ReturnsNeeded(w.consumers[w.holder]) <= Returns(steps, w.holder)
    ensures exists k :: 0 <= k <= |steps| && !Trace(p, w, steps)[k].circuit.probing
    decreases |steps|
  {
    hide Good, ConsumersKnow, StoresOk, Enabled, Do;
    assert ReturnsNeeded(w.consumers[w.holder]) >= 1 by {
      assert ProbeHeld(w);
    }
    StepOk(p, w, steps[0]);
    var w' := Do(p, w, steps[0]);
    if w'.circuit.probing {
      HolderStays(p, w, steps[0]);
      ProbeReleased(p, w', steps[1..]);
      var k :| 0 <= k <= |steps[1..]| && !Trace(p, w', steps[1..])[k].circuit.probing;
      assert !Trace(p, w, steps)[k + 1].circuit.probing;
    } else {
      assert !Trace(p, w, steps)[1].circuit.probing;
    }
  }

  // ---- reports stay on record ---------------------------------------------

  /** A report made during a run is on record at every later moment of it. */
  lemma {:induction false} ReportsStandAlong(p: Params, w: World, steps: seq<Step>, k: nat)
    requires WorldOk(p, w) && Schedule(p, w, steps) && k <= |steps| && PipelineBackoff.HandsOk(w)
    ensures PipelineBackoff.HandsOk(Trace(p, w, steps)[k])
    ensures PipelineBackoff.ReportsStand(w.l, Trace(p, w, steps)[k].l)
    decreases |steps|
  {
    hide Good, ConsumersKnow, StoresOk, CircuitOk, Enabled, Do, PipelineBackoff.HandsOk;
    if k > 0 {
      StepOk(p, w, steps[0]);
      PipelineBackoff.ReportsAreNeverOverwritten(p, w, steps[0]);
      ReportsStandAlong(p, Do(p, w, steps[0]), steps[1..], k - 1);
    }
  }

  /** From the start of any run, then: once reported, a delivery keeps its backoff. */
  lemma BackoffIsNeverThrownAway(p: Params, steps: seq<Step>, j: nat, k: nat)
    requires IsRun(p, steps) && j <= k <= |steps|
    ensures PipelineBackoff.ReportsStand(Worlds(p, steps)[j].l, Worlds(p, steps)[k].l)
  {
    hide Good, ConsumersKnow, StoresOk, CircuitOk, Enabled, Do, PipelineBackoff.HandsOk, PipelineBackoff.ReportsStand;
    StartOk(p);
    PipelineBackoff.StartHandsOk(p);
    FromThere(p, Start(p), steps, j, k);
  }

  lemma {:induction false} FromThere(p: Params, w: World, steps: seq<Step>, j: nat, k: nat)
    requires WorldOk(p, w) && Schedule(p, w, steps) && j <= k <= |steps| && PipelineBackoff.HandsOk(w)
    ensures PipelineBackoff.ReportsStand(Trace(p, w, steps)[j].l, Trace(p, w, steps)[k].l)
    decreases |steps|
  {
    hide Good, ConsumersKnow, StoresOk, CircuitOk, Enabled, Do, PipelineBackoff.HandsOk, PipelineBackoff.ReportsStand;
    if j == 0 {
      ReportsStandAlong(p, w, steps, k);
    } else {
      StepOk(p, w, steps[0]);
      PipelineBackoff.ReportsAreNeverOverwritten(p, w, steps[0]);
      FromThere(p, Do(p, w, steps[0]), steps[1..], j - 1, k - 1);
    }
  }

  // ---- the pipeline's queue is a queue ------------------------------------

  /** The queue verbs a step of the pipeline calls, with their clock readings. */
  function OpsOf(p: Params, w: World, s: Step): seq<QueueRuns.Op>
    requires Good(p.queue, w.l) && Enabled(w, s)
  {
    match s
    case Ingest(e) => [QueueRuns.OpSend(e)]
    case Poll(i, t1, t2, t3, t4) =>
      var n := Allowance(w.circuit, p.batch, t1).1;
      var ms := Receive(p.queue, w.l.q, n, None, t2, t3).1;
      if n == 0 then [QueueRuns.OpWait(t1)]
      else [QueueRuns.OpWait(t1)] + [QueueRuns.OpReceive(n, None, t2, t3)] +
           if ms == [] then [] else [QueueRuns.OpExtend(ms[0].handle, p.visibility, t4)]
    case Next(i, t) => [QueueRuns.OpExtend(w.consumers[i].rest[0].handle, p.visibility, t)]
    case Lands(i) => []
    case UpsertReturns(i, ok, t1, t2, t3) =>
      if ok then [] else [QueueRuns.OpFail(w.consumers[i].msg.handle, t3)]
    case IndexReturns(i, ok, t1, t2, t3) =>
      if ok then [QueueRuns.OpDelete(w.consumers[i].msg.handle)]
      else [QueueRuns.OpFail(w.consumers[i].msg.handle, t3)]
  }

  lemma BeginIsExtend(p: Params, w: World, i: nat, m: Message, rest: seq<Message>, t: real)
    requires Good(p.queue, w.l) && i < |w.consumers| && w.l.clock <= t
    ensures Begin(p, w, i, m, rest, t).l
         == QueueRuns.Do(p.queue, w.l, QueueRuns.OpExtend(m.handle, p.visibility, t))
  {
    hide Good, Hold, At;
  }

  lemma PollIsOps(p: Params, w: World, i: nat, t1: real, t2: real, t3: real, t4: real)
    requires Good(p.queue, w.l) && Enabled(w, Poll(i, t1, t2, t3, t4))
    ensures var ops := OpsOf(p, w, Poll(i, t1, t2, t3, t4));
            QueueRuns.InTime(p.queue, w.l, ops) &&
            QueueRuns.After(p.queue, w.l, ops) == PollStep(p, w, i, t1, t2, t3, t4).l
  {
    hide Conserved, Fifo, Told, Valid, Receive, Begin, QueueRuns.InTime, QueueRuns.After, Collect;
    var cfg := p.queue;
    var (c, n) := Allowance(w.circuit, p.batch, t1);
    var l1 := At(cfg, w.l, t1);
    QueueRuns.AfterOne(cfg, w.l, QueueRuns.OpWait(t1));
    if n != 0 {
      var l2 := Collect(cfg, l1, n, None, t2, t3);
      var ms := Receive(cfg, l1.q, n, None, t2, t3).1;
      var first := [QueueRuns.OpWait(t1)] + [QueueRuns.OpReceive(n, None, t2, t3)];
      QueueRuns.AfterOne(cfg, l1, QueueRuns.OpReceive(n, None, t2, t3));
      QueueRuns.AfterAppend(cfg, w.l, [QueueRuns.OpWait(t1)], [QueueRuns.OpReceive(n, None, t2, t3)]);
      assert QueueRuns.After(cfg, w.l, first) == l2;
      if ms == [] {
        assert first + [] == first;
      } else {
        var beat := QueueRuns.OpExtend(ms[0].handle, p.visibility, t4);
        var w1 := w.(l := l2, circuit := c, holder := if c.probing then i else w.holder);
        BeginIsExtend(p, w1, i, ms[0], ms[1..], t4);
        QueueRuns.AfterOne(cfg, l2, beat);
        QueueRuns.AfterAppend(cfg, w.l, first, [beat]);
      }
    }
  }

  /** The shorter of the two windows a consumer ever has: the queue's own, and the one it claims. */
  function LeastWindow(p: Params): real {
    Min(p.queue.visibility, p.visibility)
  }

  lemma OpsWindows(p: Params, w: World, s: Step)
    requires Good(p.queue, w.l) && Enabled(w, s)
    ensures QueueRuns.WindowsAtLeast(p.queue, OpsOf(p, w, s), LeastWindow(p))
  {
    hide Good, Receive, Allowance;
  }

  lemma StepIsOps(p: Params, w: World, s: Step)
    requires Good(p.queue, w.l) && Enabled(w, s)
    ensures var ops := OpsOf(p, w, s);
            QueueRuns.InTime(p.queue, w.l, ops) && QueueRuns.After(p.queue, w.l, ops) == Do(p, w, s).l
  {
    hide Conserved, Fifo, Told, Valid, Receive, Begin, QueueRuns.InTime, QueueRuns.After, Collect, RecordFailure;
    var ops := OpsOf(p, w, s);
    if s.Poll? {
      PollIsOps(p, w, s.i, s.t1, s.t2, s.t3, s.t4);
    } else if ops == [] {
      QueueRuns.AfterNone(p.queue, w.l);
    } else {
      QueueRuns.AfterOne(p.queue, w.l, ops[0]);
      if s.Next? {
        BeginIsExtend(p, w, s.i, w.consumers[s.i].rest[0], w.consumers[s.i].rest[1..], s.t);
      }
    }
  }

  lemma {:induction false} TraceIsOps(p: Params, w: World, steps: seq<Step>) returns (ops: seq<QueueRuns.Op>)
    requires WorldOk(p, w) && Schedule(p, w, steps)
    ensures QueueRuns.InTime(p.queue, w.l, ops)
    ensures QueueRuns.After(p.queue, w.l, ops) == Trace(p, w, steps)[|steps|].l
    ensures QueueRuns.WindowsAtLeast(p.queue, ops, LeastWindow(p))
    decreases |steps|
  {
    hide Good, ConsumersKnow, StoresOk, CircuitOk, Enabled, Do, QueueRuns.InTime, QueueRuns.After, OpsOf,
         QueueRuns.WindowAtLeast, LeastWindow;
    if steps == [] {
      ops := [];
      QueueRuns.AfterNone(p.queue, w.l);
    } else {
      StepOk(p, w, steps[0]);
      StepIsOps(p, w, steps[0]);
      OpsWindows(p, w, steps[0]);
      var rest := TraceIsOps(p, Do(p, w, steps[0]), steps[1..]);
      QueueRuns.AfterAppend(p.queue, w.l, OpsOf(p, w, steps[0]), rest);
      ops := OpsOf(p, w, steps[0]) + rest;
    }
  }

  /**
    Every run of the pipeline is, seen from its queue, a run of the queue: all
    that QueueRuns proves of order, leases, handles and deliveries holds here.
   */
  lemma PipelineRunsTheQueue(p: Params, steps: seq<Step>) returns (ops: seq<QueueRuns.Op>)
    requires IsRun(p, steps)
    ensures QueueRuns.IsRun(p.queue, ops) && QueueRuns.End(p.queue, ops) == End(p, steps).l
    ensures QueueRuns.WindowsAtLeast(p.queue, ops, LeastWindow(p))
  {
    hide Good, ConsumersKnow, StoresOk, CircuitOk, QueueRuns.InTime, QueueRuns.After, Schedule, Trace;
    StartOk(p);
    ops := TraceIsOps(p, Start(p), steps);
  }

  /**
    The retry budget of the composition, heartbeats and circuit included: in
    every run and for every message, a delivery reported through `fail` is
    followed by the next no sooner than its backoff after the report, one that
    lapsed no sooner than the least window, and the message is dead-lettered no
    sooner than the sum of these after its first delivery.
   */
  lemma ComposedRetryBudget(p: Params, steps: seq<Step>, id: MsgId)
    requires IsRun(p, steps) && id < |End(p, steps).l.h.attempts|
    ensures QueueRuns.BudgetKept(p.queue, End(p, steps).l, id, LeastWindow(p))
  {
    hide QueueRuns.BudgetKept, LeastWindow, Schedule, Trace, QueueRuns.InTime, QueueRuns.After;
    var ops := PipelineRunsTheQueue(p, steps);
    QueueRuns.RunRetryBudget(p.queue, ops, id, LeastWindow(p));
  }

  /** So whatever is reported, lapses or is retried, no message dies before max_receives windows have passed. */
  lemma NoEarlyDeath(p: Params, steps: seq<Step>, id: MsgId)
    requires IsRun(p, steps) && id in End(p, steps).l.h.deadAt
    requires 0.0 <= p.visibility && 0.0 <= p.queue.visibility && LeastWindow(p) <= BACKOFF_CAP_SECONDS
    ensures var h := End(p, steps).l.h;
            && id < |h.attempts| && h.attempts[id] != []
            && h.attempts[id][0].at + LeastWindow(p) * p.queue.maxReceives as real <= h.deadAt[id]
  {
    hide Schedule, Trace, Stays;
    var l := End(p, steps).l;
    DeadWasSent(p.queue, l, id);
    ComposedRetryBudget(p, steps, id);
    StaysAtLeastWindows(p.queue, l.h.attempts[id], LeastWindow(p), p.queue.maxReceives);
  }

  lemma DeadWasSent(cfg: Config, l: Ledger, id: MsgId)
    requires Good(cfg, l) && id in l.h.deadAt
    ensures id < |l.h.attempts|
  {
  }
}
