/**
  What becomes of the messages a consumer has received: none is dropped
  unattempted, and each consumer takes up its own in the order received.
 */
module Batches {
  import opened Sequences
  import opened QueueSpec
  import opened Ledger
  import opened CircuitSpec
  import opened Pipeline
  import opened PipelineCircuit
  import opened PipelineRuns
  import Receiving

  // ---- one step -----------------------------------------------------------

  /** Delivery `h` waits in consumer `i`'s batch: received, and not begun. */
  ghost predicate Waits(w: World, i: nat, h: Handle) {
    i < |w.consumers| && exists k :: 0 <= k < |w.consumers[i].rest| && w.consumers[i].rest[k].handle == h
  }

  /** In this step consumer `i` is given delivery `h`. */
  predicate Receives(w: World, s: Step, w': World, i: nat, h: Handle) {
    s.Poll? && s.i == i && |w.l.h.delivered| <= h < |w'.l.h.delivered|
  }

  /** In this step consumer `i` starts a store call for delivery `h`, or has its heartbeat for it refused. */
  predicate TakesUp(w: World, s: Step, w': World, i: nat, h: Handle) {
    && i < |w.consumers| && i < |w'.consumers| && w.consumers[i].Idle?
    && (|| (w'.consumers[i].Upserting? && w'.consumers[i].msg.handle == h)
        || (s.Next? && s.i == i && w.consumers[i].rest != [] && w.consumers[i].rest[0].handle == h
            && h !in w.l.q.inflight))
  }

  /** `ms` carry the handles from `h` on, in order. */
  ghost predicate Numbered(ms: seq<Message>, h: Handle) {
    forall k :: 0 <= k < |ms| ==> ms[k].handle == h + k
  }

  /**
    What a step does to what the consumers hold. A batch is received whole, by
    a consumer with nothing left; the first of it is begun at once, the rest
    one at a time from the front; and no store call's end touches the rest.
   */
  ghost predicate Moves(w: World, s: Step, w': World)
    requires Enabled(w, s)
  {
    match s
    case Ingest(_) => w'.consumers == w.consumers
    case Poll(i, _, _, _, _) =>
      var n := |w'.l.h.delivered| - |w.l.h.delivered|;
      || (n == 0 && w'.consumers == w.consumers)
      || exists ms :: |ms| == n > 0 && Numbered(ms, |w.l.h.delivered|)
                      && w'.consumers == w.consumers[i := Upserting(ms[0], ms[1..], false)]
    case Next(i, _) =>
      var m, rest := w.consumers[i].rest[0], w.consumers[i].rest[1..];
      w'.consumers == w.consumers[i := if m.handle in w.l.q.inflight then Upserting(m, rest, false) else Idle(rest)]
    case Lands(i) => w'.consumers == w.consumers[i := w.consumers[i].(landed := true)]
    case UpsertReturns(i, ok, _, _, _) =>
      var m, rest := w.consumers[i].msg, w.consumers[i].rest;
      w'.consumers == w.consumers[i := if ok then Indexing(m, rest, false) else Idle(rest)]
    case IndexReturns(i, _, _, _, _) => w'.consumers == w.consumers[i := Idle(w.consumers[i].rest)]
  }

  lemma ReceivedInOrder(cfg: Config, l: Ledger, n: int, t1: real, t2: real)
    requires Good(cfg, l) && l.clock <= t1 <= t2
    ensures Numbered(Receive(cfg, l.q, n, None, t1, t2).1, |l.h.delivered|)
  {
    hide Valid, Conserved, Fifo, Told, Receive;
    Receiving.ReceiveServesTheLine(cfg, l.q, n, None, t1, t2);
    var (q', ms) := Receive(cfg, l.q, n, None, t1, t2);
    var line := Receiving.Line(cfg, l.q, t1);
    forall k | 0 <= k < |ms| ensures ms[k].handle == |l.h.delivered| + k {
      assert Receiving.Served(l.q, q', line, ms, t2 + cfg.visibility, k);
    }
  }

  lemma PollMoves(p: Params, w: World, i: nat, t1: real, t2: real, t3: real, t4: real)
    requires Good(p.queue, w.l) && Enabled(w, Poll(i, t1, t2, t3, t4))
    ensures Moves(w, Poll(i, t1, t2, t3, t4), Do(p, w, Poll(i, t1, t2, t3, t4)))
  {
    hide Conserved, Fifo, Told, Valid, Receive, Known, Hold, Collect, Numbered;
    var n := Allowance(w.circuit, p.batch, t1).1;
    var ms := Receive(p.queue, w.l.q, n, None, t2, t3).1;
    FirstHeartbeatSucceeds(p, w, i, t1, t2, t3, t4);
    SameBeyondClock(p.queue, w.l, t1);
    ReceivedAreKnown(p.queue, At(p.queue, w.l, t1), n, t2, t3);
    ReceivedInOrder(p.queue, At(p.queue, w.l, t1), n, t2, t3);
    if n != 0 && ms != [] {
      var w' := Do(p, w, Poll(i, t1, t2, t3, t4));
      assert |w'.l.h.delivered| == |w.l.h.delivered| + |ms|;
    }
  }

  lemma SameBeyondClock(cfg: Config, l: Ledger, t: real)
    requires Good(cfg, l) && l.clock <= t
    ensures At(cfg, l, t).h == l.h && At(cfg, l, t).q == l.q
  {
  }

  lemma StepMoves(p: Params, w: World, s: Step)
    requires Good(p.queue, w.l) && Enabled(w, s)
    ensures Moves(w, s, Do(p, w, s))
    ensures !s.Poll? ==> Do(p, w, s).l.h.delivered == w.l.h.delivered
  {
    hide Conserved, Fifo, Told, Valid, Receive, Collect, PollStep, RecordFailure;
    if s.Poll? {
      PollMoves(p, w, s.i, s.t1, s.t2, s.t3, s.t4);
    }
  }

  // ---- the batches stay in order and apart --------------------------------

  /** The handles in a batch rise, and were all given out. */
  ghost predicate RestOk(l: Ledger, rest: seq<Message>) {
    && (forall j, k :: 0 <= j < k < |rest| ==> rest[j].handle < rest[k].handle)
    && (forall k :: 0 <= k < |rest| ==> rest[k].handle < |l.h.delivered|)
  }

  /** No delivery waits in two batches. */
  ghost predicate BatchesOk(w: World) {
    && (forall i :: 0 <= i < |w.consumers| ==> RestOk(w.l, w.consumers[i].rest))
    && (forall i, j, h :: Waits(w, i, h) && Waits(w, j, h) ==> i == j)
  }

  /** Consumer `i`'s batch after the step: what it had or was given, less what it took up. */
  ghost predicate Accounted(w: World, s: Step, w': World, i: nat, h: Handle) {
    && (Waits(w', i, h) <==> (Waits(w, i, h) || Receives(w, s, w', i, h)) && !TakesUp(w, s, w', i, h))
    && (TakesUp(w, s, w', i, h) ==> Waits(w, i, h) || Receives(w, s, w', i, h))
    && (i < |w'.consumers| ==> RestOk(w'.l, w'.consumers[i].rest))
  }

  lemma SameBatch(w: World, s: Step, w': World, i: nat, h: Handle)
    requires |w'.consumers| == |w.consumers| && BatchesOk(w) && w.l.h.delivered <= w'.l.h.delivered
    requires i < |w.consumers| ==> w'.consumers[i].rest == w.consumers[i].rest
    requires i < |w.consumers| ==> w'.consumers[i] == w.consumers[i] || !w.consumers[i].Idle?
    requires !Receives(w, s, w', i, h)
    requires s.Next? ==> i != s.i
    ensures Accounted(w, s, w', i, h)
  {
  }

  lemma BatchReceived(w: World, s: Step, w': World, ms: seq<Message>, h: Handle)
    requires s.Poll? && Enabled(w, s) && ms != [] && Numbered(ms, |w.l.h.delivered|)
    requires |w'.l.h.delivered| == |w.l.h.delivered| + |ms|
    requires w'.consumers == w.consumers[s.i := Upserting(ms[0], ms[1..], false)]
    ensures Accounted(w, s, w', s.i, h)
  {
    var rest := w'.consumers[s.i].rest;
    var k := h - |w.l.h.delivered| - 1;
    if 0 <= k < |rest| {
      assert rest[k].handle == h;
    }
  }

  lemma HeadTakenUp(w: World, s: Step, w': World, h: Handle)
    requires s.Next? && Enabled(w, s) && Moves(w, s, w') && BatchesOk(w)
    requires w'.l.h.delivered == w.l.h.delivered
    ensures Accounted(w, s, w', s.i, h)
  {
    var rest := w.consumers[s.i].rest;
    assert w'.consumers[s.i].rest == rest[1..];
    assert RestOk(w.l, rest);
    if Waits(w, s.i, h) {
      var k :| 0 <= k < |rest| && rest[k].handle == h;
      assert k > 0 ==> rest[1..][k - 1].handle == h;
    }
  }

  lemma MovedWaits(w: World, s: Step, w': World, i: nat, h: Handle)
    requires Enabled(w, s) && Moves(w, s, w') && w.l.h.delivered <= w'.l.h.delivered
    requires !s.Poll? ==> w'.l.h.delivered == w.l.h.delivered
    requires BatchesOk(w)
    ensures Accounted(w, s, w', i, h)
  {
    hide Accounted, BatchesOk, Numbered;
    if s.Next? && s.i == i {
      HeadTakenUp(w, s, w', h);
    } else if s.Poll? && s.i == i && |w'.l.h.delivered| > |w.l.h.delivered| {
      var ms :| ms != [] && Numbered(ms, |w.l.h.delivered|) &&
        |w'.l.h.delivered| == |w.l.h.delivered| + |ms| &&
        w'.consumers == w.consumers[i := Upserting(ms[0], ms[1..], false)];
      BatchReceived(w, s, w', ms, h);
    } else {
      SameBatch(w, s, w', i, h);
    }
  }

  lemma StepWaits(p: Params, w: World, s: Step, i: nat, h: Handle)
    requires Good(p.queue, w.l) && Enabled(w, s) && BatchesOk(w)
    ensures Accounted(w, s, Do(p, w, s), i, h)
  {
    hide Good, Do, Accounted, Moves, BatchesOk;
    StepMoves(p, w, s);
    MovedWaits(w, s, Do(p, w, s), i, h);
  }

  lemma BatchesKept(p: Params, w: World, s: Step)
    requires Good(p.queue, w.l) && Enabled(w, s) && BatchesOk(w)
    ensures BatchesOk(Do(p, w, s))
  {
    hide Good, Do, Enabled, RestOk, Waits, TakesUp;
    var w' := Do(p, w, s);
    forall i | 0 <= i < |w'.consumers| ensures RestOk(w'.l, w'.consumers[i].rest) {
      StepWaits(p, w, s, i, 0);
    }
    forall i, j, h | Waits(w', i, h) && Waits(w', j, h) ensures i == j {
      StepWaits(p, w, s, i, h);
      StepWaits(p, w, s, j, h);
      WaitingIsOld(w, i, h);
      WaitingIsOld(w, j, h);
    }
  }

  lemma WaitingIsOld(w: World, i: nat, h: Handle)
    requires BatchesOk(w)
    ensures Waits(w, i, h) ==> h < |w.l.h.delivered|
  {
  }

  lemma StartBatches(p: Params)
    ensures BatchesOk(Start(p)) && Start(p).l.h.delivered == []
  {
  }

  // ---- whole runs ---------------------------------------------------------

  ghost predicate WaitsSomewhere(w: World, h: Handle) {
    exists i :: Waits(w, i, h)
  }

  /** Step `k` of the run is the one in which consumer `i` takes up delivery `h`. */
  ghost predicate TakenAt(ws: seq<World>, steps: seq<Step>, k: nat, i: nat, h: Handle)
    requires k < |steps| < |ws|
  {
    TakesUp(ws[k], steps[k], ws[k + 1], i, h)
  }

  /** Somebody took up delivery `h` before moment `n`. */
  ghost predicate TakenUp(ws: seq<World>, steps: seq<Step>, n: nat, h: Handle)
    requires n <= |steps| < |ws|
  {
    exists k, i :: 0 <= k < n && TakenAt(ws, steps, k, i, h)
  }

  lemma NobodyYet(ws: seq<World>, steps: seq<Step>, h: Handle)
    requires |steps| < |ws|
    ensures !TakenUp(ws, steps, 0, h)
  {
  }

  lemma TakenUpUnfolds(ws: seq<World>, steps: seq<Step>, n: nat, h: Handle)
    requires n < |steps| < |ws|
    ensures TakenUp(ws, steps, n + 1, h) <==>
            TakenUp(ws, steps, n, h) || TakesUpNow(ws[n], steps[n], ws[n + 1], h)
  {
    hide TakesUp;
    if TakesUpNow(ws[n], steps[n], ws[n + 1], h) {
      var i :| TakesUp(ws[n], steps[n], ws[n + 1], i, h);
      assert TakenAt(ws, steps, n, i, h);
    }
  }

  ghost predicate TakesUpNow(w: World, s: Step, w': World, h: Handle) {
    exists i :: TakesUp(w, s, w', i, h)
  }

  /** What waits after the step waited or has been received, and has not been taken up. */
  lemma StepWaitsSomewhere(p: Params, w: World, s: Step, h: Handle)
    requires Good(p.queue, w.l) && Enabled(w, s) && BatchesOk(w)
    ensures var w' := Do(p, w, s);
            var now := TakesUpNow(w, s, w', h);
            && |w.l.h.delivered| <= |w'.l.h.delivered|
            && (WaitsSomewhere(w', h) <==>
                  (WaitsSomewhere(w, h) || |w.l.h.delivered| <= h < |w'.l.h.delivered|) && !now)
            && (now ==> h < |w'.l.h.delivered|)
            && (now && h < |w.l.h.delivered| ==> WaitsSomewhere(w, h))
  {
    hide Good, Do, Waits, TakesUp, BatchesOk, RestOk;
    var w' := Do(p, w, s);
    StepMoves(p, w, s);
    forall i: nat ensures Accounted(w, s, w', i, h) && (Waits(w, i, h) ==> h < |w.l.h.delivered|) {
      StepWaits(p, w, s, i, h);
      WaitingIsOld(w, i, h);
    }
    forall i, j | (Waits(w, i, h) || Receives(w, s, w', i, h)) && (Waits(w, j, h) || Receives(w, s, w', j, h))
      ensures i == j
    {
      OneOwner(w, i, j, h);
    }
    if |w.l.h.delivered| <= h < |w'.l.h.delivered| {
      assert Receives(w, s, w', s.i, h) && Accounted(w, s, w', s.i, h);
    } else if i :| Waits(w, i, h) {
      assert Accounted(w, s, w', i, h);
    }
    if i :| TakesUp(w, s, w', i, h) {
      assert Accounted(w, s, w', i, h);
    }
    if i :| Waits(w', i, h) {
      assert Accounted(w, s, w', i, h);
    }
  }

  lemma OneOwner(w: World, i: nat, j: nat, h: Handle)
    requires BatchesOk(w)
    ensures Waits(w, i, h) && Waits(w, j, h) ==> i == j
  {
  }

  lemma {:induction false} FateAlong(p: Params, w: World, steps: seq<Step>, n: nat, h: Handle)
    requires WorldOk(p, w) && Schedule(p, w, steps) && n <= |steps|
    requires BatchesOk(w) && w.l.h.delivered == []
    ensures var ws := Trace(p, w, steps);
            && BatchesOk(ws[n])
            && (h < |ws[n].l.h.delivered| ==> (WaitsSomewhere(ws[n], h) <==> !TakenUp(ws, steps, n, h)))
            && (h >= |ws[n].l.h.delivered| ==> !TakenUp(ws, steps, n, h))
  {
    hide WorldOk, Schedule, Trace, Enabled, Do, TakenUp, TakesUpNow, WaitsSomewhere, BatchesOk;
    var ws := Trace(p, w, steps);
    if n == 0 {
      NobodyYet(ws, steps, h);
    } else {
      FateAlong(p, w, steps, n - 1, h);
      TraceStep(p, w, steps, n - 1);
      QueueGood(p, ws[n - 1]);
      BatchesKept(p, ws[n - 1], steps[n - 1]);
      StepWaitsSomewhere(p, ws[n - 1], steps[n - 1], h);
      TakenUpUnfolds(ws, steps, n - 1, h);
    }
  }

  lemma QueueGood(p: Params, w: World)
    requires WorldOk(p, w)
    ensures Good(p.queue, w.l)
  {
    hide Good, ConsumersKnow, StoresOk, CircuitOk;
  }

  /**
    No delivery is dropped unattempted. At every moment of every run each
    delivery ever made either waits in a batch or has been taken up: a store call
    was started for it, or its heartbeat was refused.
   */
  lemma NothingIsDropped(p: Params, steps: seq<Step>, n: nat, h: Handle)
    requires IsRun(p, steps) && n <= |steps| && h < |Worlds(p, steps)[n].l.h.delivered|
    ensures var ws := Worlds(p, steps);
            && (WaitsSomewhere(ws[n], h) <==> !TakenUp(ws, steps, n, h))
            && forall i, j :: Waits(ws[n], i, h) && Waits(ws[n], j, h) ==> i == j
  {
    hide WorldOk, Schedule, Trace, TakenUp, WaitsSomewhere, Waits, RestOk;
    StartOk(p);
    StartBatches(p);
    FateAlong(p, Start(p), steps, n, h);
  }

  /** And it is taken up once, by one consumer. */
  lemma TakenUpOnce(p: Params, steps: seq<Step>, k: nat, i: nat, k': nat, i': nat, h: Handle)
    requires IsRun(p, steps) && k <= k' < |steps|
    requires TakenAt(Worlds(p, steps), steps, k, i, h) && TakenAt(Worlds(p, steps), steps, k', i', h)
    ensures k == k' && i == i'
  {
    hide WorldOk, Schedule, Trace, Do, Enabled, BatchesOk, WaitsSomewhere, TakesUp, Waits;
    StartOk(p);
    StartBatches(p);
    var ws := Worlds(p, steps);
    TraceStep(p, Start(p), steps, k');
    QueueGood(p, ws[k']);
    FateAlong(p, Start(p), steps, k', h);
    StepWaits(p, ws[k'], steps[k'], i', h);
    if k < k' {
      assert TakenUp(ws, steps, k', h);
      SomewhereIfHere(ws[k'], i', h);
    } else {
      StepWaits(p, ws[k], steps[k], i, h);
      WaitingIsOld(ws[k], i, h);
      WaitingIsOld(ws[k], i', h);
      OneOwner(ws[k], i, i', h);
    }
  }

  lemma SomewhereIfHere(w: World, i: nat, h: Handle)
    ensures Waits(w, i, h) ==> WaitsSomewhere(w, h)
  {
  }

  // ---- in order -----------------------------------------------------------

  /** While an earlier delivery waits in the same batch, a later one is not taken up. */
  lemma EarlierGoesFirst(p: Params, w: World, s: Step, i: nat, i': nat, h: Handle, h': Handle)
    requires Good(p.queue, w.l) && Enabled(w, s) && BatchesOk(w)
    requires Waits(w, i, h) && Waits(w, i, h') && h < h'
    ensures !TakesUp(w, s, Do(p, w, s), i', h')
  {
    hide Good, Do;
    var w' := Do(p, w, s);
    StepMoves(p, w, s);
    StepWaits(p, w, s, i', h');
    WaitingIsOld(w, i, h');
    OneOwner(w, i, i', h');
    if i' == i {
      HeadIsLeast(w, s, w', i, h, h');
    }
  }

  lemma HeadIsLeast(w: World, s: Step, w': World, i: nat, h: Handle, h': Handle)
    requires Enabled(w, s) && Moves(w, s, w') && BatchesOk(w)
    requires Waits(w, i, h) && Waits(w, i, h') && h < h'
    ensures !TakesUp(w, s, w', i, h')
  {
    hide Numbered;
    assert RestOk(w.l, w.consumers[i].rest);
  }

  lemma {:induction false} BothWait(p: Params, steps: seq<Step>, j: nat, k: nat, i: nat, h: Handle, h': Handle)
    requires IsRun(p, steps) && j <= k <= |steps| && h < h'
    requires Waits(Worlds(p, steps)[j], i, h) && Waits(Worlds(p, steps)[j], i, h')
    requires forall m :: j <= m < k ==> !TakenAt(Worlds(p, steps), steps, m, i, h)
    ensures Waits(Worlds(p, steps)[k], i, h) && Waits(Worlds(p, steps)[k], i, h')
    decreases k
  {
    hide WorldOk, Schedule, Trace, Do, Enabled, BatchesOk, WaitsSomewhere, TakesUp, Waits, TakenUp;
    if j < k {
      BothWait(p, steps, j, k - 1, i, h, h');
      StartOk(p);
      StartBatches(p);
      var ws := Worlds(p, steps);
      TraceStep(p, Start(p), steps, k - 1);
      QueueGood(p, ws[k - 1]);
      FateAlong(p, Start(p), steps, k - 1, h);
      StepWaits(p, ws[k - 1], steps[k - 1], i, h);
      StepWaits(p, ws[k - 1], steps[k - 1], i, h');
      EarlierGoesFirst(p, ws[k - 1], steps[k - 1], i, i, h, h');
      assert !TakenAt(ws, steps, k - 1, i, h);
    }
  }

  /**
    A consumer takes up its messages in the order received: of two that wait in
    its batch at some moment, the later one is not taken up, by anyone, before
    the consumer has taken up the earlier.
   */
  lemma TakenUpInOrder(p: Params, steps: seq<Step>, j: nat, k: nat, i: nat, i': nat, h: Handle, h': Handle)
    requires IsRun(p, steps) && j <= k < |steps| && h < h'
    requires Waits(Worlds(p, steps)[j], i, h) && Waits(Worlds(p, steps)[j], i, h')
    requires TakenAt(Worlds(p, steps), steps, k, i', h')
    ensures exists m :: j <= m < k && TakenAt(Worlds(p, steps), steps, m, i, h)
  {
    hide WorldOk, Schedule, Trace, Do, Enabled, BatchesOk, WaitsSomewhere, TakesUp, Waits, TakenUp;
    var ws := Worlds(p, steps);
    if forall m :: j <= m < k ==> !TakenAt(ws, steps, m, i, h) {
      BothWait(p, steps, j, k, i, h, h');
      StartOk(p);
      StartBatches(p);
      TraceStep(p, Start(p), steps, k);
      QueueGood(p, ws[k]);
      FateAlong(p, Start(p), steps, k, h);
      EarlierGoesFirst(p, ws[k], steps[k], i, i', h, h');
    }
  }

  // ---- the counters -------------------------------------------------------

  /** How many store calls raised. */
  function CallsRaised(steps: seq<Step>): nat {
    if steps == [] then 0
    else CallsRaised(steps[..|steps| - 1]) + if Raised(steps[|steps| - 1]) then 1 else 0
  }

  lemma StepCounts(p: Params, w: World, s: Step)
    requires Good(p.queue, w.l) && Enabled(w, s)
    ensures Do(p, w, s).failed == w.failed + if Raised(s) then 1 else 0
  {
    hide Good, Receive, Collect, Hold, RecordFailure;
  }

  /** `failed` counts attempts, not events: one for each store call that raised. */
  lemma {:induction false} FailedCountsAttempts(p: Params, steps: seq<Step>, n: nat)
    requires IsRun(p, steps) && n <= |steps|
    ensures Worlds(p, steps)[n].failed == CallsRaised(steps[..n])
  {
    hide WorldOk, Schedule, Trace, Do, Enabled;
    if n > 0 {
      FailedCountsAttempts(p, steps, n - 1);
      StartOk(p);
      TraceStep(p, Start(p), steps, n - 1);
      QueueGood(p, Worlds(p, steps)[n - 1]);
      StepCounts(p, Worlds(p, steps)[n - 1], steps[n - 1]);
      assert steps[..n][..n - 1] == steps[..n - 1];
    }
  }
}
