/** The circuit inside the pipeline: who holds the probe, and what an outage costs. */
module PipelineCircuit {
  import opened Arithmetic
  import opened QueueSpec
  import opened Ledger
  import opened CircuitSpec
  import opened Pipeline
  import Lifecycle

  ghost predicate Sensible(p: Params) {
    p.queue.maxReceives >= 1 && p.circuit.threshold >= 1 && p.circuit.pause >= 0.0 && p.circuit.maxPause >= 0.0
  }

  /** Whoever was granted the probe is inside a store call for it. */
  ghost predicate ProbeHeld(w: World) {
    w.circuit.probing ==> w.holder < |w.consumers| && !w.consumers[w.holder].Idle?
  }

  /** The first `n` pauses of an outage, end to end. */
  function PauseSum(s: Settings, n: nat): real {
    if n == 0 then 0.0 else PauseSum(s, n - 1) + Pause(s, n)
  }

  lemma PauseNonNegative(s: Settings, n: nat)
    requires n >= 1 && s.pause >= 0.0 && s.maxPause >= 0.0
    ensures Pause(s, n) >= 0.0
  {
    ProductSign(s.pause, Pow2(n - 1) as real);
  }

  lemma {:induction false} PauseSumMonotone(s: Settings, m: nat, n: nat)
    requires m <= n && s.pause >= 0.0 && s.maxPause >= 0.0
    ensures PauseSum(s, m) <= PauseSum(s, n)
    decreases n
  {
    if m < n {
      PauseNonNegative(s, n);
      PauseSumMonotone(s, m, n - 1);
    }
  }

  /** The messages taken from the queue since the circuit opened. */
  function Pulls(w: World): int {
    |w.l.h.delivered| - w.mark
  }

  /**
    While the circuit is open: the pauses so far have been served one after
    the other since it opened, and each message taken used one of them up.
   */
  ghost predicate OutagePaced(s: Settings, w: World) {
    w.circuit.openUntil.Some? ==>
      && w.openedAt + PauseSum(s, w.circuit.pauses) <= w.circuit.openUntil.value
      && 0 <= Pulls(w) <= w.circuit.pauses
      && (!w.circuit.probing ==> Pulls(w) < w.circuit.pauses)
      && w.openedAt + PauseSum(s, Pulls(w)) <= w.l.clock
  }

  ghost predicate CircuitOk(p: Params, w: World) {
    && Coherent(p.circuit, w.circuit, w.l.clock)
    && ProbeHeld(w)
    && OutagePaced(p.circuit, w)
  }

  lemma PollKeepsCircuit(p: Params, w: World, i: nat, t1: real, t2: real, t3: real, t4: real)
    requires Sensible(p) && Good(p.queue, w.l) && CircuitOk(p, w)
    requires i < |w.consumers| && w.consumers[i] == Idle([]) && w.l.clock <= t1 <= t2 <= t3 <= t4
    ensures CircuitOk(p, PollStep(p, w, i, t1, t2, t3, t4))
  {
    hide Good, Receive, Known, PauseSum, Pause, Hold, At, Collect;
    var w' := PollStep(p, w, i, t1, t2, t3, t4);
    var (c, n) := Allowance(w.circuit, p.batch, t1);
    FirstHeartbeatSucceeds(p, w, i, t1, t2, t3, t4);
    ReceivedAreKnown(p.queue, At(p.queue, w.l, t1), n, t2, t3);
    if w'.circuit.openUntil.Some? && Pulls(w') > Pulls(w) {
      PauseSumMonotone(p.circuit, Pulls(w'), w.circuit.pauses);
    }
  }

  lemma FailKeepsCircuit(p: Params, w: World, i: nat, t1: real, t2: real, t3: real)
    requires Sensible(p) && Good(p.queue, w.l) && CircuitOk(p, w)
    requires i < |w.consumers| && !w.consumers[i].Idle? && w.l.clock <= t1 <= t2 <= t3
    ensures CircuitOk(p, FailStep(p, w, i, t1, t2, t3))
    ensures !FailStep(p, w, i, t1, t2, t3).circuit.probing
  {
    hide Conserved, Fifo, Told, Valid, Known, Pause;
    var id := w.consumers[i].msg.event.event_id;
    FailureKeepsCoherent(p.circuit, w.circuit, id, w.l.clock, t1, t2);
    assert PauseSum(p.circuit, 1) == PauseSum(p.circuit, 0) + Pause(p.circuit, 1);
  }

  lemma CircuitOkKept(p: Params, w: World, s: Step)
    requires Sensible(p) && Good(p.queue, w.l) && Enabled(w, s) && CircuitOk(p, w)
    ensures CircuitOk(p, Do(p, w, s))
  {
    hide Good, Known, PauseSum, Pause, PollStep, FailStep;
    match s
    case Poll(i, t1, t2, t3, t4) => PollKeepsCircuit(p, w, i, t1, t2, t3, t4);
    case UpsertReturns(i, ok, t1, t2, t3) =>
      if !ok {
        FailKeepsCircuit(p, w, i, t1, t2, t3);
      }
    case IndexReturns(i, ok, t1, t2, t3) =>
      if !ok {
        FailKeepsCircuit(p, w, i, t1, t2, t3);
      }
    case _ =>
  }

  // ---- pauses against backoffs --------------------------------------------

  lemma FirstPauseIsLeast(s: Settings, n: nat)
    requires n >= 1 && s.pause >= 0.0
    ensures Pause(s, 1) == Min(s.pause, s.maxPause) <= Pause(s, n)
  {
    DoublingGrows(s.pause, 0, n - 1);
    DoubledNever(s.pause);
    hide Doubled;
  }

  lemma LastBackoffIsMost(cfg: Config, m: nat)
    requires cfg.visibility >= 0.0 && 1 <= m <= cfg.maxReceives
    ensures Backoff(cfg, m) <= Backoff(cfg, cfg.maxReceives)
  {
    hide Doubled;
    DoublingGrows(cfg.visibility, m - 1, cfg.maxReceives - 1);
  }

  /**
    No pause is shorter than a backoff that the queue already imposes, on
    whatever delivery of whatever message, exactly when the first pause covers
    the backoff of the last delivery. Nothing ties the number of a pause to that
    of a delivery: one counts the pauses of an outage, the other the deliveries
    of a message.
   */
  lemma PauseCoversBackoffIff(p: Params)
    requires p.queue.visibility >= 0.0 && p.circuit.pause >= 0.0 && p.queue.maxReceives >= 1
    ensures (forall n: nat, m: nat :: n >= 1 && 1 <= m <= p.queue.maxReceives ==>
               Pause(p.circuit, n) >= Backoff(p.queue, m))
       <==> Min(p.circuit.pause, p.circuit.maxPause) >= Backoff(p.queue, p.queue.maxReceives)
  {
    hide Pause, Backoff;
    FirstPauseIsLeast(p.circuit, 1);
    if Min(p.circuit.pause, p.circuit.maxPause) >= Backoff(p.queue, p.queue.maxReceives) {
      forall n: nat, m: nat | n >= 1 && 1 <= m <= p.queue.maxReceives
        ensures Pause(p.circuit, n) >= Backoff(p.queue, m)
      {
        FirstPauseIsLeast(p.circuit, n);
        LastBackoffIsMost(p.queue, m);
      }
    } else {
      assert Pause(p.circuit, 1) < Backoff(p.queue, p.queue.maxReceives);
    }
  }

  /**
    A first pause as long as the first backoff is not enough: a circuit that
    opens on messages in their second delivery pauses for half of what the queue
    imposes on them.
   */
  lemma SecondDeliveryOutlastsPause()
    ensures Pause(Settings(3, 30.0, 900.0), 1) == 30.0 < 60.0 == Backoff(Config(30.0, 5, 10_000), 2)
  {
    assert Pow2(0) == 1 && Pow2(1) == 2;
  }

  /** At the defaults the first pause is over before the message that caused it comes back. */
  lemma DefaultPauseFallsShort()
    ensures Pause(DEFAULTS.circuit, 1) == 5.0 < 30.0 == Backoff(DEFAULTS.queue, 1)
  {
    assert Pow2(0) == 1;
  }

  /**
    As the worker builds the circuit, its longest pause being the visibility
    timeout, it is the other way round: no pause outlasts any backoff.
   */
  lemma PauseWithinBackoff(p: Params, m: nat, n: nat)
    requires m >= 1 && n >= 1
    requires p.circuit.maxPause <= p.queue.visibility <= BACKOFF_CAP_SECONDS && p.queue.visibility >= 0.0
    ensures Pause(p.circuit, m) <= Backoff(p.queue, n)
  {
    Lifecycle.BackoffFloor(p.queue);
  }
}
