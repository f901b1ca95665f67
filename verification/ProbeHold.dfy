/**
  How long single flight lasts, told at the moment of the grant: until the
  prober's own store call returns, exactly if nobody else has live work in hand.
 */
module ProbeHold {
  import opened Models
  import opened QueueSpec
  import opened Ledger
  import opened CircuitSpec
  import opened Pipeline
  import opened PipelineCircuit
  import opened PipelineRuns

  /** The consumer is in a store call, or has a message in its batch whose loan still stands. */
  ghost predicate HasLiveWork(w: World, j: nat)
    requires j < |w.consumers|
  {
    || !w.consumers[j].Idle?
    || exists k :: 0 <= k < |w.consumers[j].rest| && w.consumers[j].rest[k].handle in w.l.q.inflight
  }

  /** Consumer `i` is probing and nobody else can record anything. */
  ghost predicate ProbesAlone(w: World, i: nat) {
    && w.circuit.probing && w.holder == i < |w.consumers| && !w.consumers[i].Idle?
    && forall j {:trigger HasLiveWork(w, j)} :: 0 <= j < |w.consumers| && j != i ==> !HasLiveWork(w, j)
  }

  /** Nobody's grip on a loan was gained from `w` to `w'`, but for consumer `i`. */
  lemma SameWork(w: World, w': World, i: nat)
    requires |w'.consumers| == |w.consumers|
    requires forall h :: h in w'.l.q.inflight ==> h in w.l.q.inflight
    requires forall j :: 0 <= j < |w.consumers| && j != i ==>
               || w'.consumers[j] == w.consumers[j]
               || (w.consumers[j].Idle? && w.consumers[j].rest != [] &&
                   w'.consumers[j] == Idle(w.consumers[j].rest[1..]))
    requires forall j {:trigger HasLiveWork(w, j)} :: 0 <= j < |w.consumers| && j != i ==> !HasLiveWork(w, j)
    ensures forall j {:trigger HasLiveWork(w', j)} :: 0 <= j < |w.consumers| && j != i ==> !HasLiveWork(w', j)
  {
    forall j | 0 <= j < |w.consumers| && j != i ensures !HasLiveWork(w', j) {
      assert !HasLiveWork(w, j);
      if w'.consumers[j] != w.consumers[j] {
        assert forall k :: 0 <= k < |w'.consumers[j].rest| ==>
                 w'.consumers[j].rest[k] == w.consumers[j].rest[k + 1];
      }
    }
  }

  lemma StillAlone(p: Params, w: World, i: nat, s: Step)
    requires WorldOk(p, w) && Enabled(w, s) && ProbesAlone(w, i) && !IsReturn(s, i)
    ensures ProbesAlone(Do(p, w, s), i)
  {
    hide Good, ConsumersKnow, StoresOk, OutagePaced, Receive, Collect, Hold, Accept, FailStep, FinishStep;
    var w' := Do(p, w, s);
    assert s.UpsertReturns? || s.IndexReturns? ==> HasLiveWork(w, s.i);
    match s
    case Ingest(e) =>
      SendKeepsLoans(p.queue, w.l, e);
      hide HasLiveWork;
      SameWork(w, w', i);
    case Poll(j, t1, t2, t3, t4) =>
      assert w' == w.(l := At(p.queue, w.l, t1));
      hide HasLiveWork;
      SameWork(w, w', i);
    case Next(j, t) =>
      assert !HasLiveWork(w, j);
      assert w.consumers[j].rest[0].handle !in w.l.q.inflight;
      hide HasLiveWork;
      SameWork(w, w', i);
    case Lands(j) =>
      assert j != i ==> !HasLiveWork(w, j);
      hide HasLiveWork;
      SameWork(w, w', i);
    case UpsertReturns(j, ok, t1, t2, t3) =>
    case IndexReturns(j, ok, t1, t2, t3) =>
  }

  lemma SendKeepsLoans(cfg: Config, l: Ledger, e: Event)
    requires Good(cfg, l)
    ensures Accept(cfg, l, e).q.inflight == l.q.inflight
  {
    hide Valid, Conserved, Fifo, Told;
  }

  /** None of the steps is a store call of consumer `i` returning. */
  predicate NoReturnOf(steps: seq<Step>, i: nat) {
    forall k :: 0 <= k < |steps| ==> !IsReturn(steps[k], i)
  }

  /**
    If at some moment the prober alone has work in hand, it keeps the probe, and
    everyone who asks gets nothing, until a store call of its own returns.
   */
  lemma {:induction false} AloneKeepsTheProbe(p: Params, w: World, i: nat, steps: seq<Step>, batch: int, t: real)
    requires WorldOk(p, w) && Schedule(p, w, steps) && ProbesAlone(w, i) && NoReturnOf(steps, i)
    ensures var w' := Trace(p, w, steps)[|steps|];
            ProbesAlone(w', i) && Allowance(w'.circuit, batch, t).1 == 0
    decreases |steps|
  {
    hide Good, ConsumersKnow, StoresOk, CircuitOk, Enabled, Do, HasLiveWork, IsReturn;
    if steps == [] {
      ProbingAllowsNothing(p, w, batch, t);
    } else {
      StepOk(p, w, steps[0]);
      StillAlone(p, w, i, steps[0]);
      AloneKeepsTheProbe(p, Do(p, w, steps[0]), i, steps[1..], batch, t);
    }
  }

  lemma ProbingAllowsNothing(p: Params, w: World, batch: int, t: real)
    requires WorldOk(p, w) && w.circuit.probing
    ensures Allowance(w.circuit, batch, t).1 == 0
  {
    hide Good, ConsumersKnow, StoresOk;
  }

  // ---- and if somebody else has work --------------------------------------

  /** The store call consumer `j` is in raises. */
  function Raises(w: World, j: nat): Step
    requires j < |w.consumers| && !w.consumers[j].Idle?
  {
    var t := w.l.clock;
    if w.consumers[j].Upserting? then UpsertReturns(j, false, t, t, t) else IndexReturns(j, false, t, t, t)
  }

  lemma RaisingReleases(p: Params, w: World, j: nat)
    requires WorldOk(p, w) && j < |w.consumers| && !w.consumers[j].Idle?
    ensures Enabled(w, Raises(w, j)) && !Do(p, w, Raises(w, j)).circuit.probing
  {
    hide Good, ConsumersKnow, StoresOk, CircuitOk, FailStep;
    FailKeepsCircuit(p, w, j, w.l.clock, w.l.clock, w.l.clock);
  }

  /** Taking up the next message of a batch: a store call for it, or, if its loan is gone, the one after it. */
  lemma TakesUp(p: Params, w: World, j: nat)
    requires WorldOk(p, w) && j < |w.consumers| && w.consumers[j].Idle? && w.consumers[j].rest != []
    ensures Enabled(w, Next(j, w.l.clock))
    ensures var w', rest := Do(p, w, Next(j, w.l.clock)), w.consumers[j].rest;
            && |w'.consumers| == |w.consumers|
            && if rest[0].handle in w.l.q.inflight then !w'.consumers[j].Idle?
               else w'.consumers[j] == Idle(rest[1..]) && w'.l.q == w.l.q
  {
    hide Good, ConsumersKnow, StoresOk, CircuitOk, Hold;
  }

  lemma {:induction false} WorkReleases(p: Params, w: World, i: nat, j: nat) returns (steps: seq<Step>)
    requires WorldOk(p, w) && j < |w.consumers| && j != i && HasLiveWork(w, j)
    ensures Schedule(p, w, steps) && NoReturnOf(steps, i)
    ensures !Trace(p, w, steps)[|steps|].circuit.probing
    decreases if w.consumers[j].Idle? then 1 + |w.consumers[j].rest| else 0
  {
    hide Good, ConsumersKnow, StoresOk, CircuitOk, Do;
    if !w.consumers[j].Idle? {
      var s := Raises(w, j);
      RaisingReleases(p, w, j);
      StepOk(p, w, s);
      steps := [s];
      assert steps[1..] == [];
    } else {
      var s := Next(j, w.l.clock);
      TakesUp(p, w, j);
      StepOk(p, w, s);
      var w' := Do(p, w, s);
      assert HasLiveWork(w', j) by {
        if w.consumers[j].rest[0].handle !in w.l.q.inflight {
          var k :| 0 <= k < |w.consumers[j].rest| && w.consumers[j].rest[k].handle in w.l.q.inflight;
          assert w'.consumers[j].rest[k - 1] == w.consumers[j].rest[k];
        }
      }
      hide HasLiveWork, Enabled;
      var rest := WorkReleases(p, w', i, j);
      steps := [s] + rest;
      assert steps[1..] == rest;
    }
  }

  ghost predicate ReleasedUnanswered(p: Params, w: World, i: nat, steps: seq<Step>)
    requires WorldOk(p, w)
  {
    Schedule(p, w, steps) && NoReturnOf(steps, i) && !Trace(p, w, steps)[|steps|].circuit.probing
  }

  /**
    The exact condition for single flight, at any moment with a probe out: no
    schedule frees the probe before a store call of its holder returns if and
    only if no other consumer has live work in hand.
   */
  lemma SingleFlightIff(p: Params, w: World, i: nat)
    requires WorldOk(p, w) && w.circuit.probing && w.holder == i
    ensures i < |w.consumers|
    ensures (forall steps: seq<Step> :: !ReleasedUnanswered(p, w, i, steps))
       <==> forall j {:trigger HasLiveWork(w, j)} :: 0 <= j < |w.consumers| && j != i ==> !HasLiveWork(w, j)
  {
    assert ProbeHeld(w);
    hide Good, ConsumersKnow, StoresOk, CircuitOk, HasLiveWork, Schedule, Trace;
    if forall j {:trigger HasLiveWork(w, j)} :: 0 <= j < |w.consumers| && j != i ==> !HasLiveWork(w, j) {
      forall steps: seq<Step> ensures !ReleasedUnanswered(p, w, i, steps) {
        if Schedule(p, w, steps) && NoReturnOf(steps, i) {
          AloneKeepsTheProbe(p, w, i, steps, 0, 0.0);
        }
      }
    } else {
      var j :| 0 <= j < |w.consumers| && j != i && HasLiveWork(w, j);
      var steps := WorkReleases(p, w, i, j);
      assert ReleasedUnanswered(p, w, i, steps);
    }
  }
}
