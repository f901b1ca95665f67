/**
  The circuit of a run, told from the steps of the run: which calls it gets,
  whose failures it counts, when it is open, and what an outage costs.
 */
module CircuitRuns {
  import opened Sequences
  import opened QueueSpec
  import opened Ledger
  import opened CircuitSpec
  import opened Pipeline
  import opened PipelineCircuit
  import opened PipelineRuns

  // ---- the pipeline's circuit is a circuit --------------------------------

  /** The calls of the circuit that a step makes, with their clock readings. */
  function CallsOf(p: Params, w: World, s: Step): seq<Call>
    requires Good(p.queue, w.l) && Enabled(w, s)
  {
    match s
    case Poll(_, t1, t2, t3, _) =>
      var n := Allowance(w.circuit, p.batch, t1).1;
      if n != 0 && Receive(p.queue, w.l.q, n, None, t2, t3).1 == [] then [Allow(p.batch, t1), Abandon]
      else [Allow(p.batch, t1)]
    case UpsertReturns(i, ok, t1, t2, _) =>
      if ok then [] else [Failure(w.consumers[i].msg.event.event_id, t1, t2)]
    case IndexReturns(i, ok, t1, t2, _) =>
      if ok then [Success] else [Failure(w.consumers[i].msg.event.event_id, t1, t2)]
    case _ => []
  }

  /** `ks` are calls that leave the circuit as it is in `w`, made by now. */
  ghost predicate Explains(p: Params, ks: seq<Call>, w: World) {
    CallsInTime(ks) && LastTime(ks) <= w.l.clock && Run(p.circuit, ks) == w.circuit
  }

  lemma OneMoreCall(s: Settings, ks: seq<Call>, k: Call)
    requires CallsInTime(ks) && CallInTime(LastTime(ks), k)
    ensures CallsInTime(ks + [k]) && LastTime(ks + [k]) == Time(LastTime(ks), k)
    ensures Run(s, ks + [k]) == CircuitSpec.Step(s, Run(s, ks), k)
  {
    var ks' := ks + [k];
    assert ks'[..|ks|] == ks;
    forall i | 0 <= i < |ks'| ensures CallInTime(LastTime(ks'[..i]), ks'[i]) {
      assert ks'[..i] == ks[..i];
    }
  }

  /** A step acts on the circuit as the calls it makes. */
  lemma StepIsCalls(p: Params, w: World, s: Step, ks: seq<Call>)
    requires Good(p.queue, w.l) && Enabled(w, s) && Explains(p, ks, w)
    ensures Explains(p, ks + CallsOf(p, w, s), Do(p, w, s))
  {
    hide Good, Receive, Run, CallsInTime, LastTime, RecordFailure, Collect, Hold;
    var calls := CallsOf(p, w, s);
    if calls == [] {
      assert ks + calls == ks;
    } else {
      OneMoreCall(p.circuit, ks, calls[0]);
      assert calls[..1] == [calls[0]];
      if |calls| == 2 {
        OneMoreCall(p.circuit, ks + [calls[0]], Abandon);
        assert ks + calls == ks + [calls[0]] + [Abandon];
      } else {
        assert calls == [calls[0]];
      }
    }
  }

  /** The calls of the circuit along a schedule. */
  ghost function Calls(p: Params, w: World, steps: seq<Step>): seq<Call>
    requires WorldOk(p, w) && Schedule(p, w, steps)
    decreases |steps|
  {
    if steps == [] then []
    else
      StepOk(p, w, steps[0]);
      CallsOf(p, w, steps[0]) + Calls(p, Do(p, w, steps[0]), steps[1..])
  }

  ghost function CallsMade(p: Params, steps: seq<Step>): seq<Call>
    requires IsRun(p, steps)
  {
    hide WorldOk;
    StartOk(p);
    Calls(p, Start(p), steps)
  }

  lemma {:induction false} TraceIsCalls(p: Params, w: World, steps: seq<Step>, ks: seq<Call>)
    requires WorldOk(p, w) && Schedule(p, w, steps) && Explains(p, ks, w)
    ensures Explains(p, ks + Calls(p, w, steps), Trace(p, w, steps)[|steps|])
    decreases |steps|
  {
    hide Good, ConsumersKnow, StoresOk, CircuitOk, Enabled, Do, CallsOf, Explains;
    if steps == [] {
      assert ks + [] == ks;
    } else {
      StepOk(p, w, steps[0]);
      StepIsCalls(p, w, steps[0], ks);
      var calls, w' := CallsOf(p, w, steps[0]), Do(p, w, steps[0]);
      TraceIsCalls(p, w', steps[1..], ks + calls);
      assert ks + calls + Calls(p, w', steps[1..]) == ks + (calls + Calls(p, w', steps[1..]));
    }
  }

  /**
    Every run of the pipeline is, seen from its circuit, a history of calls in
    time order: all that CircuitSpec proves of histories holds here.
   */
  lemma PipelineRunsTheCircuit(p: Params, steps: seq<Step>)
    requires IsRun(p, steps)
    ensures CallsInTime(CallsMade(p, steps)) && Run(p.circuit, CallsMade(p, steps)) == End(p, steps).circuit
  {
    hide WorldOk, Schedule, Trace, Calls;
    StartOk(p);
    TraceIsCalls(p, Start(p), steps, []);
    var ks := CallsMade(p, steps);
    assert [] + ks == ks;
  }

  // ---- whose failures are counted -----------------------------------------

  /** The step is a store call that raised, for the event with this id. */
  predicate RaisedFor(w: World, s: Step, id: string) {
    && Raised(s)
    && s.i < |w.consumers| && !w.consumers[s.i].Idle? && w.consumers[s.i].msg.event.event_id == id
  }

  /** The step is a write of the index that went through, the second of the two. */
  predicate Succeeds(s: Step) {
    s.IndexReturns? && s.ok
  }

  /** A store call for the event raised before moment `n`, and nothing has succeeded since. */
  ghost predicate StillFailing(ws: seq<World>, steps: seq<Step>, n: nat, id: string)
    requires n <= |steps| < |ws|
  {
    exists k :: 0 <= k < n && RaisedFor(ws[k], steps[k], id) && forall j :: k < j < n ==> !Succeeds(steps[j])
  }

  lemma PollRecordsNothing(p: Params, w: World, i: nat, t1: real, t2: real, t3: real, t4: real)
    requires Good(p.queue, w.l) && i < |w.consumers| && w.l.clock <= t1 <= t2 <= t3 <= t4
    ensures PollStep(p, w, i, t1, t2, t3, t4).circuit.failures == w.circuit.failures
  {
    hide Good, Receive, Collect, Hold, At;
  }

  lemma FailureIsRecorded(p: Params, w: World, i: nat, t1: real, t2: real, t3: real)
    requires Good(p.queue, w.l) && i < |w.consumers| && !w.consumers[i].Idle? && w.l.clock <= t1 <= t2 <= t3
    ensures FailStep(p, w, i, t1, t2, t3).circuit.failures
         == w.circuit.failures + {w.consumers[i].msg.event.event_id}
  {
    hide Good, Hold, At;
  }

  lemma StepFailures(p: Params, w: World, s: Step, id: string)
    requires Good(p.queue, w.l) && Enabled(w, s)
    ensures id in Do(p, w, s).circuit.failures <==>
            RaisedFor(w, s, id) || (id in w.circuit.failures && !Succeeds(s))
  {
    hide Good, PollStep, FailStep, Accept, Acknowledge, Hold, At;
    match s
    case Poll(i, t1, t2, t3, t4) => PollRecordsNothing(p, w, i, t1, t2, t3, t4);
    case UpsertReturns(i, ok, t1, t2, t3) =>
      if !ok {
        FailureIsRecorded(p, w, i, t1, t2, t3);
      }
    case IndexReturns(i, ok, t1, t2, t3) =>
      if !ok {
        FailureIsRecorded(p, w, i, t1, t2, t3);
      }
    case _ =>
  }

  lemma StillFailingUnfolds(ws: seq<World>, steps: seq<Step>, n: nat, id: string)
    requires n < |steps| < |ws|
    ensures StillFailing(ws, steps, n + 1, id) <==>
            RaisedFor(ws[n], steps[n], id) || (StillFailing(ws, steps, n, id) && !Succeeds(steps[n]))
  {
    hide RaisedFor, Succeeds;
    if StillFailing(ws, steps, n, id) && !Succeeds(steps[n]) {
      var k :| 0 <= k < n && RaisedFor(ws[k], steps[k], id) && forall j :: k < j < n ==> !Succeeds(steps[j]);
      assert forall j :: k < j < n + 1 ==> !Succeeds(steps[j]);
    }
  }

  lemma {:induction false} FailuresAlong(p: Params, w: World, steps: seq<Step>, n: nat, id: string)
    requires WorldOk(p, w) && Schedule(p, w, steps) && n <= |steps| && w.circuit.failures == {}
    ensures id in Trace(p, w, steps)[n].circuit.failures <==> StillFailing(Trace(p, w, steps), steps, n, id)
  {
    hide WorldOk, Schedule, Trace, Enabled, Do, RaisedFor, Succeeds, StillFailing;
    var ws := Trace(p, w, steps);
    if n == 0 {
      NoneYet(ws, steps, id);
    } else {
      FailuresAlong(p, w, steps, n - 1, id);
      TraceStep(p, w, steps, n - 1);
      OkIsGood(p, ws[n - 1]);
      StepFailures(p, ws[n - 1], steps[n - 1], id);
      StillFailingUnfolds(ws, steps, n - 1, id);
    }
  }

  lemma NoneYet(ws: seq<World>, steps: seq<Step>, id: string)
    requires |steps| < |ws|
    ensures !StillFailing(ws, steps, 0, id)
  {
  }

  lemma OkIsGood(p: Params, w: World)
    requires WorldOk(p, w)
    ensures Good(p.queue, w.l) && Coherent(p.circuit, w.circuit, w.l.clock)
  {
    hide Good, ConsumersKnow, StoresOk;
  }

  /**
    At every moment of a run the circuit counts exactly the events whose store
    call raised since the last time both writes of some event went through; it
    is open exactly if there are at least `threshold` of them.
   */
  lemma CountsWhatRaised(p: Params, steps: seq<Step>, n: nat)
    requires IsRun(p, steps) && n <= |steps|
    ensures var c := Worlds(p, steps)[n].circuit;
            && (forall id :: id in c.failures <==> StillFailing(Worlds(p, steps), steps, n, id))
            && (c.openUntil.Some? <==> |c.failures| >= p.circuit.threshold)
  {
    hide WorldOk, Schedule, Trace, StillFailing;
    StartOk(p);
    TraceOk(p, Start(p), steps, n);
    OkIsGood(p, Worlds(p, steps)[n]);
    forall id ensures id in Worlds(p, steps)[n].circuit.failures <==> StillFailing(Worlds(p, steps), steps, n, id) {
      FailuresAlong(p, Start(p), steps, n, id);
    }
  }

  // ---- what an outage costs -----------------------------------------------

  ghost predicate IsOpen(w: World) {
    w.circuit.openUntil.Some?
  }

  /** `s` is the failure that opens the circuit. */
  ghost predicate Opens(p: Params, w: World, s: Step)
    requires WorldOk(p, w)
  {
    Enabled(w, s) && !IsOpen(w) && IsOpen(Do(p, w, s))
  }

  lemma OpeningIsMarked(p: Params, w: World, s: Step)
    requires WorldOk(p, w) && Opens(p, w, s)
    ensures s.UpsertReturns? || s.IndexReturns?
    ensures var w' := Do(p, w, s); w'.openedAt == s.t2 && w'.mark == |w.l.h.delivered|
  {
    hide Conserved, Fifo, Told, Valid, ConsumersKnow, StoresOk, CircuitOk, Receive;
  }

  lemma MarkStays(p: Params, w: World, s: Step)
    requires WorldOk(p, w) && Enabled(w, s) && IsOpen(w)
    ensures var w' := Do(p, w, s); w'.openedAt == w.openedAt && w'.mark == w.mark
  {
    hide Good, ConsumersKnow, StoresOk, CircuitOk, Receive, Collect, Hold, At, Accept, Acknowledge;
  }

  /** What opens it: a failure of one event more, while one is missing from `threshold`. */
  lemma OpensIff(p: Params, w: World, s: Step)
    requires WorldOk(p, w) && Enabled(w, s)
    ensures Opens(p, w, s) <==>
            && !IsOpen(w)
            && exists id :: RaisedFor(w, s, id) && |w.circuit.failures + {id}| >= p.circuit.threshold
  {
    hide Good, ConsumersKnow, StoresOk, ProbeHeld, OutagePaced, Receive, Collect, Hold;
    if s.UpsertReturns? || s.IndexReturns? {
      assert !s.ok ==> RaisedFor(w, s, w.consumers[s.i].msg.event.event_id);
    }
  }

  /** Nothing but a success closes it. */
  lemma StaysOpen(p: Params, w: World, s: Step)
    requires WorldOk(p, w) && Enabled(w, s) && IsOpen(w) && !Succeeds(s)
    ensures IsOpen(Do(p, w, s))
  {
    hide Good, ConsumersKnow, StoresOk, CircuitOk, Receive, Collect, Hold, At, Accept, Acknowledge;
  }

  predicate NoSuccess(steps: seq<Step>) {
    forall i :: 0 <= i < |steps| ==> !Succeeds(steps[i])
  }

  lemma {:induction false} MarkStaysAlong(p: Params, w: World, steps: seq<Step>, k: nat)
    requires WorldOk(p, w) && Schedule(p, w, steps) && k <= |steps|
    requires IsOpen(w) && NoSuccess(steps)
    ensures var w' := Trace(p, w, steps)[k]; IsOpen(w') && w'.openedAt == w.openedAt && w'.mark == w.mark
    decreases |steps|
  {
    hide Good, ConsumersKnow, StoresOk, CircuitOk, Enabled, Do, Succeeds;
    if k > 0 {
      StepOk(p, w, steps[0]);
      MarkStays(p, w, steps[0]);
      StaysOpen(p, w, steps[0]);
      MarkStaysAlong(p, Do(p, w, steps[0]), steps[1..], k - 1);
    }
  }

  /**
    The cost of an outage. Let step `s` open the circuit at clock reading
    `s.t2`, and let no event get through both stores after it. Then at every
    later moment the `n` messages taken from the queue since satisfy
    Pause(1) + ... + Pause(n) <= time since the opening, whatever the
    stragglers of batches taken before the pause report.
   */
  lemma OutageBound(p: Params, w: World, s: Step, steps: seq<Step>, k: nat)
    requires WorldOk(p, w) && Opens(p, w, s)
    requires WorldOk(p, Do(p, w, s)) && Schedule(p, Do(p, w, s), steps) && k <= |steps|
    requires NoSuccess(steps)
    ensures s.UpsertReturns? || s.IndexReturns?
    ensures var w' := Trace(p, Do(p, w, s), steps)[k];
            var n := |w'.l.h.delivered| - |w.l.h.delivered|;
            n >= 0 && PauseSum(p.circuit, n) <= w'.l.clock - s.t2
  {
    hide Good, ConsumersKnow, StoresOk, Enabled, Do, NoSuccess;
    OpeningIsMarked(p, w, s);
    MarkStaysAlong(p, Do(p, w, s), steps, k);
    TraceOk(p, Do(p, w, s), steps, k);
  }
}
