/**
  The sink circuit: whether the stores are answering, and how much work the
  consumers may therefore take. Each method of SinkCircuit.dfy is proved
  against the functions here.
 */
module CircuitSpec {
  import opened Sequences
  import opened Arithmetic

  datatype Settings = Settings(threshold: nat, pause: real, maxPause: real)

  datatype Circuit = Circuit(failures: set<string>, openUntil: Option<real>, pauses: nat, probing: bool)

  const CLOSED: Circuit := Circuit({}, None, 0, false)

  /** The length of the `n`-th pause of an outage. */
  function Pause(s: Settings, n: nat): real
    requires n >= 1
  {
    Min(Doubled(s.pause, n - 1), s.maxPause)
  }

  /** The first pause is the one configured, each later one twice the one before, and none exceeds the cap. */
  lemma PauseDoubles(s: Settings, n: nat)
    requires n >= 1 && s.pause >= 0.0
    ensures Pause(s, 1) == Min(s.pause, s.maxPause)
    ensures s.maxPause >= 0.0 ==> Pause(s, n + 1) == Min(2.0 * Pause(s, n), s.maxPause)
  {
    DoubledNever(s.pause);
    DoubledAgain(s.pause, n - 1);
    DoublingGrows(s.pause, 0, n - 1);
    hide Doubled;
  }

  function Allowance(c: Circuit, batch: int, now: real): (Circuit, int) {
    if c.openUntil == None then (c, batch)
    else if now < c.openUntil.value || c.probing then (c, 0)
    else (c.(probing := true), 1)
  }

  function AbandonProbe(c: Circuit): Circuit {
    c.(probing := false)
  }

  function RecordSuccess(c: Circuit): Circuit {
    Circuit({}, None, 0, false)
  }

  /** Reads the clock twice when it pauses: `t1` to compare, `t2` to stamp. */
  function RecordFailure(s: Settings, c: Circuit, id: string, t1: real, t2: real): Circuit {
    var c1 := c.(probing := false, failures := c.failures + {id});
    if c1.openUntil.Some? && t1 < c1.openUntil.value then c1
    else if |c1.failures| < s.threshold then c1
    else c1.(pauses := c1.pauses + 1, openUntil := Some(t2 + Pause(s, c1.pauses + 1)))
  }

  // ---- the invariant ------------------------------------------------------

  ghost predicate Coherent(s: Settings, c: Circuit, now: real) {
    && s.threshold >= 1
    && (c.openUntil.Some? <==> |c.failures| >= s.threshold)
    && (c.openUntil.Some? <==> c.pauses >= 1)
    && (c.probing ==> c.openUntil.Some? && c.openUntil.value <= now)
  }

  lemma FailureKeepsCoherent(s: Settings, c: Circuit, id: string, now: real, t1: real, t2: real)
    requires Coherent(s, c, now) && now <= t1 <= t2
    ensures Coherent(s, RecordFailure(s, c, id, t1, t2), t2)
  {
    if id in c.failures {
      assert c.failures + {id} == c.failures;
    }
  }

  // ---- the circuit refines its history ------------------------------------

  datatype Call =
    | Allow(batch: int, t: real)
    | Abandon
    | Success
    | Failure(id: string, t1: real, t2: real)

  function Time(now: real, k: Call): real {
    match k
    case Allow(_, t) => t
    case Abandon => now
    case Success => now
    case Failure(_, _, t2) => t2
  }

  predicate CallInTime(now: real, k: Call) {
    match k
    case Allow(_, t) => now <= t
    case Failure(_, t1, t2) => now <= t1 <= t2
    case _ => true
  }

  function Step(s: Settings, c: Circuit, k: Call): Circuit {
    match k
    case Allow(batch, t) => Allowance(c, batch, t).0
    case Abandon => AbandonProbe(c)
    case Success => RecordSuccess(c)
    case Failure(id, t1, t2) => RecordFailure(s, c, id, t1, t2)
  }

  /** The time of the last clock reading in `ks`. */
  function LastTime(ks: seq<Call>): real {
    if ks == [] then 0.0 else Time(LastTime(ks[..|ks| - 1]), ks[|ks| - 1])
  }

  ghost predicate CallsInTime(ks: seq<Call>) {
    forall i :: 0 <= i < |ks| ==> CallInTime(LastTime(ks[..i]), ks[i])
  }

  /** The circuit after the calls `ks`. */
  function Run(s: Settings, ks: seq<Call>): Circuit {
    if ks == [] then CLOSED else Step(s, Run(s, ks[..|ks| - 1]), ks[|ks| - 1])
  }

  /** The distinct events that have failed since the last success, read off the history alone. */
  function FailedSinceSuccess(ks: seq<Call>): set<string> {
    if ks == [] then {}
    else
      var before := FailedSinceSuccess(ks[..|ks| - 1]);
      match ks[|ks| - 1]
      case Success => {}
      case Failure(id, _, _) => before + {id}
      case _ => before
  }

  /** Whether a probe was granted and nothing has been recorded or abandoned since. */
  ghost predicate ProbeOut(s: Settings, ks: seq<Call>) {
    exists i :: 0 <= i < |ks| && GrantsProbe(s, ks, i) && forall j :: i < j < |ks| ==> ks[j].Allow?
  }

  ghost predicate GrantsProbe(s: Settings, ks: seq<Call>, i: nat)
    requires i < |ks|
  {
    && ks[i].Allow?
    && Run(s, ks[..i]).openUntil.Some?
    && Allowance(Run(s, ks[..i]), ks[i].batch, ks[i].t).1 == 1
  }

  /**
    After any calls, the circuit is open exactly when at least `threshold`
    distinct events have failed since the last success; it is then that it
    counts pauses, and only then that a probe can be out.
   */
  lemma {:induction false} RefinesHistory(s: Settings, ks: seq<Call>)
    requires s.threshold >= 1 && CallsInTime(ks)
    ensures Run(s, ks).failures == FailedSinceSuccess(ks)
    ensures Coherent(s, Run(s, ks), LastTime(ks))
  {
    if ks != [] {
      var before, k := ks[..|ks| - 1], ks[|ks| - 1];
      assert forall i :: 0 <= i < |before| ==> before[..i] == ks[..i];
      RefinesHistory(s, before);
      if k.Failure? {
        FailureKeepsCoherent(s, Run(s, before), k.id, LastTime(before), k.t1, k.t2);
      }
    }
  }

  lemma OpenExactlyOnThreshold(s: Settings, ks: seq<Call>)
    requires s.threshold >= 1 && CallsInTime(ks)
    ensures Run(s, ks).openUntil.Some? <==> |FailedSinceSuccess(ks)| >= s.threshold
  {
    RefinesHistory(s, ks);
  }

  lemma ProbeOutUnfolds(s: Settings, ks: seq<Call>)
    requires ks != []
    ensures var n := |ks| - 1;
            ProbeOut(s, ks) <==> ks[n].Allow? && (ProbeOut(s, ks[..n]) || GrantsProbe(s, ks, n))
  {
    hide Run;
    var n := |ks| - 1;
    var before := ks[..n];
    forall i | 0 <= i < n ensures GrantsProbe(s, ks, i) == GrantsProbe(s, before, i) {
      assert before[..i] == ks[..i];
    }
    if ks[n].Allow? && ProbeOut(s, before) {
      var i :| 0 <= i < n && GrantsProbe(s, before, i) && forall j :: i < j < n ==> before[j].Allow?;
      assert GrantsProbe(s, ks, i);
      assert forall j :: i < j < n ==> ks[j] == before[j];
    }
    if ProbeOut(s, ks) {
      var i :| 0 <= i < |ks| && GrantsProbe(s, ks, i) && forall j :: i < j < |ks| ==> ks[j].Allow?;
      if i < n {
        assert GrantsProbe(s, before, i);
        assert forall j :: i < j < n ==> before[j] == ks[j];
      }
    }
  }

  lemma {:induction false} OneFailing(ks: seq<Call>, id: string)
    requires forall i :: 0 <= i < |ks| && ks[i].Failure? ==> ks[i].id == id
    ensures FailedSinceSuccess(ks) <= {id}
  {
    if ks != [] {
      OneFailing(ks[..|ks| - 1], id);
    }
  }

  /** A poison event, failing however often on its own, never opens the circuit. */
  lemma OneEventNeverOpens(s: Settings, ks: seq<Call>, id: string)
    requires s.threshold >= 2 && CallsInTime(ks)
    requires forall i :: 0 <= i < |ks| && ks[i].Failure? ==> ks[i].id == id
    ensures Run(s, ks).openUntil == None
  {
    OneFailing(ks, id);
    OpenExactlyOnThreshold(s, ks);
    if FailedSinceSuccess(ks) != {} {
      assert FailedSinceSuccess(ks) == {id};
    }
  }

  /** The probing flag is up exactly while a granted probe is unanswered. */
  lemma {:induction false} ProbingMeansProbeOut(s: Settings, ks: seq<Call>)
    requires s.threshold >= 1 && CallsInTime(ks)
    ensures Run(s, ks).probing <==> ProbeOut(s, ks)
  {
    hide ProbeOut;
    if ks == [] {
      NoProbeAtFirst(s);
    } else {
      var n := |ks| - 1;
      assert forall i :: 0 <= i < n ==> ks[..n][..i] == ks[..i];
      ProbingMeansProbeOut(s, ks[..n]);
      ProbeOutUnfolds(s, ks);
    }
  }

  lemma NoProbeAtFirst(s: Settings)
    ensures !ProbeOut(s, [])
  {
  }

  /** After a grant every other caller gets zero until the probe is answered. */
  lemma GrantThenZeros(s: Settings, ks: seq<Call>, batch: int, t: real)
    requires s.threshold >= 1 && CallsInTime(ks) && ProbeOut(s, ks)
    ensures Allowance(Run(s, ks), batch, t) == (Run(s, ks), 0)
  {
    hide ProbeOut;
    ProbingMeansProbeOut(s, ks);
    RefinesHistory(s, ks);
  }

  // ---- the pauses ---------------------------------------------------------

  /** How many pauses have begun since the last success, and when the last of them ends. */
  datatype Pauses = Pauses(begun: nat, ends: Option<real>)

  /**
    Read off the history alone. A failure begins a pause if enough distinct
    events have failed by then and no pause is under way; it is under way
    until its end, and failures in the meantime neither lengthen nor count it.
   */
  function PausesOf(s: Settings, ks: seq<Call>): Pauses {
    if ks == [] then Pauses(0, None)
    else
      var before := PausesOf(s, ks[..|ks| - 1]);
      match ks[|ks| - 1]
      case Success => Pauses(0, None)
      case Failure(_, t1, t2) =>
        if |FailedSinceSuccess(ks)| >= s.threshold && !UnderWay(before, t1) then
          Pauses(before.begun + 1, Some(t2 + Pause(s, before.begun + 1)))
        else before
      case _ => before
  }

  predicate UnderWay(before: Pauses, t: real) {
    before.ends.Some? && t < before.ends.value
  }

  lemma PausesUnfold(s: Settings, ks: seq<Call>)
    requires ks != []
    ensures var before, k := PausesOf(s, ks[..|ks| - 1]), ks[|ks| - 1];
            PausesOf(s, ks) ==
              if k.Success? then Pauses(0, None)
              else if k.Failure? && |FailedSinceSuccess(ks)| >= s.threshold && !UnderWay(before, k.t1) then
                Pauses(before.begun + 1, Some(k.t2 + Pause(s, before.begun + 1)))
              else before
  {
    hide FailedSinceSuccess, Pause, UnderWay;
  }

  /** The circuit has counted those pauses and knows that end. */
  lemma {:induction false} PausesFromHistory(s: Settings, ks: seq<Call>)
    requires s.threshold >= 1 && CallsInTime(ks)
    ensures Run(s, ks).openUntil == PausesOf(s, ks).ends && Run(s, ks).pauses == PausesOf(s, ks).begun
  {
    hide Pause, CallsInTime, PausesOf;
    if ks == [] {
      NoPauseAtFirst(s);
    } else {
      var n := |ks| - 1;
      InTimeBefore(ks);
      PausesFromHistory(s, ks[..n]);
      RefinesHistory(s, ks);
      RefinesHistory(s, ks[..n]);
      PausesUnfold(s, ks);
    }
  }

  lemma InTimeBefore(ks: seq<Call>)
    requires ks != [] && CallsInTime(ks)
    ensures CallsInTime(ks[..|ks| - 1])
  {
    var before := ks[..|ks| - 1];
    assert forall i :: 0 <= i < |before| ==> before[..i] == ks[..i];
  }

  lemma NoPauseAtFirst(s: Settings)
    ensures PausesOf(s, []) == Pauses(0, None)
  {
  }

  /** A straggler's failure, recorded before the pause is over, moves neither its end nor the count. */
  lemma StragglerChangesNoPause(s: Settings, ks: seq<Call>, id: string, t1: real, t2: real)
    requires s.threshold >= 1 && CallsInTime(ks + [Failure(id, t1, t2)])
    requires Run(s, ks).openUntil.Some? && t1 < Run(s, ks).openUntil.value
    ensures var c, c' := Run(s, ks), Run(s, ks + [Failure(id, t1, t2)]);
            c'.openUntil == c.openUntil && c'.pauses == c.pauses && c'.failures == c.failures + {id}
  {
    hide Pause, CallsInTime, FailedSinceSuccess;
    var ks' := ks + [Failure(id, t1, t2)];
    assert ks'[..|ks|] == ks;
    InTimeBefore(ks');
    PausesFromHistory(s, ks);
    PausesFromHistory(s, ks');
    FailedGrow(ks, Failure(id, t1, t2));
    RefinesHistory(s, ks);
    RefinesHistory(s, ks');
  }

  lemma FailedGrow(ks: seq<Call>, k: Call)
    requires k.Failure?
    ensures FailedSinceSuccess(ks + [k]) == FailedSinceSuccess(ks) + {k.id}
  {
    assert (ks + [k])[..|ks|] == ks;
  }

  /**
    A failure that no pause precedes, or that comes once the pause is over,
    begins the next pause at its second clock reading, exactly if enough
    distinct events have then failed.
   */
  lemma NextPauseBegins(s: Settings, ks: seq<Call>, id: string, t1: real, t2: real)
    requires s.threshold >= 1 && CallsInTime(ks + [Failure(id, t1, t2)])
    requires Run(s, ks).openUntil.None? || t1 >= Run(s, ks).openUntil.value
    ensures var c, c' := Run(s, ks), Run(s, ks + [Failure(id, t1, t2)]);
            if |FailedSinceSuccess(ks) + {id}| >= s.threshold then
              c'.pauses == c.pauses + 1 && c'.openUntil == Some(t2 + Pause(s, c.pauses + 1))
            else c'.pauses == 0 && c'.openUntil == None
  {
    hide Pause, CallsInTime, FailedSinceSuccess;
    var ks' := ks + [Failure(id, t1, t2)];
    assert ks'[..|ks|] == ks;
    InTimeBefore(ks');
    PausesFromHistory(s, ks);
    PausesFromHistory(s, ks');
    PausesUnfold(s, ks');
    FailedGrow(ks, Failure(id, t1, t2));
    RefinesHistory(s, ks');
  }

  /** What a consumer may take, told from the history of calls alone. */
  lemma AllowanceFromHistory(s: Settings, ks: seq<Call>, batch: int, t: real)
    requires s.threshold >= 1 && CallsInTime(ks)
    ensures |FailedSinceSuccess(ks)| >= s.threshold ==> PausesOf(s, ks).ends.Some?
    ensures Allowance(Run(s, ks), batch, t).1 ==
            if |FailedSinceSuccess(ks)| < s.threshold then batch
            else if t >= PausesOf(s, ks).ends.value && !ProbeOut(s, ks) then 1
            else 0
  {
    hide ProbeOut;
    ProbingMeansProbeOut(s, ks);
    RefinesHistory(s, ks);
    PausesFromHistory(s, ks);
  }

  /**
    Single flight lasts only until somebody's failure is recorded, and it need
    not be the probe's: with a probe out, any failure starts the next pause,
    and after it a second probe is granted though the first is unanswered.
   */
  lemma StragglerFreesTheProbe(
    s: Settings, c: Circuit, id: string, now: real, t1: real, t2: real, batch: int, t: real)
    requires Coherent(s, c, now) && c.probing && now <= t1 <= t2
    ensures var c' := RecordFailure(s, c, id, t1, t2);
            && c'.openUntil == Some(t2 + Pause(s, c.pauses + 1))
            && (Allowance(c', batch, t).1 == 1 <==> t >= t2 + Pause(s, c.pauses + 1))
  {
    FailureKeepsCoherent(s, c, id, now, t1, t2);
    if id in c.failures {
      assert c.failures + {id} == c.failures;
    }
  }
}
