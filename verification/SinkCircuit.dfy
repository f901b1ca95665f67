/** The circuit as it is written: an object shared by all consumers. */
module SinkCircuit {
  import opened Sequences
  import C = CircuitSpec

  class SinkCircuit {
    const settings: C.Settings
    var failures: set<string>
    var openUntil: Option<real>
    var pauses: nat
    var probing: bool

    ghost function State(): C.Circuit
      reads this
    {
      C.Circuit(failures, openUntil, pauses, probing)
    }

    constructor (settings: C.Settings)
      ensures this.settings == settings && State() == C.CLOSED
    {
      this.settings := settings;
      failures, openUntil, pauses, probing := {}, None, 0, false;
    }

    method Allowance(batch: int, now: real) returns (n: int)
      modifies this
      ensures (State(), n) == C.Allowance(old(State()), batch, now)
    {
      if openUntil == None {
        return batch;
      }
      if now < openUntil.value || probing {
        return 0;
      }
      probing := true;
      n := 1;
    }

    method AbandonProbe()
      modifies this
      ensures State() == C.AbandonProbe(old(State()))
    {
      probing := false;
    }

    method RecordSuccess()
      modifies this
      ensures State() == C.RecordSuccess(old(State()))
    {
      failures := {};
      openUntil := None;
      probing := false;
      pauses := 0;
    }

    /** `t1` and `t2` are the two clock readings, in order. */
    method RecordFailure(eventId: string, t1: real, t2: real)
      modifies this
      ensures State() == C.RecordFailure(settings, old(State()), eventId, t1, t2)
    {
      probing := false;
      failures := failures + {eventId};
      if openUntil.Some? && t1 < openUntil.value {
        return;
      }
      if |failures| < settings.threshold {
        return;
      }
      pauses := pauses + 1;
      openUntil := Some(t2 + C.Pause(settings, pauses));
    }
  }
}
