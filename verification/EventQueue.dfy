/**
  The in-memory queue as it is written: an object whose methods update its
  tables in place. Each method is proved to do what QueueSpec says, from every
  valid state to a valid state. `app/queue.py` is handed a clock; here each
  reading of it is a parameter.
 */
module EventQueue {
  import opened Sequences
  import opened Models
  import Q = QueueSpec

  class InMemoryEventQueue {
    const cfg: Q.Config
    var entries: map<Q.MsgId, Q.Entry>
    var visible: seq<Q.MsgId>
    var inflight: map<Q.Handle, Q.MsgId>
    var dlq: seq<Event>
    var nextId: nat
    var nextHandle: nat

    ghost function State(): Q.Queue
      reads this
    {
      Q.Queue(entries, visible, inflight, dlq, nextId, nextHandle)
    }

    ghost predicate Valid()
      reads this
    {
      cfg.maxReceives >= 1 && Q.Valid(cfg, State())
    }

    constructor (cfg: Q.Config)
      requires cfg.maxReceives >= 1
      ensures Valid() && this.cfg == cfg && State() == Q.EMPTY_QUEUE
    {
      this.cfg := cfg;
      entries, visible, inflight, dlq := map[], [], map[], [];
      nextId, nextHandle := 0, 0;
    }

    method Send(event: Event) returns (r: Q.SendResult)
      requires Valid()
      modifies this
      ensures Valid()
      ensures (State(), r) == Q.Send(cfg, old(State()), event)
    {
      ghost var goal := Q.Send(cfg, State(), event);
      if |entries| >= cfg.maxsize {
        return Q.QueueFull;
      }
      var id := nextId;
      nextId := nextId + 1;
      entries := entries[id := Q.Entry(event, 0, None, 0.0)];
      visible := visible + [id];
      r := Q.Sent(id);
      assert (State(), r) == goal;
    }

    /** The list comprehension of the lazy sweep. */
    method CollectExpired(now: real) returns (expired: seq<Q.Handle>)
      requires Valid()
      ensures expired == Q.Expired(State(), now)
    {
      expired := [];
      for h := 0 to nextHandle
        invariant expired == Q.ExpiredBelow(State(), h, now)
      {
        assert h in inflight ==> Q.LoanPlaced(State(), h);
        if h in inflight && entries[inflight[h]].deadline <= now {
          expired := expired + [h];
        }
      }
    }

    method Sweep(now: real)
      requires Valid()
      modifies this
      ensures Valid()
      ensures State() == Q.Sweep(cfg, old(State()), now)
    {
      var expired := CollectExpired(now);
      while expired != []
        invariant Valid() && Q.AllLent(State(), expired)
        invariant Q.SweepAll(cfg, State(), expired) == Q.Sweep(cfg, old(State()), now)
        decreases |expired|
      {
        ghost var before := State();
        SweepOne(expired[0]);
        Q.SweepAllUnfolds(cfg, before, expired);
        expired := expired[1..];
      }
    }

    method SweepOne(h: Q.Handle)
      requires Valid() && h in inflight
      modifies this
      ensures Valid()
      ensures State() == Q.SweepOne(cfg, old(State()), h)
    {
      ghost var goal := Q.SweepOne(cfg, State(), h);
      assert Q.LoanPlaced(State(), h);
      var id := inflight[h];
      inflight := inflight - {h};
      var entry := entries[id].(handle := None);
      if entry.receiveCount >= cfg.maxReceives {
        if |dlq| == Q.DLQ_MAXLEN {
          dlq := dlq[1..];
        }
        dlq := dlq + [entry.event];
        entries := entries - {id};
      } else {
        entries := entries[id := entry];
        visible := visible + [id];
      }
      assert State() == goal;
    }

    /** The body of the delivery loop. */
    method LendOne(deadline: real) returns (m: Q.Message)
      requires Valid() && visible != []
      modifies this
      ensures Valid()
      ensures (State(), m) == Q.LendOne(cfg, old(State()), deadline)
    {
      ghost var goal := Q.LendOne(cfg, State(), deadline);
      var id := visible[0];
      visible := visible[1..];
      var entry := entries[id];
      entry := entry.(receiveCount := entry.receiveCount + 1, deadline := deadline, handle := Some(nextHandle));
      nextHandle := nextHandle + 1;
      entries := entries[id := entry];
      inflight := inflight[entry.handle.value := id];
      m := Q.Message(entry.event, entry.handle.value, entry.receiveCount);
      assert (State(), m) == goal;
    }

    method LendMany(n: int, deadline: real) returns (out: seq<Q.Message>)
      requires Valid()
      modifies this
      ensures Valid()
      ensures (State(), out) == Q.LendMany(cfg, old(State()), n, deadline)
    {
      hide Q.LendMany, Q.LendOne, Q.Valid;
      out := [];
      while visible != [] && |out| < n
        invariant Valid()
        invariant Q.Prepend(out, Q.LendMany(cfg, State(), n - |out|, deadline))
               == Q.Prepend([], Q.LendMany(cfg, old(State()), n, deadline))
        decreases |visible|
      {
        // An id whose entry is gone would be skipped here; Valid() rules that out.
        Q.LendManyUnfolds(cfg, State(), n - |out|, deadline, out);
        var m := LendOne(deadline);
        out := out + [m];
      }
      Q.LendManyEnds(cfg, State(), n - |out|, deadline, out);
      Q.PrependNothing(Q.LendMany(cfg, old(State()), n, deadline));
    }

    method Receive(maxN: int, visibilityTimeout: Option<real>, t1: real, t2: real) returns (out: seq<Q.Message>)
      requires Valid()
      modifies this
      ensures Valid()
      ensures (State(), out) == Q.Receive(cfg, old(State()), maxN, visibilityTimeout, t1, t2)
    {
      Sweep(t1);
      var base := if visibilityTimeout.Some? then visibilityTimeout.value else cfg.visibility;
      out := LendMany(maxN, t2 + base);
    }

    method Delete(h: Q.Handle) returns (r: Q.HandleResult)
      requires Valid()
      modifies this
      ensures Valid()
      ensures (State(), r) == Q.Delete(cfg, old(State()), h)
    {
      if h !in inflight {
        return Q.ReceiptHandleIsInvalid;
      }
      ghost var goal := Q.Delete(cfg, State(), h);
      var id := inflight[h];
      inflight := inflight - {h};
      entries := entries - {id};
      r := Q.Accepted;
      assert (State(), r) == goal;
    }

    method ChangeVisibility(h: Q.Handle, seconds: real, now: real) returns (r: Q.HandleResult)
      requires Valid()
      modifies this
      ensures Valid()
      ensures (State(), r) == Q.ChangeVisibility(cfg, old(State()), h, seconds, now)
    {
      ghost var goal := Q.ChangeVisibility(cfg, State(), h, seconds, now);
      if h !in inflight {
        return Q.ReceiptHandleIsInvalid;
      }
      assert Q.LoanPlaced(State(), h);
      entries := entries[inflight[h] := entries[inflight[h]].(deadline := now + seconds)];
      r := Q.Accepted;
      assert (State(), r) == goal;
    }

    method Fail(h: Q.Handle, now: real) returns (r: Q.HandleResult)
      requires Valid()
      modifies this
      ensures Valid()
      ensures (State(), r) == Q.Fail(cfg, old(State()), h, now)
    {
      ghost var goal := Q.Fail(cfg, State(), h, now);
      if h !in inflight {
        return Q.ReceiptHandleIsInvalid;
      }
      assert Q.LoanPlaced(State(), h) && Q.EntryPlaced(cfg, State(), inflight[h]);
      var entry := entries[inflight[h]];
      entries := entries[inflight[h] := entry.(deadline := now + Q.Backoff(cfg, entry.receiveCount))];
      r := Q.Accepted;
      assert (State(), r) == goal;
    }
  }
}
