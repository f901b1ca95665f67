/**
  The worker as it is written: an object that drives the queue and the circuit.
  Its two coroutines are cut at their suspension points, one method a segment;
  each is proved to take the matching step of Pipeline.
 */
module EventWorker {
  import opened Sequences
  import opened Models
  import Q = QueueSpec
  import L = Ledger
  import C = CircuitSpec
  import P = Pipeline
  import QueueRuns
  import opened EventQueue
  import opened SinkCircuit

  class EventWorker {
    const queue: InMemoryEventQueue
    const sink: SinkCircuit
    const params: P.Params
    var consumers: seq<P.Consumer>
    var store: P.Table
    var index: P.Table
    var processed: nat
    var failed: nat
    ghost var history: L.History
    ghost var clock: real
    ghost var holder: nat
    ghost var openedAt: real
    ghost var mark: nat

    ghost function World(): P.World
      reads this, queue, sink
    {
      P.World(L.Ledger(queue.State(), history, clock), sink.State(), consumers,
              store, index, processed, failed, holder, openedAt, mark)
    }

    ghost predicate Valid()
      reads this, queue, sink
    {
      && queue.cfg == params.queue && sink.settings == params.circuit
      && queue.Valid()
      && L.Good(params.queue, World().l)
    }

    constructor (params: P.Params, queue: InMemoryEventQueue, sink: SinkCircuit)
      requires queue.Valid() && queue.cfg == params.queue && queue.State() == Q.EMPTY_QUEUE
      requires sink.settings == params.circuit && sink.State() == C.CLOSED
      ensures Valid() && this.params == params && this.queue == queue && this.sink == sink
      ensures World() == P.Start(params)
    {
      hide L.Conserved, L.Fifo, L.Told;
      this.params, this.queue, this.sink := params, queue, sink;
      consumers := seq(params.consumers, i => P.Idle([]));
      store, index, processed, failed := map[], map[], 0, 0;
      history, clock, holder, openedAt, mark := L.START.h, 0.0, 0, 0.0, 0;
      new;
      QueueRuns.StartGood(params.queue);
      assert World().l == L.START;
    }

    /** The history the step leaves behind. */
    ghost method Remember(w: P.World)
      modifies this
      ensures history == w.l.h && clock == w.l.clock && holder == w.holder
      ensures openedAt == w.openedAt && mark == w.mark
      ensures unchanged(`consumers, `store, `index, `processed, `failed)
    {
      history, clock, holder, openedAt, mark := w.l.h, w.l.clock, w.holder, w.openedAt, w.mark;
    }

    /** `_handle` up to its first store call: the heartbeat, or the stale-handle return. */
    method Begin(i: nat, m: Q.Message, rest: seq<Q.Message>, t: real)
      requires Valid() && i < |consumers| && clock <= t
      modifies this, queue
      ensures Valid()
      ensures World() == P.Begin(params, old(World()), i, m, rest, t)
    {
      hide L.Conserved, L.Fifo, L.Told, Q.Valid, Q.SetDeadline;
      ghost var goal := P.Begin(params, World(), i, m, rest, t);
      var r := queue.ChangeVisibility(m.handle, params.visibility, t);
      if r.ReceiptHandleIsInvalid? {
        consumers := consumers[i := P.Idle(rest)];
      } else {
        consumers := consumers[i := P.Upserting(m, rest, false)];
      }
      Remember(goal);
      assert World() == goal;
    }

    /** One turn of `_loop`, from its top to the sleep or the first store call. */
    method Poll(i: nat, t1: real, t2: real, t3: real, t4: real)
      requires Valid() && P.Enabled(World(), P.Poll(i, t1, t2, t3, t4))
      modifies this, queue, sink
      ensures Valid()
      ensures World() == P.Do(params, old(World()), P.Poll(i, t1, t2, t3, t4))
    {
      hide L.Conserved, L.Fifo, L.Told, Q.Valid, Q.Receive, P.Begin;
      ghost var w := World();
      ghost var goal := P.PollStep(params, w, i, t1, t2, t3, t4);
      ghost var l1 := L.At(params.queue, w.l, t1);
      var n := sink.Allowance(params.batch, t1);
      if n == 0 {
        Remember(goal);
        assert World() == goal;
        return;
      }
      ghost var l2 := L.Collect(params.queue, l1, n, None, t2, t3);
      L.CollectReceives(params.queue, l1, n, None, t2, t3);
      var messages := queue.Receive(n, None, t2, t3);
      if messages == [] {
        sink.AbandonProbe();
        Remember(goal);
        assert World() == goal;
        return;
      }
      ghost var w1 := w.(l := l2, circuit := sink.State(), holder := if sink.probing then i else w.holder);
      Remember(w1);
      assert World() == w1;
      Begin(i, messages[0], messages[1..], t4);
    }

    /** The batch goes on: `_handle` on its next message. */
    method Next(i: nat, t: real)
      requires Valid() && P.Enabled(World(), P.Next(i, t))
      modifies this, queue
      ensures Valid()
      ensures World() == P.Do(params, old(World()), P.Next(i, t))
    {
      var rest := consumers[i].rest;
      Begin(i, rest[0], rest[1..], t);
    }

    /** The except branch: count, tell the circuit, tell the queue, no delete. */
    method Failed(i: nat, t1: real, t2: real, t3: real)
      requires Valid() && i < |consumers| && !consumers[i].Idle? && clock <= t1 <= t2 <= t3
      modifies this, queue, sink
      ensures Valid()
      ensures World() == P.FailStep(params, old(World()), i, t1, t2, t3)
    {
      hide L.Conserved, L.Fifo, L.Told, Q.Valid, Q.SetDeadline, C.RecordFailure;
      ghost var goal := P.FailStep(params, World(), i, t1, t2, t3);
      var message, rest := consumers[i].msg, consumers[i].rest;
      failed := failed + 1;
      sink.RecordFailure(message.event.event_id, t1, t2);
      var _ := queue.Fail(message.handle, t3);
      consumers := consumers[i := P.Idle(rest)];
      Remember(goal);
      assert World() == goal;
    }

    /** `upsert` has returned, or has raised. */
    method UpsertReturned(i: nat, ok: bool, t1: real, t2: real, t3: real)
      requires Valid() && P.Enabled(World(), P.UpsertReturns(i, ok, t1, t2, t3))
      modifies this, queue, sink
      ensures Valid()
      ensures World() == P.Do(params, old(World()), P.UpsertReturns(i, ok, t1, t2, t3))
    {
      hide L.Conserved, L.Fifo, L.Told, Q.Valid, P.FailStep;
      if ok {
        consumers := consumers[i := P.Indexing(consumers[i].msg, consumers[i].rest, false)];
      } else {
        Failed(i, t1, t2, t3);
      }
    }

    /** Both writes are in: record the success, then acknowledge. */
    method Finished(i: nat)
      requires Valid() && i < |consumers| && consumers[i].Indexing?
      modifies this, queue, sink
      ensures Valid()
      ensures World() == P.FinishStep(params, old(World()), i)
    {
      hide L.Conserved, L.Fifo, L.Told, Q.Valid;
      ghost var goal := P.FinishStep(params, World(), i);
      var message, rest := consumers[i].msg, consumers[i].rest;
      sink.RecordSuccess();
      var r := queue.Delete(message.handle);
      consumers := consumers[i := P.Idle(rest)];
      if r.Accepted? {
        processed := processed + 1;
      }
      Remember(goal);
      assert World() == goal;
    }

    /** `index` has returned, or has raised. */
    method IndexReturned(i: nat, ok: bool, t1: real, t2: real, t3: real)
      requires Valid() && P.Enabled(World(), P.IndexReturns(i, ok, t1, t2, t3))
      modifies this, queue, sink
      ensures Valid()
      ensures World() == P.Do(params, old(World()), P.IndexReturns(i, ok, t1, t2, t3))
    {
      hide L.Conserved, L.Fifo, L.Told, Q.Valid, P.FailStep, P.FinishStep;
      if ok {
        Finished(i);
      } else {
        Failed(i, t1, t2, t3);
      }
    }

    /** The write of a pending store call takes effect; this one is the stores' step. */
    method Landed(i: nat)
      requires Valid() && P.Enabled(World(), P.Lands(i))
      modifies this
      ensures Valid()
      ensures World() == P.Do(params, old(World()), P.Lands(i))
    {
      var c := consumers[i];
      var e := c.msg.event;
      consumers := consumers[i := c.(landed := true)];
      if c.Upserting? {
        store := store[e.event_id := e];
      } else {
        index := index[e.event_id := e];
      }
    }

    /** The API's side of the queue. */
    method Ingest(e: Event) returns (r: Q.SendResult)
      requires Valid() && P.Enabled(World(), P.Ingest(e))
      modifies this, queue
      ensures Valid()
      ensures World() == P.Do(params, old(World()), P.Ingest(e))
      ensures r.QueueFull? <==> |old(queue.entries)| >= params.queue.maxsize
    {
      hide L.Conserved, L.Fifo, L.Told, Q.Valid;
      ghost var goal := P.Do(params, World(), P.Ingest(e));
      r := queue.Send(e);
      Remember(goal);
      assert World() == goal;
    }
  }
}
