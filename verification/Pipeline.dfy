/**
  The composition: N consumers over one queue, one circuit and two stores.

  A consumer is suspended only inside `sleep`, `upsert` and `index`; between
  two suspensions its code runs without interleaving, and that is one step
  here. Polling, receiving and starting the first message of a batch is such a
  step. Starting a later message of a batch is a step of its own, so that the
  runs below include every schedule asyncio can produce, and some it cannot.

  A call to a store may land or not before it returns, and may fail either way.
 */
module Pipeline {
  import opened Sequences
  import opened Models
  import opened QueueSpec
  import opened Lifecycle
  import opened Ledger
  import opened CircuitSpec
  import QueueRuns

  /** `visibility` is the window a consumer claims; the queue has its own default. */
  datatype Params = Params(queue: Config, circuit: Settings, batch: nat, visibility: real, consumers: nat)

  /** The parameters the application is shipped with. */
  const DEFAULTS: Params := Params(Config(30.0, 5, 10_000), Settings(3, 5.0, 30.0), 10, 30.0, 8)

  datatype Consumer =
    | Idle(rest: seq<Message>)
    | Upserting(msg: Message, rest: seq<Message>, landed: bool)
    | Indexing(msg: Message, rest: seq<Message>, landed: bool)

  type Table = map<string, Event>

  /**
    `holder` is the consumer that was granted the last probe; `openedAt` is
    when the circuit last went from closed to open and `mark` the number of
    deliveries made before that. These three are history only.
   */
  datatype World = World(
    l: Ledger, circuit: Circuit, consumers: seq<Consumer>,
    store: Table, index: Table, processed: nat, failed: nat,
    holder: nat, openedAt: real, mark: nat)

  datatype Step =
    | Ingest(event: Event)
    | Poll(i: nat, t1: real, t2: real, t3: real, t4: real)
    | Next(i: nat, t: real)
    | Lands(i: nat)
    | UpsertReturns(i: nat, ok: bool, t1: real, t2: real, t3: real)
    | IndexReturns(i: nat, ok: bool, t1: real, t2: real, t3: real)

  predicate Enabled(w: World, s: Step) {
    match s
    case Ingest(e) =>
      // The API stamps a fresh event_id on every request.
      forall k :: 0 <= k < |w.l.h.sent| ==> w.l.h.sent[k].event_id != e.event_id
    case Poll(i, t1, t2, t3, t4) =>
      i < |w.consumers| && w.consumers[i] == Idle([]) && w.l.clock <= t1 <= t2 <= t3 <= t4
    case Next(i, t) =>
      i < |w.consumers| && w.consumers[i].Idle? && w.consumers[i].rest != [] && w.l.clock <= t
    case Lands(i) =>
      i < |w.consumers| && !w.consumers[i].Idle? && !w.consumers[i].landed
    case UpsertReturns(i, ok, t1, t2, t3) =>
      i < |w.consumers| && w.consumers[i].Upserting? && (ok ==> w.consumers[i].landed) &&
      w.l.clock <= t1 <= t2 <= t3
    case IndexReturns(i, ok, t1, t2, t3) =>
      i < |w.consumers| && w.consumers[i].Indexing? && (ok ==> w.consumers[i].landed) &&
      w.l.clock <= t1 <= t2 <= t3
  }

  /** Of the history, what is sent and what is delivered is only ever added to. */
  ghost predicate Grows(l: Ledger, l': Ledger) {
    l.h.sent <= l'.h.sent && l.h.delivered <= l'.h.delivered
  }

  /** Nothing was accepted, acknowledged or written. */
  ghost predicate Quiet(w: World, w': World) {
    && w'.l.h.sent == w.l.h.sent && w'.l.h.acked == w.l.h.acked
    && w'.store == w.store && w'.index == w.index && w'.processed == w.processed
  }

  // ---- the segments of a consumer's code ----------------------------------

  /** The heartbeat, and then either the first store call or the stale-handle return. */
  function Begin(p: Params, w: World, i: nat, m: Message, rest: seq<Message>, t: real): (w': World)
    requires Good(p.queue, w.l) && i < |w.consumers| && w.l.clock <= t
    ensures Good(p.queue, w'.l) && Grows(w.l, w'.l)
    ensures w'.l.clock == t
    ensures Quiet(w, w')
  {
    var l := At(p.queue, w.l, t);
    if m.handle in l.q.inflight then
      w.(l := Hold(p.queue, l, m.handle, Some(p.visibility)),
         consumers := w.consumers[i := Upserting(m, rest, false)])
    else
      w.(l := l, consumers := w.consumers[i := Idle(rest)])
  }

  /** From the top of the loop to the next suspension. */
  function PollStep(p: Params, w: World, i: nat, t1: real, t2: real, t3: real, t4: real): (w': World)
    requires Good(p.queue, w.l) && i < |w.consumers| && w.l.clock <= t1 <= t2 <= t3 <= t4
    ensures Good(p.queue, w'.l) && Grows(w.l, w'.l)
    ensures t1 <= w'.l.clock
    ensures Quiet(w, w')
  {
    var (c, n) := Allowance(w.circuit, p.batch, t1);
    var l1 := At(p.queue, w.l, t1);
    if n == 0 then w.(l := l1)
    else
      var l2 := Collect(p.queue, l1, n, None, t2, t3);
      var ms := Receive(p.queue, l1.q, n, None, t2, t3).1;
      if ms == [] then w.(l := l2, circuit := AbandonProbe(c))
      else
        var w1 := w.(l := l2, circuit := c, holder := if c.probing then i else w.holder);
        Begin(p, w1, i, ms[0], ms[1..], t4)
  }

  /** A store call raised: report it to the circuit and to the queue. */
  function FailStep(p: Params, w: World, i: nat, t1: real, t2: real, t3: real): (w': World)
    requires Good(p.queue, w.l) && i < |w.consumers| && !w.consumers[i].Idle? && w.l.clock <= t1 <= t2 <= t3
    ensures Good(p.queue, w'.l) && Grows(w.l, w'.l)
    ensures w'.l.clock == t3
    ensures Quiet(w, w')
  {
    var m := w.consumers[i].msg;
    var c := RecordFailure(p.circuit, w.circuit, m.event.event_id, t1, t2);
    var opens := w.circuit.openUntil == None && c.openUntil.Some?;
    w.(l := Hold(p.queue, At(p.queue, w.l, t3), m.handle, None),
       circuit := c,
       consumers := w.consumers[i := Idle(w.consumers[i].rest)],
       failed := w.failed + 1,
       openedAt := if opens then t2 else w.openedAt,
       mark := if opens then |w.l.h.delivered| else w.mark)
  }

  /** Both writes are in: tell the circuit, then acknowledge. */
  function FinishStep(p: Params, w: World, i: nat): (w': World)
    requires Good(p.queue, w.l) && i < |w.consumers| && w.consumers[i].Indexing?
    ensures Good(p.queue, w'.l) && Grows(w.l, w'.l)
    ensures w'.l.clock == w.l.clock
  {
    var m := w.consumers[i].msg;
    w.(l := Acknowledge(p.queue, w.l, m.handle),
       circuit := RecordSuccess(w.circuit),
       consumers := w.consumers[i := Idle(w.consumers[i].rest)],
       processed := if m.handle in w.l.q.inflight then w.processed + 1 else w.processed)
  }

  function LandStep(w: World, i: nat): World
    requires i < |w.consumers| && !w.consumers[i].Idle?
  {
    var c := w.consumers[i];
    var w1 := w.(consumers := w.consumers[i := c.(landed := true)]);
    var e := c.msg.event;
    if c.Upserting? then w1.(store := w.store[e.event_id := e])
    else w1.(index := w.index[e.event_id := e])
  }

  function Do(p: Params, w: World, s: Step): (w': World)
    requires Good(p.queue, w.l) && Enabled(w, s)
    ensures Good(p.queue, w'.l) && Grows(w.l, w'.l)
    ensures w.l.clock <= w'.l.clock
  {
    match s
    case Ingest(e) => w.(l := Accept(p.queue, w.l, e))
    case Poll(i, t1, t2, t3, t4) => PollStep(p, w, i, t1, t2, t3, t4)
    case Next(i, t) => Begin(p, w, i, w.consumers[i].rest[0], w.consumers[i].rest[1..], t)
    case Lands(i) => LandStep(w, i)
    case UpsertReturns(i, ok, t1, t2, t3) =>
      if ok then w.(consumers := w.consumers[i := Indexing(w.consumers[i].msg, w.consumers[i].rest, false)])
      else FailStep(p, w, i, t1, t2, t3)
    case IndexReturns(i, ok, t1, t2, t3) =>
      if ok then FinishStep(p, w, i) else FailStep(p, w, i, t1, t2, t3)
  }

  function Start(p: Params): World {
    World(START, CLOSED, seq(p.consumers, i => Idle([])), map[], map[], 0, 0, 0, 0.0, 0)
  }

  // ---- what the consumers hold --------------------------------------------

  /** A message in a consumer's hands is one the queue lent, carrying what was sent. */
  ghost predicate Known(l: Ledger, m: Message) {
    && m.handle < |l.h.delivered|
    && l.h.delivered[m.handle] < |l.h.sent|
    && l.h.sent[l.h.delivered[m.handle]] == m.event
  }

  ghost predicate AllKnown(l: Ledger, ms: seq<Message>) {
    forall k :: 0 <= k < |ms| ==> Known(l, ms[k])
  }

  ghost predicate HoldsKnown(l: Ledger, c: Consumer) {
    && AllKnown(l, c.rest)
    && (!c.Idle? ==> Known(l, c.msg))
  }

  ghost predicate ConsumersKnow(w: World) {
    forall i :: 0 <= i < |w.consumers| ==> HoldsKnown(w.l, w.consumers[i])
  }

  lemma KnownGrows(l: Ledger, l': Ledger, w: World, i: nat)
    requires Grows(l, l') && i < |w.consumers| && HoldsKnown(l, w.consumers[i])
    ensures HoldsKnown(l', w.consumers[i])
  {
    var c := w.consumers[i];
    assert forall m :: Known(l, m) ==> Known(l', m);
  }

  lemma SweepIsSweepAll(cfg: Config, q: Queue, t: real)
    requires Valid(cfg, q)
    ensures Sweep(cfg, q, t) == SweepAll(cfg, q, Expired(q, t))
  {
    hide Valid, SweepAll, Expired;
  }

  lemma ReceivedAreKnown(cfg: Config, l: Ledger, n: int, t1: real, t2: real)
    requires Good(cfg, l) && l.clock <= t1 <= t2
    ensures var l' := Collect(cfg, l, n, None, t1, t2);
            var ms := Receive(cfg, l.q, n, None, t1, t2).1;
            && AllKnown(l', ms)
            && (forall k :: 0 <= k < |ms| ==> ms[k].handle in l'.q.inflight)
            && (n >= 0 ==> |ms| <= n)
            && |l'.h.delivered| == |l.h.delivered| + |ms|
  {
    hide Conserved, Fifo, Told, Valid, Known, Sweep, SweepAll, LendMany, Expired;
    var l', ms := Collect(cfg, l, n, None, t1, t2), Receive(cfg, l.q, n, None, t1, t2).1;
    CollectReceives(cfg, l, n, None, t1, t2);
    QueueRuns.SweepAllTakes(cfg, l.q, Expired(l.q, t1));
    QueueRuns.LendManyAdds(cfg, Sweep(cfg, l.q, t1), n, t2 + cfg.visibility);
    SweepIsSweepAll(cfg, l.q, t1);
    forall k | 0 <= k < |ms| ensures Known(l', ms[k]) && ms[k].handle in l'.q.inflight {
      QueueRuns.LendManyMessages(cfg, Sweep(cfg, l.q, t1), n, t2 + cfg.visibility, k);
      LentIsKnown(cfg, l', ms[k]);
    }
  }

  lemma LentIsKnown(cfg: Config, l: Ledger, m: Message)
    requires Good(cfg, l) && m.handle in l.q.inflight && l.q.inflight[m.handle] in l.q.entries
    requires l.q.entries[l.q.inflight[m.handle]].event == m.event
    ensures Known(l, m)
  {
    hide Conserved, Fifo, LifeOk;
    var id := l.q.inflight[m.handle];
    assert EntryPlaced(cfg, l.q, id) && MsgOk(cfg, l, id);
  }

  /** The heartbeat of the first message after a receive never meets a stale handle. */
  lemma FirstHeartbeatSucceeds(p: Params, w: World, i: nat, t1: real, t2: real, t3: real, t4: real)
    requires Good(p.queue, w.l) && i < |w.consumers| && w.l.clock <= t1 <= t2 <= t3 <= t4
    ensures var w' := PollStep(p, w, i, t1, t2, t3, t4);
            var (c, n) := Allowance(w.circuit, p.batch, t1);
            var ms := Receive(p.queue, w.l.q, n, None, t2, t3).1;
            if n == 0 || ms == [] then w'.consumers == w.consumers
            else w'.consumers == w.consumers[i := Upserting(ms[0], ms[1..], false)]
  {
    hide Good, Receive;
    var n := Allowance(w.circuit, p.batch, t1).1;
    ReceivedAreKnown(p.queue, At(p.queue, w.l, t1), n, t2, t3);
  }

  lemma ConsumersKnowKept(p: Params, w: World, s: Step)
    requires Good(p.queue, w.l) && Enabled(w, s) && ConsumersKnow(w)
    ensures ConsumersKnow(Do(p, w, s))
  {
    hide Good, Receive, Allowance, RecordFailure, Known, PollStep, Hold, Accept, Acknowledge;
    var w' := Do(p, w, s);
    if s.Poll? {
      PolledAreKnown(p, w, s.i, s.t1, s.t2, s.t3, s.t4);
    }
    forall i | 0 <= i < |w'.consumers| ensures HoldsKnown(w'.l, w'.consumers[i]) {
      KnownGrows(w.l, w'.l, w, i);
    }
  }

  lemma BegunIsKnown(p: Params, w: World, i: nat, m: Message, rest: seq<Message>, t: real)
    requires Good(p.queue, w.l) && i < |w.consumers| && w.l.clock <= t
    requires Known(w.l, m) && AllKnown(w.l, rest)
    ensures var w' := Begin(p, w, i, m, rest, t);
            exists c :: w'.consumers == w.consumers[i := c] && HoldsKnown(w'.l, c)
  {
    hide Good;
    var w' := Begin(p, w, i, m, rest, t);
    assert forall x :: Known(w.l, x) ==> Known(w'.l, x);
    assert HoldsKnown(w'.l, Idle(rest)) && HoldsKnown(w'.l, Upserting(m, rest, false));
  }

  lemma PolledAreKnown(p: Params, w: World, i: nat, t1: real, t2: real, t3: real, t4: real)
    requires Good(p.queue, w.l) && i < |w.consumers| && w.l.clock <= t1 <= t2 <= t3 <= t4
    ensures var w' := PollStep(p, w, i, t1, t2, t3, t4);
            || w'.consumers == w.consumers
            || exists c :: w'.consumers == w.consumers[i := c] && HoldsKnown(w'.l, c)
  {
    hide Conserved, Fifo, Told, Receive, Begin, Known;
    var (c, n) := Allowance(w.circuit, p.batch, t1);
    var l1 := At(p.queue, w.l, t1);
    var ms := Receive(p.queue, l1.q, n, None, t2, t3).1;
    ReceivedAreKnown(p.queue, l1, n, t2, t3);
    if n != 0 && ms != [] {
      var w1 := w.(l := Collect(p.queue, l1, n, None, t2, t3), circuit := c,
                   holder := if c.probing then i else w.holder);
      BegunIsKnown(p, w1, i, ms[0], ms[1..], t4);
    }
  }

  // ---- the stores ---------------------------------------------------------

  ghost predicate Stored(t: Table, e: Event) {
    e.event_id in t && t[e.event_id] == e
  }

  /** Each document sits under its own id and is an event that was sent. */
  ghost predicate OnlySent(t: Table, l: Ledger) {
    forall k :: k in t ==> t[k].event_id == k && t[k] in l.h.sent
  }

  ghost predicate UniqueIds(l: Ledger) {
    forall i, j :: 0 <= i < j < |l.h.sent| ==> l.h.sent[i].event_id != l.h.sent[j].event_id
  }

  /** The derived index holds nothing that MongoDB lacks. */
  ghost predicate IndexWithinStore(w: World) {
    forall k :: k in w.index ==> k in w.store && w.store[k] == w.index[k]
  }

  ghost predicate Progress(w: World, c: Consumer) {
    match c
    case Idle(_) => true
    case Upserting(m, _, landed) => landed ==> Stored(w.store, m.event)
    case Indexing(m, _, landed) => Stored(w.store, m.event) && (landed ==> Stored(w.index, m.event))
  }

  ghost predicate AckedStored(w: World) {
    forall id :: id in w.l.h.acked && id < |w.l.h.sent| ==>
      Stored(w.store, w.l.h.sent[id]) && Stored(w.index, w.l.h.sent[id])
  }

  ghost predicate StoresOk(w: World) {
    && UniqueIds(w.l)
    && OnlySent(w.store, w.l)
    && IndexWithinStore(w)
    && (forall i :: 0 <= i < |w.consumers| ==> Progress(w, w.consumers[i]))
    && AckedStored(w)
    && w.processed == |w.l.h.acked|
  }

  lemma SameIdSameEvent(l: Ledger, e: Event, f: Event)
    requires UniqueIds(l) && e in l.h.sent && f in l.h.sent && e.event_id == f.event_id
    ensures e == f
  {
    var i :| 0 <= i < |l.h.sent| && l.h.sent[i] == e;
    var j :| 0 <= j < |l.h.sent| && l.h.sent[j] == f;
  }

  /** Writing a sent event over whatever its id holds loses nothing that was stored. */
  lemma RewriteIsHarmless(l: Ledger, t: Table, e: Event)
    requires UniqueIds(l) && OnlySent(t, l) && e in l.h.sent
    ensures OnlySent(t[e.event_id := e], l)
    ensures e.event_id in t ==> t[e.event_id := e] == t
  {
    if e.event_id in t {
      SameIdSameEvent(l, e, t[e.event_id]);
    }
  }

  lemma LandKeepsIndexWithin(w: World, i: nat)
    requires StoresOk(w) && ConsumersKnow(w) && Enabled(w, Lands(i))
    ensures OnlySent(LandStep(w, i).store, w.l) && IndexWithinStore(LandStep(w, i))
  {
    hide AckedStored;
    var c := w.consumers[i];
    assert HoldsKnown(w.l, c) && Progress(w, c);
    assert c.msg.event in w.l.h.sent;
    hide ConsumersKnow;
    RewriteIsHarmless(w.l, w.store, c.msg.event);
    if c.Indexing? {
      assert OnlySent(w.index, w.l);
      RewriteIsHarmless(w.l, w.index, c.msg.event);
    }
  }

  lemma LandKeepsStores(w: World, i: nat)
    requires StoresOk(w) && ConsumersKnow(w) && Enabled(w, Lands(i))
    ensures StoresOk(LandStep(w, i))
  {
    hide OnlySent, ConsumersKnow;
    var w' := LandStep(w, i);
    LandKeepsIndexWithin(w, i);
    LandKeepsStored(w, i);
    hide IndexWithinStore, UniqueIds;
    assert Progress(w, w.consumers[i]);
    forall j | 0 <= j < |w'.consumers| ensures Progress(w', w'.consumers[j]) {
      assert Progress(w, w.consumers[j]);
    }
  }

  /** What was stored before the write is stored after it. */
  lemma LandKeepsStored(w: World, i: nat)
    requires StoresOk(w) && ConsumersKnow(w) && Enabled(w, Lands(i))
    ensures forall f :: Stored(w.store, f) ==> Stored(LandStep(w, i).store, f)
    ensures forall f :: Stored(w.index, f) ==> Stored(LandStep(w, i).index, f)
  {
    hide AckedStored;
    var c := w.consumers[i];
    var e := c.msg.event;
    assert HoldsKnown(w.l, c) && Progress(w, c) && e in w.l.h.sent;
    RewriteIsHarmless(w.l, w.store, e);
    if c.Indexing? {
      assert OnlySent(w.index, w.l);
      RewriteIsHarmless(w.l, w.index, e);
    }
  }

  lemma LoanIsOfWhatWasSent(cfg: Config, l: Ledger, m: Message)
    requires Good(cfg, l) && Known(l, m) && m.handle in l.q.inflight
    ensures l.q.inflight[m.handle] < |l.h.sent| && l.h.sent[l.q.inflight[m.handle]] == m.event
  {
    hide Conserved, Fifo, Valid;
  }

  lemma FinishKeepsStores(p: Params, w: World, i: nat)
    requires Good(p.queue, w.l) && StoresOk(w) && ConsumersKnow(w)
    requires i < |w.consumers| && w.consumers[i].Indexing? && w.consumers[i].landed
    ensures StoresOk(FinishStep(p, w, i))
  {
    hide Conserved, Fifo, Told, Valid, Known, OnlySent, IndexWithinStore, UniqueIds, Stored;
    var c, w' := w.consumers[i], FinishStep(p, w, i);
    assert HoldsKnown(w.l, c) && Progress(w, c);
    hide ConsumersKnow;
    SameStores(w, w');
    if c.msg.handle in w.l.q.inflight {
      LoanIsOfWhatWasSent(p.queue, w.l, c.msg);
      hide Good;
      AckedOneMore(w, w', w.l.q.inflight[c.msg.handle]);
    } else {
      hide Good;
      SameAcked(w, w');
    }
    forall j | 0 <= j < |w'.consumers| ensures Progress(w', w'.consumers[j]) {
      assert Progress(w, w.consumers[j]);
    }
  }

  lemma AckedOneMore(w: World, w': World, id: MsgId)
    requires AckedStored(w) && w'.store == w.store && w'.index == w.index && w'.l.h.sent == w.l.h.sent
    requires w'.l.h.acked == w.l.h.acked + {id} && id < |w.l.h.sent|
    requires Stored(w.store, w.l.h.sent[id]) && Stored(w.index, w.l.h.sent[id])
    ensures AckedStored(w')
  {
  }

  lemma SameAcked(w: World, w': World)
    requires AckedStored(w) && w'.store == w.store && w'.index == w.index
    requires w'.l.h.sent == w.l.h.sent && w'.l.h.acked == w.l.h.acked
    ensures AckedStored(w')
  {
  }

  lemma SameStores(w: World, w': World)
    requires w'.store == w.store && w'.index == w.index && w'.l.h.sent == w.l.h.sent
    requires UniqueIds(w.l) && OnlySent(w.store, w.l) && IndexWithinStore(w)
    ensures UniqueIds(w'.l) && OnlySent(w'.store, w'.l) && IndexWithinStore(w')
  {
  }

  lemma QuietKeepsStores(w: World, w': World)
    requires StoresOk(w) && Quiet(w, w')
    requires forall i :: 0 <= i < |w'.consumers| ==>
               w'.consumers[i] in w.consumers || Progress(w', w'.consumers[i])
    ensures StoresOk(w')
  {
    forall i | 0 <= i < |w'.consumers| ensures Progress(w', w'.consumers[i]) {
      if w'.consumers[i] in w.consumers {
        var j :| 0 <= j < |w.consumers| && w.consumers[j] == w'.consumers[i];
        assert Progress(w, w.consumers[j]);
      }
    }
  }

  lemma SentGrows(t: Table, l: Ledger, l': Ledger)
    requires OnlySent(t, l) && l.h.sent <= l'.h.sent
    ensures OnlySent(t, l')
  {
    assert forall e :: e in l.h.sent ==> e in l'.h.sent;
  }

  lemma ArrivalKeepsStores(w: World, w': World, e: Event)
    requires StoresOk(w) && w' == w.(l := w'.l) && w'.l.h.acked == w.l.h.acked
    requires w'.l.h.sent == w.l.h.sent + [e] && Enabled(w, Ingest(e))
    requires forall id :: id in w.l.h.acked ==> id < |w.l.h.sent|
    ensures StoresOk(w')
  {
    hide OnlySent;
    SentGrows(w.store, w.l, w'.l);
    forall i | 0 <= i < |w'.consumers| ensures Progress(w', w'.consumers[i]) {
      assert Progress(w, w.consumers[i]);
    }
  }

  lemma AckedWereSent(cfg: Config, l: Ledger)
    requires Good(cfg, l)
    ensures forall id :: id in l.h.acked ==> id < |l.h.sent|
  {
    hide Valid, Fifo, Told;
  }

  lemma IngestKeepsStores(p: Params, w: World, e: Event)
    requires Good(p.queue, w.l) && Enabled(w, Ingest(e)) && StoresOk(w)
    ensures StoresOk(Do(p, w, Ingest(e)))
  {
    hide Good, StoresOk, Enabled;
    AckedWereSent(p.queue, w.l);
    var w' := Do(p, w, Ingest(e));
    assert w' == w.(l := w'.l);
    if w'.l.h.sent == w.l.h.sent {
      SameStoresOk(w, w');
    } else {
      ArrivalKeepsStores(w, w', e);
    }
  }

  lemma SameStoresOk(w: World, w': World)
    requires StoresOk(w) && w' == w.(l := w'.l) && w'.l.h.sent == w.l.h.sent && w'.l.h.acked == w.l.h.acked
    ensures StoresOk(w')
  {
    forall i | 0 <= i < |w'.consumers| ensures Progress(w', w'.consumers[i]) {
      assert Progress(w, w.consumers[i]);
    }
  }

  lemma StoresOkKept(p: Params, w: World, s: Step)
    requires Good(p.queue, w.l) && Enabled(w, s) && StoresOk(w) && ConsumersKnow(w)
    ensures StoresOk(Do(p, w, s))
  {
    hide Conserved, Fifo, Told, Valid, Receive, Allowance, RecordFailure, StoresOk, ConsumersKnow;
    match s
    case Ingest(e) => IngestKeepsStores(p, w, e);
    case Poll(i, t1, t2, t3, t4) =>
      FirstHeartbeatSucceeds(p, w, i, t1, t2, t3, t4);
      QuietKeepsStores(w, Do(p, w, s));
    case Next(i, t) => QuietKeepsStores(w, Do(p, w, s));
    case Lands(i) => LandKeepsStores(w, i);
    case UpsertReturns(i, ok, t1, t2, t3) =>
      UpsertReturnKeepsStores(p, w, i, ok, t1, t2, t3);
    case IndexReturns(i, ok, t1, t2, t3) =>
      if ok {
        FinishKeepsStores(p, w, i);
      } else {
        QuietKeepsStores(w, Do(p, w, s));
      }
  }

  lemma UpsertReturnKeepsStores(p: Params, w: World, i: nat, ok: bool, t1: real, t2: real, t3: real)
    requires Good(p.queue, w.l) && Enabled(w, UpsertReturns(i, ok, t1, t2, t3)) && StoresOk(w)
    ensures StoresOk(Do(p, w, UpsertReturns(i, ok, t1, t2, t3)))
  {
    hide Conserved, Fifo, Told, Valid, RecordFailure;
    assert Progress(w, w.consumers[i]);
    QuietKeepsStores(w, Do(p, w, UpsertReturns(i, ok, t1, t2, t3)));
  }
}
