/**
  The defect that lived only in the composition: a heartbeat overwriting the
  backoff that a reported failure had set. Here is why it cannot come back. No
  consumer sends a heartbeat for a delivery that it, or anyone, has reported.
 */
module PipelineBackoff {
  import opened Sequences
  import opened Models
  import opened QueueSpec
  import opened Lifecycle
  import opened Ledger
  import opened CircuitSpec
  import opened Pipeline
  import QueueRuns

  // ---- what the queue does to the record of deliveries --------------------

  /** Deliveries recorded in `l` stand unchanged in `l'`; later ones are new and unreported. */
  ghost predicate RecordExtends(l: Ledger, l': Ledger)
    requires Counted(l) && Counted(l')
  {
    && |l.h.attempts| <= |l'.h.attempts|
    && l.q.nextHandle <= l'.q.nextHandle
    && (forall id :: 0 <= id < |l.h.attempts| ==> l.h.attempts[id] <= l'.h.attempts[id])
    && (forall id, k :: 0 <= id < |l'.h.attempts| && 0 <= k < |l'.h.attempts[id]| ==>
          (id < |l.h.attempts| && k < |l.h.attempts[id]|)
          || (l'.h.attempts[id][k].reportedAt == None && l'.h.attempts[id][k].handle >= l.q.nextHandle))
  }

  lemma RecordTransitive(l: Ledger, m: Ledger, r: Ledger)
    requires Counted(l) && Counted(m) && Counted(r) && RecordExtends(l, m) && RecordExtends(m, r)
    ensures RecordExtends(l, r)
  {
  }

  lemma {:induction false} SweepKeepsRecord(cfg: Config, l: Ledger, hs: seq<Handle>)
    requires Good(cfg, l) && AllLapsed(l, hs)
    ensures RecordExtends(l, SweepLoans(cfg, l, hs))
    decreases |hs|
  {
    hide Conserved, Fifo, Told, Valid, SweepOne;
    if hs != [] {
      assert Lapsed(l, hs[0]);
      RestStillLapsed(cfg, l, hs);
      SweepKeepsRecord(cfg, SweepLoan(cfg, l, hs[0]), hs[1..]);
    }
  }

  lemma LendHeadExtends(cfg: Config, l: Ledger, deadline: real)
    requires Good(cfg, l) && l.q.visible != []
    ensures RecordExtends(l, LendHead(cfg, l, deadline))
  {
    assert EntryPlaced(cfg, l.q, l.q.visible[0]);
  }

  lemma {:induction false} LendExtendsRecord(cfg: Config, l: Ledger, n: int, deadline: real)
    requires Good(cfg, l)
    ensures RecordExtends(l, LendHeads(cfg, l, n, deadline))
    decreases |l.q.visible|
  {
    hide Conserved, Fifo, Told, Valid, LendHead, RecordExtends;
    if l.q.visible != [] && n > 0 {
      LendHeadExtends(cfg, l, deadline);
      LendShrinks(cfg, l, deadline);
      LendExtendsRecord(cfg, LendHead(cfg, l, deadline), n - 1, deadline);
      RecordTransitive(l, LendHead(cfg, l, deadline), LendHeads(cfg, l, n, deadline));
    } else {
      SameRecord(l, l);
    }
  }

  lemma LendShrinks(cfg: Config, l: Ledger, deadline: real)
    requires Good(cfg, l) && l.q.visible != []
    ensures |LendHead(cfg, l, deadline).q.visible| < |l.q.visible|
  {
  }

  lemma CollectExtendsRecord(cfg: Config, l: Ledger, n: int, t1: real, t2: real)
    requires Good(cfg, l) && l.clock <= t1 <= t2
    ensures RecordExtends(l, Collect(cfg, l, n, None, t1, t2))
  {
    hide Conserved, Fifo, Told, Valid, Counted, SweepLoans, LendHeads, RecordExtends, Expired, Sweep, LendMany;
    var l1 := At(cfg, l, t1);
    ExpiredLapsed(l1);
    SweepKeepsRecord(cfg, l1, Expired(l1.q, t1));
    var swept := At(cfg, SweepAt(cfg, l, t1), t2);
    LendExtendsRecord(cfg, swept, n, t2 + cfg.visibility);
    SameRecord(l, l1);
    SameRecord(SweepAt(cfg, l, t1), swept);
    var l' := LendHeads(cfg, swept, n, t2 + cfg.visibility);
    RecordTransitive(l, l1, SweepAt(cfg, l, t1));
    RecordTransitive(l, SweepAt(cfg, l, t1), swept);
    RecordTransitive(l, swept, l');
  }

  lemma SameRecord(l: Ledger, l': Ledger)
    requires Counted(l) && Counted(l') && l'.h == l.h && l'.q == l.q
    ensures RecordExtends(l, l')
  {
  }

  // ---- hands --------------------------------------------------------------

  function HandlesOf(ms: seq<Message>): (hs: seq<Handle>)
    ensures |hs| == |ms| && forall k :: 0 <= k < |ms| ==> hs[k] == ms[k].handle
  {
    seq(|ms|, k requires 0 <= k < |ms| => ms[k].handle)
  }

  /** The deliveries a consumer still answers for. */
  function Hand(c: Consumer): seq<Handle> {
    if c.Idle? then HandlesOf(c.rest) else [c.msg.handle] + HandlesOf(c.rest)
  }

  /** Nothing recorded about delivery `h` is a report. */
  ghost predicate Unreported(l: Ledger, h: Handle) {
    forall id, k :: 0 <= id < |l.h.attempts| && 0 <= k < |l.h.attempts[id]| && l.h.attempts[id][k].handle == h ==>
      l.h.attempts[id][k].reportedAt == None
  }

  ghost predicate HandOk(l: Ledger, hand: seq<Handle>) {
    Distinct(hand) && forall k :: 0 <= k < |hand| ==> hand[k] < l.q.nextHandle && Unreported(l, hand[k])
  }

  ghost predicate Apart(a: seq<Handle>, b: seq<Handle>) {
    forall h :: h in a ==> h !in b
  }

  /** No delivery is in two hands, and none in any hand has been reported. */
  ghost predicate HandsOk(w: World) {
    && (forall i :: 0 <= i < |w.consumers| ==> HandOk(w.l, Hand(w.consumers[i])))
    && (forall i, j :: 0 <= i < |w.consumers| && 0 <= j < |w.consumers| && i != j ==>
          Apart(Hand(w.consumers[i]), Hand(w.consumers[j])))
  }

  /** Every report recorded in `l` is still one in `l'`. */
  ghost predicate ReportsStand(l: Ledger, l': Ledger) {
    && |l.h.attempts| <= |l'.h.attempts|
    && forall id, k ::
         0 <= id < |l.h.attempts| && 0 <= k < |l.h.attempts[id]| && l.h.attempts[id][k].reportedAt.Some? ==>
         k < |l'.h.attempts[id]| && l'.h.attempts[id][k] == l.h.attempts[id][k]
  }

  /** The same delivery, with the same report if it has one. */
  predicate SameMark(a: Attempt, b: Attempt) {
    a.handle == b.handle && a.reportedAt == b.reportedAt && (a.reportedAt.Some? ==> a == b)
  }

  /** Between `l` and `l'` no report was made and none was taken back. */
  ghost predicate SameMarks(l: Ledger, l': Ledger) {
    && |l'.h.attempts| == |l.h.attempts|
    && (forall id :: 0 <= id < |l.h.attempts| ==> |l'.h.attempts[id]| == |l.h.attempts[id]|)
    && (forall id, k :: 0 <= id < |l.h.attempts| && 0 <= k < |l.h.attempts[id]| ==>
          SameMark(l.h.attempts[id][k], l'.h.attempts[id][k]))
  }

  lemma ExtensionKeepsUnreported(l: Ledger, l': Ledger, h: Handle)
    requires Counted(l) && Counted(l') && RecordExtends(l, l') && h < l.q.nextHandle && Unreported(l, h)
    ensures Unreported(l', h)
  {
  }

  lemma RecordedIsOld(cfg: Config, l: Ledger, id: MsgId, k: nat)
    requires Good(cfg, l) && id < |l.h.attempts| && k < |l.h.attempts[id]|
    ensures l.h.attempts[id][k].handle < l.q.nextHandle
  {
    assert MsgOk(cfg, l, id);
  }

  lemma NewIsUnreported(cfg: Config, l: Ledger, l': Ledger, h: Handle)
    requires Good(cfg, l) && Counted(l') && RecordExtends(l, l') && h >= l.q.nextHandle
    ensures Unreported(l', h)
  {
    forall id, k | 0 <= id < |l'.h.attempts| && 0 <= k < |l'.h.attempts[id]| && l'.h.attempts[id][k].handle == h
      ensures l'.h.attempts[id][k].reportedAt == None
    {
      if id < |l.h.attempts| && k < |l.h.attempts[id]| {
        RecordedIsOld(cfg, l, id, k);
      }
    }
  }

  // ---- heartbeats and reports ---------------------------------------------

  /** The last delivery of a message on loan is the one under its live handle. */
  lemma LoanIsLastDelivery(cfg: Config, l: Ledger, h: Handle)
    requires Good(cfg, l) && h in l.q.inflight
    ensures var id := l.q.inflight[h];
            && id in l.q.entries && id < |l.h.attempts| && l.h.attempts[id] != []
            && l.q.entries[id].receiveCount == |l.h.attempts[id]|
            && l.h.attempts[id][|l.h.attempts[id]| - 1].handle == h
  {
    hide Conserved, Fifo, TimesOk;
    var id := l.q.inflight[h];
    assert LoanPlaced(l.q, h) && EntryPlaced(cfg, l.q, id) && MsgOk(cfg, l, id);
    assert LifeOf(l, id).place.handle == h;
  }

  /** A heartbeat for an unreported delivery makes no report and takes none back. */
  lemma HeartbeatKeepsMarks(cfg: Config, l: Ledger, h: Handle, seconds: real)
    requires Good(cfg, l) && Unreported(l, h)
    ensures SameMarks(l, Hold(cfg, l, h, Some(seconds)))
  {
    if h in l.q.inflight {
      LoanIsLastDelivery(cfg, l, h);
    }
    hide Good;
  }

  /** A report concerns the one delivery that is on loan under its handle. */
  lemma ReportTouchesOne(cfg: Config, l: Ledger, h: Handle, other: Handle)
    requires Good(cfg, l) && other != h && Unreported(l, other)
    ensures Unreported(Hold(cfg, l, h, None), other)
  {
    if h in l.q.inflight {
      LoanIsLastDelivery(cfg, l, h);
      var id := l.q.inflight[h];
      var a, l' := l.h.attempts[id], Hold(cfg, l, h, None);
      MarkTouchesLast(a, l'.h.attempts[id], h, other);
      hide Good;
    }
  }

  lemma MarkTouchesLast(a: seq<Attempt>, b: seq<Attempt>, h: Handle, other: Handle)
    requires a != [] && |b| == |a| && a[|a| - 1].handle == b[|a| - 1].handle == h != other
    requires forall k :: 0 <= k < |a| - 1 ==> b[k] == a[k]
    requires forall k :: 0 <= k < |a| && a[k].handle == other ==> a[k].reportedAt == None
    ensures forall k :: 0 <= k < |b| && b[k].handle == other ==> b[k].reportedAt == None
  {
  }

  lemma ReportStands(cfg: Config, l: Ledger, h: Handle)
    requires Good(cfg, l) && Unreported(l, h)
    ensures ReportsStand(l, Hold(cfg, l, h, None))
  {
    if h in l.q.inflight {
      LoanIsLastDelivery(cfg, l, h);
    }
    hide Good;
  }

  lemma HoldKeepsHandles(cfg: Config, l: Ledger, h: Handle, seconds: Option<real>)
    requires Good(cfg, l)
    ensures Hold(cfg, l, h, seconds).q.nextHandle == l.q.nextHandle
  {
    hide Conserved, Fifo, Told;
    if h in l.q.inflight {
      assert LoanPlaced(l.q, h) && EntryPlaced(cfg, l.q, l.q.inflight[h]);
    }
  }

  // ---- every step keeps the hands apart -----------------------------------

  /** Only consumer `i` changed hands, and what the others hold is still unreported. */
  ghost predicate OneHandChanges(w: World, w': World, i: nat) {
    && |w'.consumers| == |w.consumers| && i < |w.consumers|
    && (forall j :: 0 <= j < |w.consumers| && j != i ==> w'.consumers[j] == w.consumers[j])
    && (forall j :: 0 <= j < |w.consumers| && j != i ==> HandOk(w'.l, Hand(w.consumers[j])))
    && HandOk(w'.l, Hand(w'.consumers[i]))
    && (forall j :: 0 <= j < |w.consumers| && j != i ==> Apart(Hand(w'.consumers[i]), Hand(w.consumers[j])))
  }

  lemma HandsAfter(w: World, w': World, i: nat)
    requires HandsOk(w) && OneHandChanges(w, w', i)
    ensures HandsOk(w')
  {
    hide HandOk, Hand;
    forall j, k | 0 <= j < |w'.consumers| && 0 <= k < |w'.consumers| && j != k
      ensures Apart(Hand(w'.consumers[j]), Hand(w'.consumers[k]))
    {
      if j != i && k != i {
        assert Apart(Hand(w.consumers[j]), Hand(w.consumers[k]));
      } else if j == i {
        assert Apart(Hand(w'.consumers[i]), Hand(w.consumers[k]));
      } else {
        assert Apart(Hand(w'.consumers[i]), Hand(w.consumers[j]));
      }
    }
  }

  lemma SameMarksSameHand(l: Ledger, l': Ledger, hand: seq<Handle>)
    requires HandOk(l, hand) && SameMarks(l, l') && l.q.nextHandle <= l'.q.nextHandle
    ensures HandOk(l', hand)
  {
    hide SameMarks;
    forall k | 0 <= k < |hand| ensures Unreported(l', hand[k]) {
      SameMarksUnreported(l, l', hand[k]);
    }
  }

  lemma SameMarksUnreported(l: Ledger, l': Ledger, h: Handle)
    requires Unreported(l, h) && SameMarks(l, l')
    ensures Unreported(l', h)
  {
    forall id, k | 0 <= id < |l'.h.attempts| && 0 <= k < |l'.h.attempts[id]| && l'.h.attempts[id][k].handle == h
      ensures l'.h.attempts[id][k].reportedAt == None
    {
      assert SameMark(l.h.attempts[id][k], l'.h.attempts[id][k]);
    }
  }

  lemma SameHistorySameMarks(l: Ledger, l': Ledger)
    requires l'.h.attempts == l.h.attempts
    ensures SameMarks(l, l')
  {
  }

  lemma ExtendedRecordSameHand(l: Ledger, l': Ledger, hand: seq<Handle>)
    requires HandOk(l, hand) && Counted(l) && Counted(l') && RecordExtends(l, l')
    ensures HandOk(l', hand)
  {
    hide RecordExtends;
    forall k | 0 <= k < |hand| ensures hand[k] < l'.q.nextHandle && Unreported(l', hand[k]) {
      ExtensionKeepsUnreported(l, l', hand[k]);
      NextHandleGrows(l, l');
    }
  }

  lemma NextHandleGrows(l: Ledger, l': Ledger)
    requires Counted(l) && Counted(l') && RecordExtends(l, l')
    ensures l.q.nextHandle <= l'.q.nextHandle
  {
  }

  lemma TailOfSequence(x: Handle, tail: seq<Handle>)
    requires Distinct([x] + tail)
    ensures Distinct(tail) && x !in tail
    ensures forall h :: h in tail ==> h in [x] + tail
  {
    var whole := [x] + tail;
    assert forall k :: 0 <= k < |tail| ==> tail[k] == whole[k + 1];
    assert whole[0] == x;
  }

  lemma TailOfHand(l: Ledger, m: Message, rest: seq<Message>)
    requires HandOk(l, [m.handle] + HandlesOf(rest))
    ensures HandOk(l, HandlesOf(rest))
    ensures forall h :: h in HandlesOf(rest) ==> h in [m.handle] + HandlesOf(rest)
    ensures m.handle !in HandlesOf(rest)
  {
    hide HandlesOf, Unreported, Distinct;
    var tail := HandlesOf(rest);
    TailOfSequence(m.handle, tail);
    forall k | 0 <= k < |tail| ensures tail[k] < l.q.nextHandle && Unreported(l, tail[k]) {
      assert ([m.handle] + tail)[k + 1] == tail[k];
    }
  }

  /** The heartbeat, sent for an unreported delivery, changes nothing that was recorded. */
  lemma BeginKeepsHands(p: Params, w: World, i: nat, m: Message, rest: seq<Message>, t: real)
    requires Good(p.queue, w.l) && i < |w.consumers| && w.l.clock <= t
    requires HandOk(w.l, [m.handle] + HandlesOf(rest))
    requires forall j :: 0 <= j < |w.consumers| && j != i ==>
               HandOk(w.l, Hand(w.consumers[j])) && Apart([m.handle] + HandlesOf(rest), Hand(w.consumers[j]))
    ensures var w' := Begin(p, w, i, m, rest, t);
            OneHandChanges(w, w', i) && SameMarks(w.l, w'.l)
  {
    hide Good, HandsOk, HandOk, HandlesOf, SameMarks;
    var w' := Begin(p, w, i, m, rest, t);
    HandHead(w.l, m, rest);
    SameUnreported(w.l, At(p.queue, w.l, t), m.handle);
    HeartbeatKeepsMarks(p.queue, At(p.queue, w.l, t), m.handle, p.visibility);
    HoldKeepsHandles(p.queue, At(p.queue, w.l, t), m.handle, Some(p.visibility));
    SameMarksFrom(w.l, At(p.queue, w.l, t), w'.l);
    TailOfHand(w.l, m, rest);
    SameMarksSameHand(w.l, w'.l, [m.handle] + HandlesOf(rest));
    SameMarksSameHand(w.l, w'.l, HandlesOf(rest));
    forall j | 0 <= j < |w.consumers| && j != i ensures HandOk(w'.l, Hand(w.consumers[j])) {
      SameMarksSameHand(w.l, w'.l, Hand(w.consumers[j]));
    }
  }

  lemma SameMarksFrom(l: Ledger, m: Ledger, r: Ledger)
    requires m.h == l.h && (SameMarks(m, r) || r.h == m.h)
    ensures SameMarks(l, r)
  {
  }

  lemma HandHead(l: Ledger, m: Message, rest: seq<Message>)
    requires HandOk(l, [m.handle] + HandlesOf(rest))
    ensures Unreported(l, m.handle)
  {
    assert ([m.handle] + HandlesOf(rest))[0] == m.handle;
  }

  lemma SameUnreported(l: Ledger, l': Ledger, h: Handle)
    requires Unreported(l, h) && l'.h == l.h
    ensures Unreported(l', h)
  {
  }

  lemma WholeHand(ms: seq<Message>)
    requires ms != []
    ensures HandlesOf(ms) == [ms[0].handle] + HandlesOf(ms[1..])
  {
  }

  lemma NextKeepsHands(p: Params, w: World, i: nat, t: real)
    requires Good(p.queue, w.l) && Enabled(w, Next(i, t)) && HandsOk(w)
    ensures HandsOk(Do(p, w, Next(i, t))) && SameMarks(w.l, Do(p, w, Next(i, t)).l)
  {
    hide Good, HandOk, HandlesOf, OneHandChanges, SameMarks;
    var rest := w.consumers[i].rest;
    WholeHand(rest);
    BeginKeepsHands(p, w, i, rest[0], rest[1..], t);
    HandsAfter(w, Do(p, w, Next(i, t)), i);
  }

  /** A received batch is a hand of new deliveries. */
  lemma NewHand(cfg: Config, l: Ledger, n: int, t1: real, t2: real)
    requires Good(cfg, l) && l.clock <= t1 <= t2
    ensures var l' := Collect(cfg, l, n, None, t1, t2);
            var ms := Receive(cfg, l.q, n, None, t1, t2).1;
            && HandOk(l', HandlesOf(ms))
            && forall h :: h in HandlesOf(ms) ==> h >= l.q.nextHandle
  {
    hide Conserved, Fifo, Told, Valid, Sweep, SweepAll, LendMany, RecordExtends, Unreported, Expired;
    var l', ms := Collect(cfg, l, n, None, t1, t2), Receive(cfg, l.q, n, None, t1, t2).1;
    CollectReceives(cfg, l, n, None, t1, t2);
    SweepIsSweepAll(cfg, l.q, t1);
    QueueRuns.SweepAllTakes(cfg, l.q, Expired(l.q, t1));
    QueueRuns.LendManyAdds(cfg, Sweep(cfg, l.q, t1), n, t2 + cfg.visibility);
    CollectExtendsRecord(cfg, l, n, t1, t2);
    forall k | 0 <= k < |ms| ensures Unreported(l', HandlesOf(ms)[k]) {
      NewIsUnreported(cfg, l, l', ms[k].handle);
    }
  }

  lemma OldAndNewApart(l: Ledger, new_: seq<Handle>, old_: seq<Handle>)
    requires HandOk(l, old_) && forall h :: h in new_ ==> h >= l.q.nextHandle
    ensures Apart(new_, old_)
  {
  }

  lemma PollKeepsHands(p: Params, w: World, i: nat, t1: real, t2: real, t3: real, t4: real)
    requires Good(p.queue, w.l) && Enabled(w, Poll(i, t1, t2, t3, t4)) && HandsOk(w)
    ensures var w' := PollStep(p, w, i, t1, t2, t3, t4);
            HandsOk(w') && ReportsStand(w.l, w'.l)
  {
    hide Conserved, Fifo, Told, Valid, Receive, Collect, Begin, HandOk, HandlesOf, RecordExtends, OneHandChanges,
         SameMarks, ReportsStand;
    var w' := PollStep(p, w, i, t1, t2, t3, t4);
    var (c, n) := Allowance(w.circuit, p.batch, t1);
    var l1 := At(p.queue, w.l, t1);
    SameRecord(w.l, l1);
    if n == 0 {
      SameRecordHands(w, w');
      ExtensionKeepsReports(w.l, l1);
    } else {
      var l2 := Collect(p.queue, l1, n, None, t2, t3);
      var ms := Receive(p.queue, l1.q, n, None, t2, t3).1;
      CollectExtendsRecord(p.queue, l1, n, t2, t3);
      RecordTransitive(w.l, l1, l2);
      ExtensionKeepsReports(w.l, l2);
      NewHand(p.queue, l1, n, t2, t3);
      forall j | 0 <= j < |w.consumers|
        ensures HandOk(l2, Hand(w.consumers[j])) && Apart(HandlesOf(ms), Hand(w.consumers[j]))
      {
        ExtendedRecordSameHand(w.l, l2, Hand(w.consumers[j]));
        OldAndNewApart(w.l, HandlesOf(ms), Hand(w.consumers[j]));
      }
      if ms != [] {
        var w1 := w.(l := l2, circuit := c, holder := if c.probing then i else w.holder);
        WholeHand(ms);
        BeginKeepsHands(p, w1, i, ms[0], ms[1..], t4);
        MarksKeepReports(w.l, l2, w'.l);
        OneHandLater(w, w1, w', i);
        HandsAfter(w, w', i);
      }
    }
  }

  lemma OneHandLater(w: World, w1: World, w': World, i: nat)
    requires w1.consumers == w.consumers && OneHandChanges(w1, w', i)
    ensures OneHandChanges(w, w', i)
  {
  }

  lemma MarksKeepReports(l: Ledger, m: Ledger, r: Ledger)
    requires ReportsStand(l, m) && SameMarks(m, r)
    ensures ReportsStand(l, r)
  {
    forall id, k | 0 <= id < |l.h.attempts| && 0 <= k < |l.h.attempts[id]| && l.h.attempts[id][k].reportedAt.Some?
      ensures k < |r.h.attempts[id]| && r.h.attempts[id][k] == l.h.attempts[id][k]
    {
      assert m.h.attempts[id][k] == l.h.attempts[id][k];
      assert SameMark(m.h.attempts[id][k], r.h.attempts[id][k]);
    }
  }

  lemma SameRecordHands(w: World, w': World)
    requires HandsOk(w) && w'.consumers == w.consumers
    requires w'.l.h.attempts == w.l.h.attempts && w.l.q.nextHandle <= w'.l.q.nextHandle
    ensures HandsOk(w')
  {
    hide HandOk, Hand, SameMarks;
    SameHistorySameMarks(w.l, w'.l);
    forall i | 0 <= i < |w'.consumers| ensures HandOk(w'.l, Hand(w'.consumers[i])) {
      SameMarksSameHand(w.l, w'.l, Hand(w.consumers[i]));
    }
  }

  lemma FailKeepsHands(p: Params, w: World, i: nat, t1: real, t2: real, t3: real)
    requires Good(p.queue, w.l) && i < |w.consumers| && !w.consumers[i].Idle? && w.l.clock <= t1 <= t2 <= t3
    requires HandsOk(w)
    ensures var w' := FailStep(p, w, i, t1, t2, t3);
            HandsOk(w') && ReportsStand(w.l, w'.l)
  {
    hide Good, HandlesOf, RecordFailure, Unreported, ReportsStand;
    var w', l := FailStep(p, w, i, t1, t2, t3), At(p.queue, w.l, t3);
    var c := w.consumers[i];
    var h := c.msg.handle;
    HandHead(w.l, c.msg, c.rest);
    SameUnreported(w.l, l, h);
    ReportStands(p.queue, l, h);
    SameReports(w.l, l, w'.l);
    TailOfHand(w.l, c.msg, c.rest);
    ReportedHand(p.queue, w.l, l, h, HandlesOf(c.rest));
    forall j | 0 <= j < |w.consumers| && j != i
      ensures HandOk(w'.l, Hand(w.consumers[j])) && Apart(HandlesOf(c.rest), Hand(w.consumers[j]))
    {
      assert Apart(Hand(c), Hand(w.consumers[j]));
      assert h in Hand(c);
      ReportedHand(p.queue, w.l, l, h, Hand(w.consumers[j]));
    }
    HandsAfter(w, w', i);
  }

  lemma SameReports(l: Ledger, m: Ledger, r: Ledger)
    requires m.h == l.h && ReportsStand(m, r)
    ensures ReportsStand(l, r)
  {
  }

  lemma ReportedHand(cfg: Config, l: Ledger, later: Ledger, h: Handle, hand: seq<Handle>)
    requires Good(cfg, later) && later.h == l.h && later.q == l.q && HandOk(l, hand) && h !in hand
    ensures HandOk(Hold(cfg, later, h, None), hand)
  {
    hide Good, Hold;
    HoldKeepsHandles(cfg, later, h, None);
    forall k | 0 <= k < |hand| ensures Unreported(Hold(cfg, later, h, None), hand[k]) {
      SameUnreported(l, later, hand[k]);
      ReportTouchesOne(cfg, later, h, hand[k]);
    }
  }

  lemma FinishKeepsHands(p: Params, w: World, i: nat)
    requires Good(p.queue, w.l) && i < |w.consumers| && w.consumers[i].Indexing? && HandsOk(w)
    ensures HandsOk(FinishStep(p, w, i)) && FinishStep(p, w, i).l.h.attempts == w.l.h.attempts
  {
    hide Conserved, Fifo, Told, Valid, HandlesOf, Unreported, HandOk, SameMarks;
    var w', c := FinishStep(p, w, i), w.consumers[i];
    SameHistorySameMarks(w.l, w'.l);
    TailOfHand(w.l, c.msg, c.rest);
    SameMarksSameHand(w.l, w'.l, HandlesOf(c.rest));
    forall j | 0 <= j < |w.consumers| && j != i
      ensures HandOk(w'.l, Hand(w.consumers[j])) && Apart(HandlesOf(c.rest), Hand(w.consumers[j]))
    {
      assert Apart(Hand(c), Hand(w.consumers[j]));
      SameMarksSameHand(w.l, w'.l, Hand(w.consumers[j]));
    }
    HandsAfter(w, w', i);
  }

  /** A consumer moves on with the same hand. */
  lemma SameHandsKept(w: World, w': World)
    requires HandsOk(w) && w'.l == w.l && |w'.consumers| == |w.consumers|
    requires forall j :: 0 <= j < |w.consumers| ==> Hand(w'.consumers[j]) == Hand(w.consumers[j])
    ensures HandsOk(w')
  {
    hide HandOk, Hand;
  }

  lemma IngestKeepsHands(p: Params, w: World, e: Event)
    requires Good(p.queue, w.l) && Enabled(w, Ingest(e)) && HandsOk(w)
    ensures var w' := Do(p, w, Ingest(e));
            HandsOk(w') && Counted(w.l) && Counted(w'.l) && RecordExtends(w.l, w'.l)
  {
    hide Conserved, Fifo, Told, Valid, HandOk, Hand, HandlesOf;
    var w' := Do(p, w, Ingest(e));
    assert RecordExtends(w.l, w'.l);
    forall i | 0 <= i < |w'.consumers| ensures HandOk(w'.l, Hand(w'.consumers[i])) {
      ExtendedRecordSameHand(w.l, w'.l, Hand(w.consumers[i]));
    }
  }

  lemma ExtensionKeepsReports(l: Ledger, l': Ledger)
    requires Counted(l) && Counted(l') && RecordExtends(l, l')
    ensures ReportsStand(l, l')
  {
  }

  lemma SameMarksKeepReports(l: Ledger, l': Ledger)
    requires SameMarks(l, l')
    ensures ReportsStand(l, l')
  {
    forall id, k | 0 <= id < |l.h.attempts| && 0 <= k < |l.h.attempts[id]| && l.h.attempts[id][k].reportedAt.Some?
      ensures k < |l'.h.attempts[id]| && l'.h.attempts[id][k] == l.h.attempts[id][k]
    {
      assert SameMark(l.h.attempts[id][k], l'.h.attempts[id][k]);
    }
  }

  lemma SameHistoryKeepsReports(l: Ledger, l': Ledger)
    requires l'.h.attempts == l.h.attempts
    ensures ReportsStand(l, l')
  {
  }

  /**
    A reported failure is never overwritten: whatever step any consumer takes,
    every report on record stays on record, and the hands stay apart. So the
    backoff that `fail` sets is the wait that the message gets.
   */
  lemma ReportsAreNeverOverwritten(p: Params, w: World, s: Step)
    requires Good(p.queue, w.l) && Enabled(w, s) && HandsOk(w)
    ensures HandsOk(Do(p, w, s)) && ReportsStand(w.l, Do(p, w, s).l)
  {
    hide Conserved, Fifo, Told, Valid, HandsOk, ReportsStand, RecordExtends, SameMarks,
         Begin, PollStep, FailStep, FinishStep, HandlesOf;
    var w' := Do(p, w, s);
    match s
    case Ingest(e) =>
      IngestKeepsHands(p, w, e);
      ExtensionKeepsReports(w.l, w'.l);
    case Poll(i, t1, t2, t3, t4) =>
      PollKeepsHands(p, w, i, t1, t2, t3, t4);
    case Next(i, t) =>
      NextKeepsHands(p, w, i, t);
      SameMarksKeepReports(w.l, w'.l);
    case Lands(i) =>
      SameHandsKept(w, w');
      SameHistoryKeepsReports(w.l, w'.l);
    case UpsertReturns(i, ok, t1, t2, t3) =>
      if ok {
        SameHandsKept(w, w');
        SameHistoryKeepsReports(w.l, w'.l);
      } else {
        FailKeepsHands(p, w, i, t1, t2, t3);
      }
    case IndexReturns(i, ok, t1, t2, t3) =>
      if ok {
        FinishKeepsHands(p, w, i);
        SameHistoryKeepsReports(w.l, w'.l);
      } else {
        FailKeepsHands(p, w, i, t1, t2, t3);
      }
  }

  lemma StartHandsOk(p: Params)
    ensures HandsOk(Start(p))
  {
  }

  // ---- what the two verbs set ---------------------------------------------

  /** A message's window starts when work on it starts: the heartbeat claims all of it. */
  lemma WorkStartsWithAFullWindow(p: Params, w: World, i: nat, m: Message, rest: seq<Message>, t: real)
    requires Good(p.queue, w.l) && i < |w.consumers| && w.l.clock <= t
    ensures var w' := Begin(p, w, i, m, rest, t);
            if m.handle in w.l.q.inflight then
              && w'.consumers[i] == Upserting(m, rest, false)
              && m.handle in w'.l.q.inflight && w'.l.q.inflight[m.handle] in w'.l.q.entries
              && w'.l.q.entries[w'.l.q.inflight[m.handle]].deadline == t + p.visibility
            else w'.consumers[i] == Idle(rest) && w'.l.q == w.l.q
  {
    hide Conserved, Fifo, Told;
    if m.handle in w.l.q.inflight {
      assert LoanPlaced(w.l.q, m.handle);
    }
  }

  /**
    A failed store call is reported: the delivery is marked with the time of
    the report, and the message waits from then for the backoff of its count.
   */
  lemma FailureIsReported(p: Params, w: World, i: nat, t1: real, t2: real, t3: real)
    requires Good(p.queue, w.l) && i < |w.consumers| && !w.consumers[i].Idle? && w.l.clock <= t1 <= t2 <= t3
    requires w.consumers[i].msg.handle in w.l.q.inflight
    ensures var h := w.consumers[i].msg.handle;
            var id := w.l.q.inflight[h];
            var l' := FailStep(p, w, i, t1, t2, t3).l;
            && id in w.l.q.entries && w.l.q.entries[id].receiveCount >= 1
            && h in l'.q.inflight && l'.q.inflight[h] == id && id in l'.q.entries
            && l'.q.entries[id].deadline == t3 + Backoff(p.queue, w.l.q.entries[id].receiveCount)
            && id < |l'.h.attempts| && l'.h.attempts[id] != []
            && var last := l'.h.attempts[id][|l'.h.attempts[id]| - 1];
               last.handle == h && last.reportedAt == Some(t3) && last.until == l'.q.entries[id].deadline
  {
    hide RecordFailure, Backoff;
    LoanIsLastDelivery(p.queue, w.l, w.consumers[i].msg.handle);
    assert EntryPlaced(p.queue, w.l.q, w.l.q.inflight[w.consumers[i].msg.handle]);
    hide Valid, Told, Conserved, Fifo;
  }
}
