/**
  Whole runs of the queue: any finite sequence of its verbs, with a clock that
  never goes back. No `clear`, which is a demo affordance outside the port.
 */
module QueueRuns {
  import opened Sequences
  import opened Models
  import opened QueueSpec
  import opened Lifecycle
  import opened Ledger

  // ---- what one receive does to the loans ---------------------------------

  /** The loan under `h` is in `q'` exactly as it was in `q`. */
  ghost predicate SameLoan(q: Queue, q': Queue, h: Handle)
    requires h in q.inflight && q.inflight[h] in q.entries
  {
    && h in q'.inflight && q'.inflight[h] == q.inflight[h]
    && q.inflight[h] in q'.entries && q'.entries[q.inflight[h]] == q.entries[q.inflight[h]]
  }

  lemma {:induction false} SweepAllSpares(cfg: Config, q: Queue, hs: seq<Handle>, h: Handle)
    requires Valid(cfg, q) && AllLent(q, hs) && h in q.inflight && h !in hs
    ensures q.inflight[h] in q.entries && SameLoan(q, SweepAll(cfg, q, hs), h)
    decreases |hs|
  {
    assert LoanPlaced(q, h);
    if hs != [] {
      assert LoanPlaced(q, hs[0]);
      SweepAllUnfolds(cfg, q, hs);
      SweepAllSpares(cfg, SweepOne(cfg, q, hs[0]), hs[1..], h);
    }
  }

  lemma {:induction false} SweepAllTakes(cfg: Config, q: Queue, hs: seq<Handle>)
    requires Valid(cfg, q) && AllLent(q, hs)
    ensures SweepAll(cfg, q, hs).nextHandle == q.nextHandle
    ensures forall h :: h in SweepAll(cfg, q, hs).inflight ==> h in q.inflight && h !in hs
    decreases |hs|
  {
    if hs != [] {
      SweepAllUnfolds(cfg, q, hs);
      SweepAllTakes(cfg, SweepOne(cfg, q, hs[0]), hs[1..]);
    }
  }

  lemma {:induction false} LendManySpares(cfg: Config, q: Queue, n: int, deadline: real, h: Handle)
    requires Valid(cfg, q) && h in q.inflight
    ensures q.inflight[h] in q.entries && SameLoan(q, LendMany(cfg, q, n, deadline).0, h)
    decreases |q.visible|
  {
    assert LoanPlaced(q, h);
    if q.visible != [] && n > 0 {
      LendManySpares(cfg, LendOne(cfg, q, deadline).0, n - 1, deadline, h);
    }
  }

  lemma {:induction false} LendManyAdds(cfg: Config, q: Queue, n: int, deadline: real)
    requires Valid(cfg, q)
    ensures var (q', ms) := LendMany(cfg, q, n, deadline);
            && q'.nextHandle == q.nextHandle + |ms|
            && (forall h :: h in q'.inflight ==> h in q.inflight || q.nextHandle <= h)
            && (forall i :: 0 <= i < |ms| ==> ms[i].handle == q.nextHandle + i)
    decreases |q.visible|
  {
    hide Valid;
    if q.visible != [] && n > 0 {
      LendManyAdds(cfg, LendOne(cfg, q, deadline).0, n - 1, deadline);
    }
  }

  /** Every message handed out is on loan under its handle, with its own event. */
  lemma {:induction false} LendManyMessages(cfg: Config, q: Queue, n: int, deadline: real, i: nat)
    requires Valid(cfg, q) && i < |LendMany(cfg, q, n, deadline).1|
    ensures var (q', ms) := LendMany(cfg, q, n, deadline);
            && ms[i].handle in q'.inflight
            && q'.inflight[ms[i].handle] in q'.entries
            && var e := q'.entries[q'.inflight[ms[i].handle]];
               e.event == ms[i].event && e.receiveCount == ms[i].receiveCount && e.deadline == deadline
    decreases |q.visible|
  {
    hide Valid;
    var (q1, m) := LendOne(cfg, q, deadline);
    if i == 0 {
      LendManySpares(cfg, q1, n - 1, deadline, m.handle);
    } else {
      LendManyMessages(cfg, q1, n - 1, deadline, i - 1);
    }
  }

  /**
    Lease safety of one receive: a loan whose deadline lies ahead survives it
    untouched, and every loan that has run out is withdrawn by it.
   */
  lemma ReceiveRespectsLeases(cfg: Config, q: Queue, n: int, vt: Option<real>, t1: real, t2: real, h: Handle)
    requires Valid(cfg, q) && h in q.inflight
    ensures q.inflight[h] in q.entries
    ensures var q' := Receive(cfg, q, n, vt, t1, t2).0;
            if IsExpired(q, h, t1) then h !in q'.inflight else SameLoan(q, q', h)
  {
    hide LendMany, SweepAll;
    var hs := Expired(q, t1);
    var swept, d := Sweep(cfg, q, t1), t2 + if vt.Some? then vt.value else cfg.visibility;
    assert LoanPlaced(q, h);
    assert h in hs <==> IsExpired(q, h, t1);
    hide Valid, Expired;
    SweepAllTakes(cfg, q, hs);
    LendManyAdds(cfg, swept, n, d);
    if !IsExpired(q, h, t1) {
      SweepAllSpares(cfg, q, hs, h);
      LendManySpares(cfg, swept, n, d, h);
    }
  }

  lemma {:induction false} SweepAllOnlyRemoves(cfg: Config, q: Queue, hs: seq<Handle>)
    requires Valid(cfg, q) && AllLent(q, hs)
    ensures forall id :: id in SweepAll(cfg, q, hs).entries ==> id in q.entries
    decreases |hs|
  {
    hide SweepOne, Valid;
    if hs != [] {
      SweepAllUnfolds(cfg, q, hs);
      SweepOneOnlyRemoves(cfg, q, hs[0]);
      SweepAllOnlyRemoves(cfg, SweepOne(cfg, q, hs[0]), hs[1..]);
    }
  }

  lemma SweepOneOnlyRemoves(cfg: Config, q: Queue, h: Handle)
    requires Valid(cfg, q) && h in q.inflight
    ensures forall id :: id in SweepOne(cfg, q, h).entries ==> id in q.entries
  {
    assert LoanPlaced(q, h);
  }

  lemma {:induction false} LendManySameIds(cfg: Config, q: Queue, n: int, deadline: real)
    requires Valid(cfg, q)
    ensures forall id :: id in LendMany(cfg, q, n, deadline).0.entries <==> id in q.entries
    decreases |q.visible|
  {
    if q.visible != [] && n > 0 {
      LendManySameIds(cfg, LendOne(cfg, q, deadline).0, n - 1, deadline);
    }
  }

  /** No receive returns a message before its current deadline, however often that was extended. */
  lemma NoEarlyRedelivery(cfg: Config, q: Queue, n: int, vt: Option<real>, t1: real, t2: real, k: nat)
    requires Valid(cfg, q) && k < |Receive(cfg, q, n, vt, t1, t2).1|
    ensures var (q', ms) := Receive(cfg, q, n, vt, t1, t2);
            && ms[k].handle in q'.inflight
            && var id := q'.inflight[ms[k].handle];
               id in q.entries && (q.entries[id].handle.Some? ==> q.entries[id].deadline <= t1)
  {
    hide LendMany, SweepAll;
    var swept, d := Sweep(cfg, q, t1), t2 + if vt.Some? then vt.value else cfg.visibility;
    LendManyMessages(cfg, swept, n, d, k);
    LendManyAdds(cfg, swept, n, d);
    LendManySameIds(cfg, swept, n, d);
    SweepAllTakes(cfg, q, Expired(q, t1));
    SweepAllOnlyRemoves(cfg, q, Expired(q, t1));
    var q' := LendMany(cfg, swept, n, d).0;
    var h := LendMany(cfg, swept, n, d).1[k].handle;
    var id := q'.inflight[h];
    assert EntryPlaced(cfg, q, id);
    if q.entries[id].handle.Some? {
      OldLoanLapsed(cfg, q, n, vt, t1, t2, q.entries[id].handle.value, h);
    }
  }

  /** A delivered message has the whole processing window, counted from the delivery. */
  lemma WindowIsGranted(cfg: Config, q: Queue, n: int, vt: Option<real>, t1: real, t2: real, k: nat)
    requires Valid(cfg, q) && k < |Receive(cfg, q, n, vt, t1, t2).1|
    ensures var (q', ms) := Receive(cfg, q, n, vt, t1, t2);
            && ms[k].handle in q'.inflight && q'.inflight[ms[k].handle] in q'.entries
            && var e := q'.entries[q'.inflight[ms[k].handle]];
               && e.deadline == t2 + (if vt.Some? then vt.value else cfg.visibility)
               && e.event == ms[k].event && e.receiveCount == ms[k].receiveCount
  {
    hide LendMany, Sweep;
    LendManyMessages(cfg, Sweep(cfg, q, t1), n, t2 + if vt.Some? then vt.value else cfg.visibility, k);
  }

  /**
    A heartbeat of `seconds` holds the loan for exactly that long: no receive
    touches it sooner, and the first one from then on withdraws it.
   */
  lemma HeartbeatHoldsTheLoan(
    cfg: Config, q: Queue, h: Handle, seconds: real, now: real, n: int, vt: Option<real>, t1: real, t2: real)
    requires Valid(cfg, q) && h in q.inflight
    ensures var q1 := ChangeVisibility(cfg, q, h, seconds, now).0;
            var q2 := Receive(cfg, q1, n, vt, t1, t2).0;
            && h in q1.inflight && q1.inflight[h] in q1.entries
            && if t1 < now + seconds then SameLoan(q1, q2, h) else h !in q2.inflight
  {
    hide Receive;
    assert LoanPlaced(q, h);
    ReceiveRespectsLeases(cfg, ChangeVisibility(cfg, q, h, seconds, now).0, n, vt, t1, t2, h);
  }

  /** A reported failure holds the message for exactly its backoff. */
  lemma FailureHoldsForTheBackoff(
    cfg: Config, q: Queue, h: Handle, now: real, n: int, vt: Option<real>, t1: real, t2: real)
    requires Valid(cfg, q) && h in q.inflight
    ensures q.inflight[h] in q.entries && q.entries[q.inflight[h]].receiveCount >= 1
    ensures var q1 := Fail(cfg, q, h, now).0;
            var q2 := Receive(cfg, q1, n, vt, t1, t2).0;
            && h in q1.inflight && q1.inflight[h] in q1.entries
            && if t1 < now + Backoff(cfg, q.entries[q.inflight[h]].receiveCount) then SameLoan(q1, q2, h)
               else h !in q2.inflight
  {
    hide Receive, Backoff;
    assert LoanPlaced(q, h) && EntryPlaced(cfg, q, q.inflight[h]);
    ReceiveRespectsLeases(cfg, Fail(cfg, q, h, now).0, n, vt, t1, t2, h);
  }

  lemma OldLoanLapsed(cfg: Config, q: Queue, n: int, vt: Option<real>, t1: real, t2: real, old_: Handle, new_: Handle)
    requires Valid(cfg, q) && old_ in q.inflight && q.nextHandle <= new_
    requires var q' := Receive(cfg, q, n, vt, t1, t2).0; new_ in q'.inflight && q'.inflight[new_] == q.inflight[old_]
    ensures IsExpired(q, old_, t1)
  {
    hide Receive;
    ReceiveRespectsLeases(cfg, q, n, vt, t1, t2, old_);
    var q' := Receive(cfg, q, n, vt, t1, t2).0;
    assert LoanPlaced(q, old_) && LoanPlaced(q', new_);
  }

  /**
    The sweep is lazy: a handle whose loan has run out still acknowledges and
    still reports, until a receive withdraws it.
   */
  lemma LapsedUntilSwept(cfg: Config, q: Queue, h: Handle, n: int, vt: Option<real>, t1: real, t2: real)
    requires Valid(cfg, q) && IsExpired(q, h, t1)
    ensures Delete(cfg, q, h).1 == Fail(cfg, q, h, t1).1 == Accepted
    ensures var q' := Receive(cfg, q, n, vt, t1, t2).0;
            Delete(cfg, q', h).1 == Fail(cfg, q', h, t2).1 == ReceiptHandleIsInvalid
  {
    hide Receive;
    ReceiveRespectsLeases(cfg, q, n, vt, t1, t2, h);
  }

  // ---- runs ---------------------------------------------------------------

  datatype Op =
    | OpSend(event: Event)
    | OpReceive(n: int, vt: Option<real>, t1: real, t2: real)
    | OpDelete(h: Handle)
    | OpExtend(h: Handle, seconds: real, t: real)
    | OpFail(h: Handle, t: real)
    | OpWait(t: real)

  predicate Timely(now: real, op: Op) {
    match op
    case OpSend(_) => true
    case OpReceive(_, _, t1, t2) => now <= t1 <= t2
    case OpDelete(_) => true
    case OpExtend(_, _, t) => now <= t
    case OpFail(_, t) => now <= t
    case OpWait(t) => now <= t
  }

  function Do(cfg: Config, l: Ledger, op: Op): (l': Ledger)
    requires Good(cfg, l) && Timely(l.clock, op)
    ensures Good(cfg, l')
  {
    match op
    case OpSend(e) => Accept(cfg, l, e)
    case OpReceive(n, vt, t1, t2) => Collect(cfg, l, n, vt, t1, t2)
    case OpDelete(h) => Acknowledge(cfg, l, h)
    case OpExtend(h, seconds, t) => Hold(cfg, At(cfg, l, t), h, Some(seconds))
    case OpFail(h, t) => Hold(cfg, At(cfg, l, t), h, None)
    case OpWait(t) => At(cfg, l, t)
  }

  lemma StartGood(cfg: Config)
    requires cfg.maxReceives >= 1
    ensures Good(cfg, START)
  {
  }

  /** The clock readings of the run never go back. */
  ghost predicate InTime(cfg: Config, l: Ledger, ops: seq<Op>)
    requires Good(cfg, l)
    decreases |ops|
  {
    ops == [] || (Timely(l.clock, ops[0]) && InTime(cfg, Do(cfg, l, ops[0]), ops[1..]))
  }

  ghost function After(cfg: Config, l: Ledger, ops: seq<Op>): (l': Ledger)
    requires Good(cfg, l) && InTime(cfg, l, ops)
    ensures Good(cfg, l')
    decreases |ops|
  {
    if ops == [] then l else After(cfg, Do(cfg, l, ops[0]), ops[1..])
  }

  lemma {:induction false} AfterAppend(cfg: Config, l: Ledger, a: seq<Op>, b: seq<Op>)
    requires Good(cfg, l) && InTime(cfg, l, a) && InTime(cfg, After(cfg, l, a), b)
    ensures InTime(cfg, l, a + b) && After(cfg, l, a + b) == After(cfg, After(cfg, l, a), b)
    decreases |a|
  {
    hide Good, Do, Timely;
    if a == [] {
      assert a + b == b;
    } else {
      AfterAppend(cfg, Do(cfg, l, a[0]), a[1..], b);
      assert (a + b)[1..] == a[1..] + b;
    }
  }

  lemma AfterNone(cfg: Config, l: Ledger)
    requires Good(cfg, l)
    ensures InTime(cfg, l, []) && After(cfg, l, []) == l
  {
  }

  lemma AfterOne(cfg: Config, l: Ledger, op: Op)
    requires Good(cfg, l) && Timely(l.clock, op)
    ensures InTime(cfg, l, [op]) && After(cfg, l, [op]) == Do(cfg, l, op)
  {
    hide Good, Do, Timely;
    assert [op][1..] == [];
  }

  /** A run from the empty queue. */
  ghost predicate IsRun(cfg: Config, ops: seq<Op>) {
    cfg.maxReceives >= 1 && Good(cfg, START) && InTime(cfg, START, ops)
  }

  ghost function End(cfg: Config, ops: seq<Op>): (l: Ledger)
    requires IsRun(cfg, ops)
    ensures Good(cfg, l)
  {
    After(cfg, START, ops)
  }

  // ---- conservation -------------------------------------------------------

  ghost predicate Pending(l: Ledger, id: MsgId) {
    id in l.q.entries
  }

  /** `id` is the `i`-th dead letter that the ring still holds. */
  ghost predicate InRing(l: Ledger, id: MsgId)
    requires |l.q.dlq| <= |l.h.dead|
  {
    id in l.h.dead[|l.h.dead| - |l.q.dlq|..]
  }

  ghost predicate Discarded(l: Ledger, id: MsgId)
    requires |l.q.dlq| <= |l.h.dead|
  {
    id in l.h.dead[..|l.h.dead| - |l.q.dlq|]
  }

  function One(b: bool): nat {
    if b then 1 else 0
  }

  /**
    Nothing is lost and nothing is duplicated: every accepted message is in
    exactly one of four places, with the event that was sent.
   */
  ghost predicate FatesOk(l: Ledger) {
    && Counted(l)
    && |l.q.dlq| <= |l.h.dead|
    && (forall id :: 0 <= id < |l.h.sent| ==>
          One(Pending(l, id)) + One(id in l.h.acked) + One(InRing(l, id)) + One(Discarded(l, id)) == 1)
    && (forall id :: id in l.q.entries ==> id < |l.h.sent| && l.q.entries[id].event == l.h.sent[id])
    && (forall i :: 0 <= i < |l.q.dlq| ==>
          var id := l.h.dead[|l.h.dead| - |l.q.dlq| + i];
          id < |l.h.sent| && l.q.dlq[i] == l.h.sent[id])
  }

  lemma OneFateOnly(l: Ledger, id: MsgId)
    requires RingOk(l) && OneFate(l, id)
    ensures One(Pending(l, id)) + One(id in l.h.acked) + One(InRing(l, id)) + One(Discarded(l, id)) == 1
  {
    DeadOnce(l.h.dead, |l.h.dead| - |l.q.dlq|, id);
    assert id in l.h.dead <==> id in l.h.deadAt;
  }

  lemma PendingAsSent(cfg: Config, l: Ledger, id: MsgId)
    requires Good(cfg, l) && id in l.q.entries
    ensures id < |l.h.sent| && l.q.entries[id].event == l.h.sent[id]
  {
    hide Conserved, Fifo, LifeOk;
    assert EntryPlaced(cfg, l.q, id) && MsgOk(cfg, l, id);
  }

  lemma GoodConserves(cfg: Config, l: Ledger)
    requires Good(cfg, l)
    ensures FatesOk(l)
  {
    hide Valid, Fifo, Told, OneFate, InRing, Discarded;
    forall id | 0 <= id < |l.h.sent|
      ensures One(Pending(l, id)) + One(id in l.h.acked) + One(InRing(l, id)) + One(Discarded(l, id)) == 1
    {
      assert OneFate(l, id);
      OneFateOnly(l, id);
    }
    forall id | id in l.q.entries ensures id < |l.h.sent| && l.q.entries[id].event == l.h.sent[id] {
      PendingAsSent(cfg, l, id);
    }
  }

  lemma Conservation(cfg: Config, ops: seq<Op>)
    requires IsRun(cfg, ops)
    ensures FatesOk(End(cfg, ops))
  {
    GoodConserves(cfg, End(cfg, ops));
  }

  lemma DeadOnce(dead: seq<MsgId>, cut: nat, id: MsgId)
    requires Distinct(dead) && cut <= |dead|
    ensures id in dead <==> id in dead[..cut] || id in dead[cut..]
    ensures !(id in dead[..cut] && id in dead[cut..])
  {
    assert dead == dead[..cut] + dead[cut..];
  }

  // ---- the delivery bound -------------------------------------------------

  lemma {:induction false} TotalBound(a: seq<seq<Attempt>>, bound: nat)
    requires forall i :: 0 <= i < |a| ==> |a[i]| <= bound
    ensures Total(a) <= bound * |a|
  {
    if a != [] {
      TotalBound(a[..|a| - 1], bound);
      assert bound * |a| == bound * (|a| - 1) + bound;
    }
  }

  /**
    Deliveries over the whole run are at most max_receives per accepted
    message; a message is dead-lettered after exactly max_receives of them and
    waits in the deque only while it has one left.
   */
  lemma DeliveryBound(cfg: Config, ops: seq<Op>)
    requires IsRun(cfg, ops)
    ensures var l := End(cfg, ops);
            && Counted(l)
            && |l.h.delivered| <= cfg.maxReceives * |l.h.sent|
            && (forall id :: 0 <= id < |l.h.sent| ==> |l.h.attempts[id]| <= cfg.maxReceives)
            && (forall i :: 0 <= i < |l.h.dead| ==>
                  l.h.dead[i] < |l.h.sent| && |l.h.attempts[l.h.dead[i]]| == cfg.maxReceives)
            && (forall i :: 0 <= i < |l.q.visible| ==>
                  l.q.visible[i] in l.q.entries && l.q.entries[l.q.visible[i]].receiveCount < cfg.maxReceives)
            && (forall h :: h in l.q.inflight ==>
                  l.q.inflight[h] in l.q.entries &&
                  1 <= l.q.entries[l.q.inflight[h]].receiveCount <= cfg.maxReceives)
  {
    hide Fifo, TimesOk;
    var l := End(cfg, ops);
    forall id | 0 <= id < |l.h.sent| ensures |l.h.attempts[id]| <= cfg.maxReceives {
      assert MsgOk(cfg, l, id);
    }
    TotalBound(l.h.attempts, cfg.maxReceives);
    forall i | 0 <= i < |l.h.dead| ensures l.h.dead[i] < |l.h.sent| && |l.h.attempts[l.h.dead[i]]| == cfg.maxReceives {
      assert MsgOk(cfg, l, l.h.dead[i]) && OneFate(l, l.h.dead[i]);
    }
    Places(cfg, l.q);
  }

  lemma {:induction false} ManyBelow(ids: set<MsgId>, n: nat)
    requires forall id :: id in ids ==> id < n
    ensures |ids| <= n
  {
    if n > 0 {
      ManyBelow(ids - {n - 1}, n - 1);
    }
  }

  /** The queue never holds more than was accepted. */
  lemma RoomForAll(cfg: Config, l: Ledger)
    requires Good(cfg, l)
    ensures |l.q.entries| <= |l.h.sent|
  {
    hide Conserved, Fifo, Told;
    Places(cfg, l.q);
    ManyBelow(l.q.entries.Keys, l.q.nextId);
    assert |l.q.entries.Keys| == |l.q.entries|;
  }

  // ---- order and fairness -------------------------------------------------

  /** First deliveries happen in the order of the sends. */
  lemma FirstDeliveriesInSendOrder(cfg: Config, ops: seq<Op>)
    requires IsRun(cfg, ops)
    ensures var l := End(cfg, ops);
            forall h, id {:trigger l.h.delivered[h], l.h.sent[id]} ::
              0 <= h < |l.h.delivered| && 0 <= id < l.h.delivered[h] ==> id in l.h.delivered[..h]
  {
    hide InTime, After, Valid, Conserved, Told;
    var l := End(cfg, ops);
    forall h, id | 0 <= h < |l.h.delivered| && 0 <= id < l.h.delivered[h] ensures id in l.h.delivered[..h] {
      assert EarlierIdsPrecede(l.h.queued, h);
      assert l.h.queued[..h] == l.h.delivered[..h];
    }
  }

  /** `backlogEnd` means what it says: it closes off what was waiting at that delivery. */
  lemma BacklogIsWhatWaited(cfg: Config, l: Ledger, deadline: real)
    requires Good(cfg, l) && l.q.visible != []
    ensures var l' := LendHead(cfg, l, deadline);
            var i := |l.h.delivered|;
            && i < |l'.h.backlogEnd|
            && i + 1 <= l'.h.backlogEnd[i] <= |l'.h.queued|
            && l'.h.queued[i + 1..l'.h.backlogEnd[i]] == l'.q.visible
  {
    assert LendHead(cfg, l, deadline) == LendHeadRaw(cfg, l, deadline);
  }

  /**
    No message is delivered a second time while one that was waiting at its
    earlier delivery is still waiting: between deliveries `i` and `j` of one
    message, everything that waited at `i` is delivered, in that order.
   */
  lemma NoOvertaking(cfg: Config, ops: seq<Op>, i: nat, j: nat)
    requires IsRun(cfg, ops)
    requires i < j < |End(cfg, ops).h.delivered|
    requires End(cfg, ops).h.delivered[i] == End(cfg, ops).h.delivered[j]
    ensures var l := End(cfg, ops);
            && Counted(l)
            && i + 1 <= l.h.backlogEnd[i] <= j
            && l.h.backlogEnd[i] <= |l.h.queued|
            && l.h.delivered[i + 1..l.h.backlogEnd[i]] == l.h.queued[i + 1..l.h.backlogEnd[i]]
  {
    hide InTime, After, Valid, Conserved, Told;
    var l := End(cfg, ops);
    assert WaitingGoesFirst(l, i, j);
  }

  // ---- what is recorded stays recorded ------------------------------------

  /** Of the history, these four are only ever added to. */
  ghost predicate Grown(h: History, h': History) {
    h.sent <= h'.sent && h.delivered <= h'.delivered && h.queued <= h'.queued && h.backlogEnd <= h'.backlogEnd
  }

  lemma {:induction false} SweepLoansGrown(cfg: Config, l: Ledger, hs: seq<Handle>)
    requires Good(cfg, l) && AllLapsed(l, hs)
    ensures Grown(l.h, SweepLoans(cfg, l, hs).h) && SweepLoans(cfg, l, hs).h.backlogEnd == l.h.backlogEnd
    decreases |hs|
  {
    hide Conserved, Fifo, Told, Valid, SweepOne;
    if hs != [] {
      assert Lapsed(l, hs[0]);
      RestStillLapsed(cfg, l, hs);
      SweepLoansGrown(cfg, SweepLoan(cfg, l, hs[0]), hs[1..]);
    }
  }

  lemma LendHeadGrown(cfg: Config, l: Ledger, deadline: real)
    requires Good(cfg, l) && l.q.visible != []
    ensures var l' := LendHead(cfg, l, deadline);
            && Grown(l.h, l'.h) && l'.h.queued == l.h.queued && |l'.q.visible| < |l.q.visible|
            && |l'.h.delivered| == |l.h.delivered| + 1
            && l'.h.backlogEnd == l.h.backlogEnd + [|l.h.queued|]
  {
    hide Conserved, Fifo, Told;
  }

  /** Every delivery of one receive has the same backlog: the line as the receive left it. */
  lemma {:induction false} LendHeadsGrown(cfg: Config, l: Ledger, n: int, deadline: real)
    requires Good(cfg, l)
    ensures var l' := LendHeads(cfg, l, n, deadline);
            && Grown(l.h, l'.h) && l'.h.queued == l.h.queued
            && |l.h.backlogEnd| == |l.h.delivered| && |l'.h.backlogEnd| == |l'.h.delivered|
            && forall i :: |l.h.delivered| <= i < |l'.h.delivered| ==> l'.h.backlogEnd[i] == |l'.h.queued|
    decreases |l.q.visible|
  {
    hide Conserved, Fifo, Told, Valid, LendHead;
    if l.q.visible != [] && n > 0 {
      LendHeadGrown(cfg, l, deadline);
      LendHeadsGrown(cfg, LendHead(cfg, l, deadline), n - 1, deadline);
    }
  }

  lemma CollectGrown(cfg: Config, l: Ledger, n: int, vt: Option<real>, t1: real, t2: real)
    requires Good(cfg, l) && l.clock <= t1 <= t2
    ensures var l' := Collect(cfg, l, n, vt, t1, t2);
            && Grown(l.h, l'.h)
            && |l'.h.backlogEnd| == |l'.h.delivered|
            && forall i :: |l.h.delivered| <= i < |l'.h.delivered| ==> l'.h.backlogEnd[i] == |l'.h.queued|
  {
    hide Good, SweepLoans, LendHeads, Expired, Sweep, SweepAll, LendMany;
    var l1 := At(cfg, l, t1);
    ExpiredLapsed(l1);
    SweepLoansGrown(cfg, l1, Expired(l1.q, t1));
    var swept := At(cfg, SweepAt(cfg, l, t1), t2);
    LendHeadsGrown(cfg, swept, n, t2 + if vt.Some? then vt.value else cfg.visibility);
  }

  lemma DoGrown(cfg: Config, l: Ledger, op: Op)
    requires Good(cfg, l) && Timely(l.clock, op)
    ensures Grown(l.h, Do(cfg, l, op).h)
  {
    hide Conserved, Fifo, Told, Valid, Collect;
    match op
    case OpReceive(n, vt, t1, t2) => CollectGrown(cfg, l, n, vt, t1, t2);
    case _ =>
  }

  lemma {:induction false} AfterGrown(cfg: Config, l: Ledger, ops: seq<Op>)
    requires Good(cfg, l) && InTime(cfg, l, ops)
    ensures Grown(l.h, After(cfg, l, ops).h)
    decreases |ops|
  {
    hide Good, Do, Timely;
    if ops != [] {
      DoGrown(cfg, l, ops[0]);
      AfterGrown(cfg, Do(cfg, l, ops[0]), ops[1..]);
    }
  }

  /**
    Fairness over runs. Let a receive make delivery number `i`, and let delivery
    `j`, whenever it comes, be of the same message. Between the two go, in their
    order, the rest of that receive and everything that it left waiting.
   */
  lemma FairRedelivery(
    cfg: Config, l: Ledger, n: int, vt: Option<real>, t1: real, t2: real, ops: seq<Op>, i: nat, j: nat)
    requires Good(cfg, l) && l.clock <= t1 <= t2
    requires InTime(cfg, Collect(cfg, l, n, vt, t1, t2), ops)
    requires |l.h.delivered| <= i < |Collect(cfg, l, n, vt, t1, t2).h.delivered|
    requires i < j < |After(cfg, Collect(cfg, l, n, vt, t1, t2), ops).h.delivered|
    requires var later := After(cfg, Collect(cfg, l, n, vt, t1, t2), ops); later.h.delivered[i] == later.h.delivered[j]
    ensures var l' := Collect(cfg, l, n, vt, t1, t2);
            var later := After(cfg, l', ops);
            var waiting := l'.h.delivered[i + 1..] + l'.q.visible;
            i + 1 + |waiting| <= j && later.h.delivered[i + 1..i + 1 + |waiting|] == waiting
  {
    hide Valid, Conserved, Told, Collect, After, InTime;
    var l' := Collect(cfg, l, n, vt, t1, t2);
    var later := After(cfg, l', ops);
    CollectGrown(cfg, l, n, vt, t1, t2);
    AfterGrown(cfg, l', ops);
    BacklogGoesFirst(cfg, l', later, i, j);
  }

  lemma BacklogGoesFirst(cfg: Config, l: Ledger, later: Ledger, i: nat, j: nat)
    requires Good(cfg, l) && Good(cfg, later) && Grown(l.h, later.h)
    requires i < |l.h.delivered| && |l.h.backlogEnd| == |l.h.delivered| && l.h.backlogEnd[i] == |l.h.queued|
    requires i < j < |later.h.delivered| && later.h.delivered[i] == later.h.delivered[j]
    ensures var waiting := l.h.delivered[i + 1..] + l.q.visible;
            i + 1 + |waiting| <= j && later.h.delivered[i + 1..i + 1 + |waiting|] == waiting
  {
    hide Valid, Conserved, Told;
    assert WaitingGoesFirst(later, i, j);
    assert later.h.queued == later.h.delivered + later.q.visible && l.h.queued == l.h.delivered + l.q.visible;
    assert later.h.backlogEnd[i] == |l.h.queued| <= j;
    hide Fifo;
    ServedFromLine(l.h.delivered, l.q.visible, later.h.delivered, later.q.visible, i + 1);
  }

  /** The line as it stood, from place `k` on, if all of it has been served since. */
  lemma ServedFromLine(served: seq<MsgId>, line: seq<MsgId>, servedLater: seq<MsgId>, lineLater: seq<MsgId>, k: nat)
    requires served + line <= servedLater + lineLater && k <= |served| && |served + line| <= |servedLater|
    ensures servedLater[k..k + |served[k..] + line|] == served[k..] + line
  {
    var whole, later := served + line, servedLater + lineLater;
    assert served[k..] + line == whole[k..];
    assert later[..|whole|] == whole;
    assert servedLater[..|whole|] == later[..|whole|];
    assert servedLater[k..|whole|] == servedLater[..|whole|][k..];
  }

  // ---- deliveries run out -------------------------------------------------

  /** The deliveries that the accepted messages may still have. */
  function DeliveriesLeft(cfg: Config, l: Ledger): int {
    cfg.maxReceives * |l.h.sent| - |l.h.delivered|
  }

  /**
    The measure behind the delivery bound: never negative, raised by
    max_receives with each accepted send, lowered by one with each delivery, and
    touched by nothing else.
   */
  lemma DeliveriesRunOut(cfg: Config, l: Ledger, op: Op)
    requires Good(cfg, l) && Timely(l.clock, op)
    ensures var l' := Do(cfg, l, op);
            && |l.h.sent| <= |l'.h.sent| <= |l.h.sent| + 1 && |l.h.delivered| <= |l'.h.delivered|
            && (|l'.h.sent| == |l.h.sent| + 1 ==> op.OpSend? && |l.q.entries| < cfg.maxsize)
            && (|l'.h.delivered| > |l.h.delivered| ==> op.OpReceive?)
            && 0 <= DeliveriesLeft(cfg, l')
            && DeliveriesLeft(cfg, l')
               == DeliveriesLeft(cfg, l) + cfg.maxReceives * (|l'.h.sent| - |l.h.sent|)
                  - (|l'.h.delivered| - |l.h.delivered|)
  {
    hide Conserved, Fifo, Told, Valid, Collect;
    LeftNotNegative(cfg, Do(cfg, l, op));
    var a, b := |l.h.sent|, |Do(cfg, l, op).h.sent|;
    assert cfg.maxReceives * b == cfg.maxReceives * a + cfg.maxReceives * (b - a);
  }

  lemma LeftNotNegative(cfg: Config, l: Ledger)
    requires Good(cfg, l)
    ensures DeliveriesLeft(cfg, l) >= 0
  {
    hide Valid, Conserved, Fifo, TimesOk;
    forall id | 0 <= id < |l.h.attempts| ensures |l.h.attempts[id]| <= cfg.maxReceives {
      assert MsgOk(cfg, l, id);
    }
    TotalBound(l.h.attempts, cfg.maxReceives);
  }

  // ---- handles ------------------------------------------------------------

  ghost predicate Retired(l: Ledger, h: Handle) {
    h < l.q.nextHandle && h !in l.q.inflight
  }

  lemma RetiredThroughReceive(cfg: Config, q: Queue, n: int, vt: Option<real>, t1: real, t2: real, h: Handle)
    requires Valid(cfg, q) && h < q.nextHandle && h !in q.inflight
    ensures var q' := Receive(cfg, q, n, vt, t1, t2).0;
            h < q'.nextHandle && h !in q'.inflight
  {
    hide Valid, LendMany, SweepAll, Expired;
    SweepAllTakes(cfg, q, Expired(q, t1));
    LendManyAdds(cfg, Sweep(cfg, q, t1), n, t2 + if vt.Some? then vt.value else cfg.visibility);
  }

  lemma RetiredStays(cfg: Config, l: Ledger, op: Op, h: Handle)
    requires Good(cfg, l) && Timely(l.clock, op) && Retired(l, h)
    ensures Retired(Do(cfg, l, op), h)
  {
    hide Conserved, Fifo, Told, Valid, Collect, Receive;
    match op
    case OpReceive(n, vt, t1, t2) =>
      CollectReceives(cfg, l, n, vt, t1, t2);
      RetiredThroughReceive(cfg, l.q, n, vt, t1, t2, h);
    case _ =>
  }

  /**
    A receipt handle that has left the in-flight table is refused by every
    verb, which then changes nothing, for the rest of the run.
   */
  lemma {:induction false} RetiredForever(cfg: Config, l: Ledger, ops: seq<Op>, h: Handle, seconds: real, now: real)
    requires Good(cfg, l) && InTime(cfg, l, ops) && Retired(l, h)
    ensures var q := After(cfg, l, ops).q;
            && Delete(cfg, q, h) == (q, ReceiptHandleIsInvalid)
            && ChangeVisibility(cfg, q, h, seconds, now) == (q, ReceiptHandleIsInvalid)
            && Fail(cfg, q, h, now) == (q, ReceiptHandleIsInvalid)
    decreases |ops|
  {
    if ops != [] {
      RetiredStays(cfg, l, ops[0], h);
      RetiredForever(cfg, Do(cfg, l, ops[0]), ops[1..], h, seconds, now);
    }
  }

  /** At most one handle is live for any message. */
  lemma OneLiveHandle(cfg: Config, ops: seq<Op>, h: Handle, j: Handle)
    requires IsRun(cfg, ops)
    requires h in End(cfg, ops).q.inflight && j in End(cfg, ops).q.inflight
    requires End(cfg, ops).q.inflight[h] == End(cfg, ops).q.inflight[j]
    ensures h == j
  {
    assert LoanPlaced(End(cfg, ops).q, h) && LoanPlaced(End(cfg, ops).q, j);
  }

  // ---- backoff ------------------------------------------------------------

  /** The operation, if it sets a window, sets one of at least `v` seconds. */
  predicate WindowAtLeast(cfg: Config, op: Op, v: real) {
    match op
    case OpReceive(_, vt, _, _) => v <= if vt.Some? then vt.value else cfg.visibility
    case OpExtend(_, seconds, _) => v <= seconds
    case _ => true
  }

  ghost predicate WindowsAtLeast(cfg: Config, ops: seq<Op>, v: real) {
    forall i :: 0 <= i < |ops| ==> WindowAtLeast(cfg, ops[i], v)
  }

  ghost predicate AllGranted(l: Ledger, v: real) {
    forall id {:trigger l.h.attempts[id]} :: 0 <= id < |l.h.attempts| ==> GrantedAtLeast(l.h.attempts[id], v)
  }

  lemma LendHeadGranted(cfg: Config, l: Ledger, deadline: real, v: real)
    requires Good(cfg, l) && l.q.visible != [] && AllGranted(l, v) && l.clock + v <= deadline
    ensures AllGranted(LendHead(cfg, l, deadline), v)
  {
    hide Conserved, Fifo, Told;
    assert EntryPlaced(cfg, l.q, l.q.visible[0]);
    hide Valid;
    var l', id := LendHead(cfg, l, deadline), l.q.visible[0];
    assert GrantedAtLeast(l.h.attempts[id], v);
    assert l'.h.attempts[id] == l.h.attempts[id] + [Attempt(l.q.nextHandle, l.clock, None, deadline)];
  }

  lemma {:induction false} LendHeadsGranted(cfg: Config, l: Ledger, n: int, deadline: real, v: real)
    requires Good(cfg, l) && AllGranted(l, v) && l.clock + v <= deadline
    ensures AllGranted(LendHeads(cfg, l, n, deadline), v)
    decreases |l.q.visible|
  {
    hide Conserved, Fifo, Told;
    if l.q.visible != [] && n > 0 {
      assert EntryPlaced(cfg, l.q, l.q.visible[0]);
      hide Valid;
      LendHeadGranted(cfg, l, deadline, v);
      LendHeadGrown(cfg, l, deadline);
      hide LendHead;
      LendHeadsGranted(cfg, LendHead(cfg, l, deadline), n - 1, deadline, v);
    }
  }

  lemma CollectGranted(cfg: Config, l: Ledger, n: int, vt: Option<real>, t1: real, t2: real, v: real)
    requires Good(cfg, l) && l.clock <= t1 <= t2 && AllGranted(l, v)
    requires v <= if vt.Some? then vt.value else cfg.visibility
    ensures AllGranted(Collect(cfg, l, n, vt, t1, t2), v)
  {
    hide Good, LendHeads, SweepAt, Sweep, LendMany;
    var swept := At(cfg, SweepAt(cfg, l, t1), t2);
    LendHeadsGranted(cfg, swept, n, t2 + if vt.Some? then vt.value else cfg.visibility, v);
  }

  lemma HoldGranted(cfg: Config, l: Ledger, h: Handle, seconds: Option<real>, v: real)
    requires Good(cfg, l) && AllGranted(l, v) && (seconds.Some? ==> v <= seconds.value)
    ensures AllGranted(Hold(cfg, l, h, seconds), v)
  {
    hide Conserved, Fifo, GapsOk, Backoff;
    if h in l.q.inflight {
      var id := l.q.inflight[h];
      assert LoanPlaced(l.q, h) && EntryPlaced(cfg, l.q, id) && MsgOk(cfg, l, id);
      hide Valid, Told;
      var a, l' := l.h.attempts[id], Hold(cfg, l, h, seconds);
      assert a[|a| - 1].at <= l.clock;
      assert GrantedAtLeast(l'.h.attempts[id], v);
    }
  }

  lemma DoGranted(cfg: Config, l: Ledger, op: Op, v: real)
    requires Good(cfg, l) && Timely(l.clock, op) && AllGranted(l, v) && WindowAtLeast(cfg, op, v)
    ensures AllGranted(Do(cfg, l, op), v)
  {
    hide Good, Collect, Hold;
    match op
    case OpReceive(n, vt, t1, t2) => CollectGranted(cfg, l, n, vt, t1, t2, v);
    case OpExtend(h, seconds, t) => HoldGranted(cfg, At(cfg, l, t), h, Some(seconds), v);
    case OpFail(h, t) => HoldGranted(cfg, At(cfg, l, t), h, None, v);
    case OpSend(e) => AcceptGranted(cfg, l, e, v);
    case OpDelete(h) => AcknowledgeGranted(cfg, l, h, v);
    case OpWait(t) =>
  }

  lemma AcceptGranted(cfg: Config, l: Ledger, e: Event, v: real)
    requires Good(cfg, l) && AllGranted(l, v)
    ensures AllGranted(Accept(cfg, l, e), v)
  {
    hide Valid, Conserved, Fifo, Told;
  }

  lemma AcknowledgeGranted(cfg: Config, l: Ledger, h: Handle, v: real)
    requires Good(cfg, l) && AllGranted(l, v)
    ensures AllGranted(Acknowledge(cfg, l, h), v)
  {
    hide Valid, Conserved, Fifo, Told;
  }

  lemma {:induction false} AfterGranted(cfg: Config, l: Ledger, ops: seq<Op>, v: real)
    requires Good(cfg, l) && InTime(cfg, l, ops) && AllGranted(l, v) && WindowsAtLeast(cfg, ops, v)
    ensures AllGranted(After(cfg, l, ops), v)
    decreases |ops|
  {
    hide Good, Do, Timely, AllGranted, WindowAtLeast;
    if ops != [] {
      assert WindowAtLeast(cfg, ops[0], v);
      DoGranted(cfg, l, ops[0], v);
      AfterGranted(cfg, Do(cfg, l, ops[0]), ops[1..], v);
    }
  }

  /** The budget of one message, in any state that a run can reach. */
  ghost predicate BudgetKept(cfg: Config, l: Ledger, id: MsgId, v: real)
    requires id < |l.h.attempts|
  {
    var a := l.h.attempts[id];
    && Spaced(cfg, a, v)
    && (id in l.h.deadAt ==>
          && |a| == cfg.maxReceives >= 1
          && a[0].at + Stays(cfg, a, v, |a|) <= l.h.deadAt[id]
          && (AllReported(a) ==> a[0].at + Budget(cfg, |a|) <= l.h.deadAt[id]))
  }

  lemma GoodKeepsBudget(cfg: Config, l: Ledger, id: MsgId, v: real)
    requires Good(cfg, l) && id < |l.h.attempts| && AllGranted(l, v)
    ensures BudgetKept(cfg, l, id, v)
  {
    hide Fifo, Valid, RingOk;
    assert MsgOk(cfg, l, id) && OneFate(l, id);
    hide Told, TimesOk, Backoff, Stay, Stays, Budget, Spaced;
    RetryBudget(cfg, LifeOf(l, id), l.clock, v);
    if id in l.h.deadAt && AllReported(l.h.attempts[id]) {
      ReportedBudget(cfg, LifeOf(l, id), l.clock);
    }
  }

  /**
    The retry budget of any run whose windows are all at least `v` seconds.
    After a delivery that was reported through `fail` the next comes no sooner
    than its backoff after the report, and after one that merely lapsed no
    sooner than `v`; a message is dead-lettered no sooner than the sum of these
    after its first delivery.
   */
  lemma RunRetryBudget(cfg: Config, ops: seq<Op>, id: MsgId, v: real)
    requires IsRun(cfg, ops) && WindowsAtLeast(cfg, ops, v) && id < |End(cfg, ops).h.attempts|
    ensures BudgetKept(cfg, End(cfg, ops), id, v)
  {
    hide InTime, After, BudgetKept;
    AfterGranted(cfg, START, ops, v);
    GoodKeepsBudget(cfg, End(cfg, ops), id, v);
  }
}
