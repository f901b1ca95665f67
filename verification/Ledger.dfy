/**
  The queue together with the history of a run: what was sent, delivered,
  acknowledged and dead-lettered, and when. Theorems about whole runs are
  invariants relating the two.
 */
module Ledger {
  import opened Sequences
  import opened Models
  import opened QueueSpec
  import opened Lifecycle

  /**
    `sent[id]` is the event accepted under `id` and `attempts[id]` its
    deliveries. `queued` lists every id ever appended to the visible deque and
    `delivered` every id ever taken from it, so that `delivered[h]` is the
    message lent under handle `h`; `backlogEnd[h]` is the length of `queued`
    at that delivery. `dead` lists the dead-lettered ids, oldest first.
   */
  datatype History = History(
    sent: seq<Event>,
    acked: set<MsgId>,
    dead: seq<MsgId>,
    deadAt: map<MsgId, real>,
    queued: seq<MsgId>,
    delivered: seq<MsgId>,
    backlogEnd: seq<nat>,
    attempts: seq<seq<Attempt>>)

  datatype Ledger = Ledger(q: Queue, h: History, clock: real)

  const START: Ledger := Ledger(EMPTY_QUEUE, History([], {}, [], map[], [], [], [], []), 0.0)

  // ---- the invariant ------------------------------------------------------

  ghost predicate Counted(l: Ledger) {
    && l.q.nextId == |l.h.sent| == |l.h.attempts|
    && l.q.nextHandle == |l.h.delivered| == |l.h.backlogEnd|
  }

  /** Every accepted message is pending, acknowledged or dead, and only one of these. */
  ghost predicate OneFate(l: Ledger, id: MsgId) {
    && (id in l.q.entries || id in l.h.acked || id in l.h.deadAt)
    && !(id in l.q.entries && id in l.h.acked)
    && !(id in l.q.entries && id in l.h.deadAt)
    && !(id in l.h.acked && id in l.h.deadAt)
  }

  /** The dead-letter ring holds the newest of the dead, in order. */
  ghost predicate RingOk(l: Ledger) {
    && Distinct(l.h.dead)
    && (forall i :: 0 <= i < |l.h.dead| ==> l.h.dead[i] < |l.h.sent| && l.h.dead[i] in l.h.deadAt)
    && (forall id :: id in l.h.deadAt ==> id in l.h.dead)
    && HoldsNewest(l.h.sent, l.h.dead, l.q.dlq)
  }

  ghost predicate HoldsNewest(sent: seq<Event>, dead: seq<MsgId>, dlq: seq<Event>)
    requires forall i :: 0 <= i < |dead| ==> dead[i] < |sent|
  {
    && |dlq| == (if |dead| < DLQ_MAXLEN then |dead| else DLQ_MAXLEN)
    && (forall i :: 0 <= i < |dlq| ==> dlq[i] == sent[dead[|dead| - |dlq| + i]])
  }

  lemma PushKeepsNewest(sent: seq<Event>, dead: seq<MsgId>, dlq: seq<Event>, id: MsgId)
    requires forall i :: 0 <= i < |dead| ==> dead[i] < |sent|
    requires HoldsNewest(sent, dead, dlq) && id < |sent|
    ensures HoldsNewest(sent, dead + [id], RingPush(dlq, sent[id]))
  {
    hide RingPush;
    var r := RingPush(dlq, sent[id]);
    forall i | 0 <= i < |r| ensures r[i] == sent[(dead + [id])[|dead + [id]| - |r| + i]] {
      NewestAfter(sent, dead, dlq, id, |dlq| + 1 - |r| + i);
    }
  }

  /** Letter `j` of the ring and the new one, counted from the oldest. */
  lemma NewestAfter(sent: seq<Event>, dead: seq<MsgId>, dlq: seq<Event>, id: MsgId, j: nat)
    requires forall i :: 0 <= i < |dead| ==> dead[i] < |sent|
    requires HoldsNewest(sent, dead, dlq) && id < |sent| && j <= |dlq| <= |dead|
    ensures var dead' := dead + [id]; (dlq + [sent[id]])[j] == sent[dead'[|dead'| - |dlq| - 1 + j]]
  {
  }

  ghost predicate Conserved(l: Ledger)
    requires Counted(l)
  {
    && (forall id {:trigger OneFate(l, id)} :: 0 <= id < l.q.nextId ==> OneFate(l, id))
    && (forall id :: id in l.h.acked ==> id < l.q.nextId)
    && RingOk(l)
  }

  ghost predicate EarlierIdsPrecede(queued: seq<MsgId>, p: nat)
    requires p < |queued|
  {
    forall id :: 0 <= id < queued[p] ==> id in queued[..p]
  }

  /** Whatever was waiting at delivery `i` stands before the next copy of that message. */
  ghost predicate WaitingGoesFirst(l: Ledger, i: nat, p: nat)
    requires i < |l.h.backlogEnd| && i < |l.h.delivered| && p < |l.h.queued|
  {
    i < p && l.h.queued[p] == l.h.delivered[i] ==> l.h.backlogEnd[i] <= p
  }

  /** The deque is first in, first out, and ids enter it in the order they were sent. */
  ghost predicate Fifo(l: Ledger)
    requires Counted(l)
  {
    && l.h.queued == l.h.delivered + l.q.visible
    && (forall id :: 0 <= id < l.q.nextId ==> id in l.h.queued)
    && (forall p :: 0 <= p < |l.h.queued| ==> l.h.queued[p] < l.q.nextId)
    && (forall p {:trigger EarlierIdsPrecede(l.h.queued, p)} ::
          0 <= p < |l.h.queued| ==> EarlierIdsPrecede(l.h.queued, p))
    && (forall i :: 0 <= i < |l.h.delivered| ==> i < l.h.backlogEnd[i] <= |l.h.queued|)
    && (forall i, p {:trigger WaitingGoesFirst(l, i, p)} ::
          0 <= i < |l.h.delivered| && 0 <= p < |l.h.queued| ==> WaitingGoesFirst(l, i, p))
  }

  function Total(a: seq<seq<Attempt>>): nat {
    if a == [] then 0 else Total(a[..|a| - 1]) + |a[|a| - 1]|
  }

  /** The place of a message, read off the queue's tables. */
  function LifeOf(l: Ledger, id: MsgId): Life
    requires id < |l.h.attempts|
  {
    var place :=
      if id in l.q.entries then
        match l.q.entries[id].handle
        case None => Visible
        case Some(h) => Lent(h, l.q.entries[id].deadline)
      else if id in l.h.deadAt then Dead(l.h.deadAt[id])
      else Acked;
    Life(place, l.h.attempts[id])
  }

  ghost predicate Coupled(l: Ledger, id: MsgId)
    requires id < |l.h.attempts| && id < |l.h.sent|
  {
    && (id in l.q.entries ==>
          && l.q.entries[id].receiveCount == |l.h.attempts[id]|
          && l.q.entries[id].event == l.h.sent[id])
    && (forall k :: 0 <= k < |l.h.attempts[id]| ==>
          var h := l.h.attempts[id][k].handle;
          h < |l.h.delivered| && l.h.delivered[h] == id)
  }

  ghost predicate MsgOk(cfg: Config, l: Ledger, id: MsgId)
    requires id < |l.h.attempts| && id < |l.h.sent|
  {
    Coupled(l, id) && LifeOk(cfg, LifeOf(l, id), l.clock)
  }

  ghost predicate Told(cfg: Config, l: Ledger)
    requires Counted(l)
  {
    && Total(l.h.attempts) == |l.h.delivered|
    && (forall h :: h in l.q.inflight ==> h < |l.h.delivered| && l.h.delivered[h] == l.q.inflight[h])
    && (forall id {:trigger MsgOk(cfg, l, id)} :: 0 <= id < l.q.nextId ==> MsgOk(cfg, l, id))
  }

  ghost predicate Good(cfg: Config, l: Ledger) {
    && cfg.maxReceives >= 1
    && Valid(cfg, l.q)
    && Counted(l)
    && Conserved(l)
    && Fifo(l)
    && Told(cfg, l)
  }

  // ---- one message moves, the others stay ---------------------------------

  /** The tables that say where a message is agree on everyone but `id`. */
  ghost predicate TablesAgreeBut(l: Ledger, l': Ledger, id: MsgId) {
    && (forall k :: k != id ==> (k in l'.q.entries <==> k in l.q.entries))
    && (forall k :: k != id && k in l.q.entries ==> l'.q.entries[k] == l.q.entries[k])
    && (forall k :: k != id ==> (k in l'.h.deadAt <==> k in l.h.deadAt))
    && (forall k :: k != id && k in l.h.deadAt ==> l'.h.deadAt[k] == l.h.deadAt[k])
    && |l'.h.attempts| == |l.h.attempts|
    && (forall k :: 0 <= k < |l.h.attempts| && k != id ==> l'.h.attempts[k] == l.h.attempts[k])
  }

  lemma AgreementMeansStay(l: Ledger, l': Ledger, id: MsgId)
    requires Counted(l) && Counted(l') && TablesAgreeBut(l, l', id)
    requires l.h.sent == l'.h.sent && l.h.delivered <= l'.h.delivered
    requires l.clock == l'.clock && l.q.nextId == l'.q.nextId
    ensures OthersStay(l, l', id)
  {
  }

  ghost predicate OthersStay(l: Ledger, l': Ledger, id: MsgId)
    requires Counted(l) && Counted(l')
  {
    && l.h.sent <= l'.h.sent && l.h.delivered <= l'.h.delivered && l.clock == l'.clock
    && l.q.nextId <= l'.q.nextId
    && forall k :: 0 <= k < l.q.nextId && k != id ==>
         && LifeOf(l', k) == LifeOf(l, k)
         && (k in l'.q.entries <==> k in l.q.entries)
         && (k in l.q.entries ==> l'.q.entries[k] == l.q.entries[k])
  }

  /** From `l` to `l'` message `id` makes move `m` and nothing else happens to anyone. */
  ghost predicate OneMoves(cfg: Config, l: Ledger, l': Ledger, id: MsgId, m: Move)
    requires Counted(l) && Counted(l')
  {
    && id < l.q.nextId == l'.q.nextId
    && CanMove(cfg, LifeOf(l, id), m, l.clock)
    && LifeOf(l', id) == Moved(cfg, LifeOf(l, id), m, l.clock)
    && OthersStay(l, l', id)
  }

  lemma MoveKeepsMessages(cfg: Config, l: Ledger, l': Ledger, id: MsgId, m: Move)
    requires Counted(l) && Counted(l') && OneMoves(cfg, l, l', id, m)
    requires forall k {:trigger MsgOk(cfg, l, k)} :: 0 <= k < l.q.nextId ==> MsgOk(cfg, l, k)
    requires Coupled(l', id)
    ensures forall k {:trigger MsgOk(cfg, l', k)} :: 0 <= k < l'.q.nextId ==> MsgOk(cfg, l', k)
  {
    forall k | 0 <= k < l'.q.nextId ensures MsgOk(cfg, l', k) {
      assert MsgOk(cfg, l, k);
      if k == id {
        MoveOk(cfg, LifeOf(l, id), m, l.clock);
      } else {
        assert LifeOf(l', k) == LifeOf(l, k);
      }
    }
  }

  lemma {:induction false} TotalOfUpdate(a: seq<seq<Attempt>>, i: nat, x: seq<Attempt>)
    requires i < |a|
    ensures Total(a[i := x]) == Total(a) - |a[i]| + |x|
  {
    var n := |a| - 1;
    if i < n {
      TotalOfUpdate(a[..n], i, x);
      assert a[i := x][..n] == a[..n][i := x];
    } else {
      assert a[i := x][..n] == a[..n];
    }
  }

  // ---- the steps ----------------------------------------------------------

  /** Wait until `t`. */
  function At(cfg: Config, l: Ledger, t: real): (l': Ledger)
    requires Good(cfg, l) && l.clock <= t
    ensures Good(cfg, l') && l'.q == l.q && l'.h == l.h && l'.clock == t
  {
    var l' := l.(clock := t);
    TimePasses(cfg, l, l');
    l'
  }

  lemma TimePasses(cfg: Config, l: Ledger, l': Ledger)
    requires Good(cfg, l) && l.clock <= l'.clock && l' == l.(clock := l'.clock)
    ensures Good(cfg, l')
  {
    forall id | 0 <= id < l'.q.nextId ensures MsgOk(cfg, l', id) {
      assert MsgOk(cfg, l, id);
      LaterOk(cfg, LifeOf(l, id), l.clock, l'.clock);
    }
    forall id | 0 <= id < l'.q.nextId ensures OneFate(l', id) {
      assert OneFate(l, id);
    }
    forall p | 0 <= p < |l'.h.queued| ensures EarlierIdsPrecede(l'.h.queued, p) {
      assert EarlierIdsPrecede(l.h.queued, p);
    }
    forall i, p | 0 <= i < |l'.h.delivered| && 0 <= p < |l'.h.queued| ensures WaitingGoesFirst(l', i, p) {
      assert WaitingGoesFirst(l, i, p);
    }
  }

  // ---- sweeping one expired loan

  ghost predicate Lapsed(l: Ledger, h: Handle) {
    IsExpired(l.q, h, l.clock)
  }

  function SweepLoanRaw(cfg: Config, l: Ledger, h: Handle): Ledger
    requires Valid(cfg, l.q) && h in l.q.inflight
  {
    assert LoanPlaced(l.q, h);
    var id := l.q.inflight[h];
    var q' := SweepOne(cfg, l.q, h);
    if l.q.entries[id].receiveCount >= cfg.maxReceives then
      l.(q := q', h := l.h.(dead := l.h.dead + [id], deadAt := l.h.deadAt[id := l.clock]))
    else
      l.(q := q', h := l.h.(queued := l.h.queued + [id]))
  }

  /** A message on loan: where it is, and what is recorded about it. */
  lemma LoanLife(cfg: Config, l: Ledger, h: Handle)
    requires Good(cfg, l) && h in l.q.inflight
    ensures var id := l.q.inflight[h];
            && id in l.q.entries && l.q.entries[id].handle == Some(h)
            && id < l.q.nextId && id !in l.h.deadAt && id !in l.h.acked
            && LifeOf(l, id) == Life(Lent(h, l.q.entries[id].deadline), l.h.attempts[id])
            && l.q.entries[id].receiveCount == |l.h.attempts[id]| >= 1
            && l.q.entries[id].event == l.h.sent[id]
            && Coupled(l, id)
  {
    var id := l.q.inflight[h];
    assert LoanPlaced(l.q, h) && EntryPlaced(cfg, l.q, id) && MsgOk(cfg, l, id) && OneFate(l, id);
    hide Valid, Conserved, Fifo, Told, TimesOk;
  }

  lemma SweepLoanLeavesOthers(cfg: Config, l: Ledger, h: Handle)
    requires Good(cfg, l) && Lapsed(l, h)
    ensures Counted(SweepLoanRaw(cfg, l, h)) && OthersStay(l, SweepLoanRaw(cfg, l, h), l.q.inflight[h])
  {
    hide Fifo, RingOk, LifeOk, Told, Moved, OthersStay, OneFate;
    assert LoanPlaced(l.q, h) && EntryPlaced(cfg, l.q, l.q.inflight[h]);
    hide Valid, Conserved;
    AgreementMeansStay(l, SweepLoanRaw(cfg, l, h), l.q.inflight[h]);
  }

  lemma SweptLife(cfg: Config, l: Ledger, h: Handle)
    requires Good(cfg, l) && Lapsed(l, h)
    ensures var l', id := SweepLoanRaw(cfg, l, h), l.q.inflight[h];
            && Counted(l') && id < l.q.nextId == l'.q.nextId
            && LifeOf(l', id) == Life(if |l.h.attempts[id]| >= cfg.maxReceives then Dead(l.clock) else Visible,
                                      l.h.attempts[id])
  {
    hide Valid, Conserved, Fifo, Told, Coupled, RingPush;
    LoanLife(cfg, l, h);
  }

  lemma SweepLoanMoves(cfg: Config, l: Ledger, h: Handle)
    requires Good(cfg, l) && Lapsed(l, h)
    ensures var l' := SweepLoanRaw(cfg, l, h);
            var id := l.q.inflight[h];
            && Counted(l')
            && id < l.q.nextId
            && OneMoves(cfg, l, l', id, if |l.h.attempts[id]| >= cfg.maxReceives then Bury else Return)
  {
    hide Valid, Conserved, Fifo, Told, OthersStay, Coupled, SweepOne, LifeOf, SweepLoanRaw;
    LoanLife(cfg, l, h);
    SweptLife(cfg, l, h);
    SweepLoanLeavesOthers(cfg, l, h);
  }

  lemma BuryKeepsRing(l: Ledger, l': Ledger, id: MsgId)
    requires RingOk(l) && id < |l.h.sent| && id !in l.h.deadAt && |l.q.dlq| <= DLQ_MAXLEN
    requires l'.h.sent == l.h.sent && l'.h.dead == l.h.dead + [id]
    requires l'.h.deadAt == l.h.deadAt[id := l.clock] && l'.q.dlq == RingPush(l.q.dlq, l.h.sent[id])
    ensures RingOk(l')
  {
    hide RingPush, HoldsNewest, Distinct;
    DistinctAppend(l.h.dead, id);
    forall i | 0 <= i < |l'.h.dead| ensures l'.h.dead[i] < |l'.h.sent| && l'.h.dead[i] in l'.h.deadAt {
      if i < |l.h.dead| {
        assert l'.h.dead[i] == l.h.dead[i];
      }
    }
    forall k | k in l'.h.deadAt ensures k in l'.h.dead {
      assert k == id || k in l.h.dead;
    }
    PushKeepsNewest(l.h.sent, l.h.dead, l.q.dlq, id);
  }

  lemma DistinctAppend(s: seq<MsgId>, x: MsgId)
    requires Distinct(s) && x !in s
    ensures Distinct(s + [x])
  {
  }

  lemma SweepLoanRing(cfg: Config, l: Ledger, h: Handle)
    requires Good(cfg, l) && Lapsed(l, h)
    ensures RingOk(SweepLoanRaw(cfg, l, h))
  {
    hide Fifo, LifeOk, HoldsNewest, RingOk;
    var id := l.q.inflight[h];
    assert LoanPlaced(l.q, h) && EntryPlaced(cfg, l.q, id) && MsgOk(cfg, l, id) && OneFate(l, id);
    assert |l.q.dlq| <= DLQ_MAXLEN;
    hide Valid, Told, RingPush, OneFate;
    if l.q.entries[id].receiveCount >= cfg.maxReceives {
      BuryKeepsRing(l, SweepLoanRaw(cfg, l, h), id);
    } else {
      SameRing(l, SweepLoanRaw(cfg, l, h));
    }
  }

  lemma SameRing(l: Ledger, l': Ledger)
    requires RingOk(l) && l'.h.sent == l.h.sent && l'.h.dead == l.h.dead && l'.h.deadAt == l.h.deadAt
    requires l'.q.dlq == l.q.dlq
    ensures RingOk(l')
  {
  }

  lemma SweepLoanConserves(cfg: Config, l: Ledger, h: Handle)
    requires Good(cfg, l) && Lapsed(l, h)
    ensures Counted(SweepLoanRaw(cfg, l, h)) && Conserved(SweepLoanRaw(cfg, l, h))
  {
    hide Fifo, LifeOk, RingOk;
    var l', id := SweepLoanRaw(cfg, l, h), l.q.inflight[h];
    assert LoanPlaced(l.q, h) && EntryPlaced(cfg, l.q, id) && OneFate(l, id);
    hide Valid, Told;
    SweepLoanRing(cfg, l, h);
    forall k | 0 <= k < l'.q.nextId ensures OneFate(l', k) {
      assert OneFate(l, k);
    }
  }

  lemma SweepLoanFifo(cfg: Config, l: Ledger, h: Handle)
    requires Good(cfg, l) && Lapsed(l, h)
    ensures Counted(SweepLoanRaw(cfg, l, h)) && Fifo(SweepLoanRaw(cfg, l, h))
  {
    var l', id := SweepLoanRaw(cfg, l, h), l.q.inflight[h];
    assert LoanPlaced(l.q, h) && EntryPlaced(cfg, l.q, id);
    RequeueKeepsFifo(l, l', id);
  }

  /** Appending an id that has been queued before keeps the order of the deque. */
  lemma RequeueKeepsFifo(l: Ledger, l': Ledger, id: MsgId)
    requires Counted(l) && Counted(l') && Fifo(l) && id < l.q.nextId == l'.q.nextId
    requires l'.h.delivered == l.h.delivered && l'.h.backlogEnd == l.h.backlogEnd
    requires || (l'.h.queued == l.h.queued && l'.q.visible == l.q.visible)
             || (l'.h.queued == l.h.queued + [id] && l'.q.visible == l.q.visible + [id])
    ensures Fifo(l')
  {
    var n := |l.h.queued|;
    forall p | 0 <= p < |l'.h.queued| ensures EarlierIdsPrecede(l'.h.queued, p) {
      if p < n {
        assert EarlierIdsPrecede(l.h.queued, p);
        assert l'.h.queued[..p] == l.h.queued[..p];
      } else {
        assert l'.h.queued[..p] == l.h.queued;
      }
    }
    forall i, p | 0 <= i < |l'.h.delivered| && 0 <= p < |l'.h.queued| ensures WaitingGoesFirst(l', i, p) {
      if p < n {
        assert WaitingGoesFirst(l, i, p);
      }
    }
  }

  /** One expired loan goes back to the deque, or to the dead letters. */
  function SweepLoan(cfg: Config, l: Ledger, h: Handle): (l': Ledger)
    requires Good(cfg, l) && Lapsed(l, h)
    ensures Good(cfg, l') && l'.q == SweepOne(cfg, l.q, h) && l'.clock == l.clock
    ensures l.h.sent == l'.h.sent && l.h.delivered == l'.h.delivered && l.h.acked == l'.h.acked
    ensures l.h.attempts == l'.h.attempts
  {
    hide Conserved, Fifo, Told, Valid, SweepOne;
    SweepLoanGood(cfg, l, h);
    SweepLoanRaw(cfg, l, h)
  }

  lemma SweepLoanTold(cfg: Config, l: Ledger, h: Handle)
    requires Good(cfg, l) && Lapsed(l, h)
    ensures Counted(SweepLoanRaw(cfg, l, h)) && Told(cfg, SweepLoanRaw(cfg, l, h))
  {
    hide Valid, Conserved, Fifo, LifeOk, OneMoves, LifeOf, RingPush;
    var l', id := SweepLoanRaw(cfg, l, h), l.q.inflight[h];
    LoanLife(cfg, l, h);
    SweepLoanMoves(cfg, l, h);
    MoveKeepsMessages(cfg, l, l', id, if |l.h.attempts[id]| >= cfg.maxReceives then Bury else Return);
  }

  lemma SweepLoanGood(cfg: Config, l: Ledger, h: Handle)
    requires Good(cfg, l) && Lapsed(l, h)
    ensures Good(cfg, SweepLoanRaw(cfg, l, h))
    ensures SweepLoanRaw(cfg, l, h).q == SweepOne(cfg, l.q, h)
  {
    hide LifeOk, RingPush, SweepOne, Conserved, Fifo, Told, Valid;
    SweepLoanTold(cfg, l, h);
    SweepLoanConserves(cfg, l, h);
    SweepLoanFifo(cfg, l, h);
  }

  ghost predicate AllLapsed(l: Ledger, hs: seq<Handle>) {
    AllLent(l.q, hs) && forall i :: 0 <= i < |hs| ==> Lapsed(l, hs[i])
  }

  lemma RestStillLapsed(cfg: Config, l: Ledger, hs: seq<Handle>)
    requires Good(cfg, l) && AllLapsed(l, hs) && hs != []
    ensures AllLapsed(SweepLoan(cfg, l, hs[0]), hs[1..])
  {
    hide Conserved, Fifo, Told, SweepAll;
    var l' := SweepLoan(cfg, l, hs[0]);
    SweepAllUnfolds(cfg, l.q, hs);
    forall i | 0 <= i < |hs[1..]| ensures Lapsed(l', hs[1..][i]) {
      assert Lapsed(l, hs[i + 1]);
      assert LoanPlaced(l.q, hs[0]) && LoanPlaced(l.q, hs[i + 1]);
    }
  }

  function SweepLoans(cfg: Config, l: Ledger, hs: seq<Handle>): (l': Ledger)
    requires Good(cfg, l) && AllLapsed(l, hs)
    ensures Good(cfg, l') && l'.q == SweepAll(cfg, l.q, hs) && l'.clock == l.clock
    ensures l.h.sent == l'.h.sent && l.h.delivered == l'.h.delivered && l.h.acked == l'.h.acked
    ensures l.h.attempts == l'.h.attempts
    decreases |hs|
  {
    if hs == [] then l
    else
      assert Lapsed(l, hs[0]);
      RestStillLapsed(cfg, l, hs);
      SweepLoans(cfg, SweepLoan(cfg, l, hs[0]), hs[1..])
  }

  // ---- lending the message at the head of the deque

  function LendHeadRaw(cfg: Config, l: Ledger, deadline: real): Ledger
    requires Valid(cfg, l.q) && Counted(l) && l.q.visible != []
  {
    var id := l.q.visible[0];
    assert EntryPlaced(cfg, l.q, id);
    l.(q := LendOne(cfg, l.q, deadline).0,
       h := l.h.(delivered := l.h.delivered + [id],
                 backlogEnd := l.h.backlogEnd + [|l.h.queued|],
                 attempts := l.h.attempts[id := l.h.attempts[id] + [Attempt(l.q.nextHandle, l.clock, None, deadline)]]))
  }

  lemma LendHeadLeavesOthers(cfg: Config, l: Ledger, deadline: real)
    requires Good(cfg, l) && l.q.visible != []
    ensures Counted(LendHeadRaw(cfg, l, deadline))
    ensures OthersStay(l, LendHeadRaw(cfg, l, deadline), l.q.visible[0])
  {
    hide Conserved, Fifo, Told, OthersStay;
    assert EntryPlaced(cfg, l.q, l.q.visible[0]);
    hide Valid;
    AgreementMeansStay(l, LendHeadRaw(cfg, l, deadline), l.q.visible[0]);
  }

  lemma LendHeadMoves(cfg: Config, l: Ledger, deadline: real)
    requires Good(cfg, l) && l.q.visible != []
    ensures var l' := LendHeadRaw(cfg, l, deadline);
            && Counted(l')
            && OneMoves(cfg, l, l', l.q.visible[0], Deliver(l.q.nextHandle, deadline))
  {
    var id := l.q.visible[0];
    assert EntryPlaced(cfg, l.q, id) && MsgOk(cfg, l, id);
    hide Valid, Conserved, Fifo, Told, TimesOk, OthersStay;
    LendHeadLeavesOthers(cfg, l, deadline);
  }

  lemma LendHeadConserves(cfg: Config, l: Ledger, deadline: real)
    requires Good(cfg, l) && l.q.visible != []
    ensures Counted(LendHeadRaw(cfg, l, deadline)) && Conserved(LendHeadRaw(cfg, l, deadline))
  {
    var l', id := LendHeadRaw(cfg, l, deadline), l.q.visible[0];
    assert EntryPlaced(cfg, l.q, id);
    forall k | 0 <= k < l'.q.nextId ensures OneFate(l', k) {
      assert OneFate(l, k);
    }
  }

  /** Serving the head of the deque keeps its order. */
  lemma ServeKeepsFifo(l: Ledger, l': Ledger)
    requires Counted(l) && Counted(l') && Fifo(l) && l'.q.nextId == l.q.nextId
    requires l.q.visible != [] && Distinct(l.q.visible)
    requires l'.h.queued == l.h.queued && l'.q.visible == l.q.visible[1..]
    requires l'.h.delivered == l.h.delivered + [l.q.visible[0]]
    requires l'.h.backlogEnd == l.h.backlogEnd + [|l.h.queued|]
    ensures Fifo(l')
  {
    var n := |l.h.delivered|;
    assert l.q.visible == [l.q.visible[0]] + l.q.visible[1..];
    forall i, p | 0 <= i < |l'.h.delivered| && 0 <= p < |l'.h.queued| ensures WaitingGoesFirst(l', i, p) {
      if i < n {
        assert WaitingGoesFirst(l, i, p);
      } else if i < p {
        assert l.h.queued[p] == l.q.visible[p - n];
      }
    }
  }

  lemma LendHeadFifo(cfg: Config, l: Ledger, deadline: real)
    requires Good(cfg, l) && l.q.visible != []
    ensures Counted(LendHeadRaw(cfg, l, deadline)) && Fifo(LendHeadRaw(cfg, l, deadline))
  {
    hide Conserved, Told, Fifo;
    var l' := LendHeadRaw(cfg, l, deadline);
    assert EntryPlaced(cfg, l.q, l.q.visible[0]);
    assert Distinct(l.q.visible);
    hide Valid, Distinct;
    ServeKeepsFifo(l, l');
  }

  lemma LendHeadGood(cfg: Config, l: Ledger, deadline: real)
    requires Good(cfg, l) && l.q.visible != []
    ensures Good(cfg, LendHeadRaw(cfg, l, deadline))
  {
    hide Fifo, Conserved, LifeOk, Moved, OthersStay;
    var l', id := LendHeadRaw(cfg, l, deadline), l.q.visible[0];
    LendHeadMoves(cfg, l, deadline);
    LendHeadConserves(cfg, l, deadline);
    LendHeadFifo(cfg, l, deadline);
    assert MsgOk(cfg, l, id) && EntryPlaced(cfg, l.q, id);
    MoveKeepsMessages(cfg, l, l', id, Deliver(l.q.nextHandle, deadline));
    TotalOfUpdate(l.h.attempts, id, l'.h.attempts[id]);
  }

  function LendHead(cfg: Config, l: Ledger, deadline: real): (l': Ledger)
    requires Good(cfg, l) && l.q.visible != []
    ensures Good(cfg, l') && l'.q == LendOne(cfg, l.q, deadline).0 && l'.clock == l.clock
    ensures l.h.sent == l'.h.sent && l.h.delivered < l'.h.delivered && l.h.acked == l'.h.acked
  {
    LendHeadGood(cfg, l, deadline);
    LendHeadRaw(cfg, l, deadline)
  }

  function LendHeads(cfg: Config, l: Ledger, n: int, deadline: real): (l': Ledger)
    requires Good(cfg, l)
    ensures Good(cfg, l') && l'.q == LendMany(cfg, l.q, n, deadline).0 && l'.clock == l.clock
    ensures l.h.sent == l'.h.sent && l.h.delivered <= l'.h.delivered && l.h.acked == l'.h.acked
    decreases |l.q.visible|
  {
    if l.q.visible == [] || n <= 0 then l
    else LendHeads(cfg, LendHead(cfg, l, deadline), n - 1, deadline)
  }

  // ---- sending

  function AcceptRaw(cfg: Config, l: Ledger, e: Event): Ledger
    requires cfg.maxReceives >= 1 && Valid(cfg, l.q)
  {
    var (q', r) := Send(cfg, l.q, e);
    if r.QueueFull? then l
    else
      l.(q := q',
         h := l.h.(sent := l.h.sent + [e],
                   queued := l.h.queued + [l.q.nextId],
                   attempts := l.h.attempts + [[]]))
  }

  lemma AcceptGood(cfg: Config, l: Ledger, e: Event)
    requires Good(cfg, l)
    ensures Good(cfg, AcceptRaw(cfg, l, e))
  {
    hide Fifo, Conserved, LifeOk;
    var l', id := AcceptRaw(cfg, l, e), l.q.nextId;
    FreshLifeOk(cfg, l.clock);
    if Send(cfg, l.q, e).1.Sent? {
      Places(cfg, l.q);
      assert l'.h.attempts[..id] == l.h.attempts;
      AcceptFifo(cfg, l, e);
      AcceptConserves(cfg, l, e);
      forall k | 0 <= k < l'.q.nextId ensures MsgOk(cfg, l', k) {
        if k < id {
          assert MsgOk(cfg, l, k);
          assert LifeOf(l', k) == LifeOf(l, k);
        } else {
          assert LifeOf(l', k) == Life(Visible, []);
        }
      }
    }
  }

  lemma AcceptConserves(cfg: Config, l: Ledger, e: Event)
    requires Good(cfg, l) && Send(cfg, l.q, e).1.Sent?
    ensures Counted(AcceptRaw(cfg, l, e)) && Conserved(AcceptRaw(cfg, l, e))
  {
    hide Fifo, Told;
    var l', id := AcceptRaw(cfg, l, e), l.q.nextId;
    Places(cfg, l.q);
    assert id !in l.q.entries;
    hide Valid, EntryPlaced, LoanPlaced;
    forall k | 0 <= k < l'.q.nextId ensures OneFate(l', k) {
      if k < id {
        assert OneFate(l, k);
      }
    }
  }

  lemma AcceptFifo(cfg: Config, l: Ledger, e: Event)
    requires Good(cfg, l) && Send(cfg, l.q, e).1.Sent?
    ensures Counted(AcceptRaw(cfg, l, e)) && Fifo(AcceptRaw(cfg, l, e))
  {
    var l', id, n := AcceptRaw(cfg, l, e), l.q.nextId, |l.h.queued|;
    forall p | 0 <= p < |l'.h.queued| ensures EarlierIdsPrecede(l'.h.queued, p) {
      if p < n {
        assert EarlierIdsPrecede(l.h.queued, p);
        assert l'.h.queued[..p] == l.h.queued[..p];
      } else {
        assert l'.h.queued[..p] == l.h.queued;
      }
    }
    forall i, p | 0 <= i < |l'.h.delivered| && 0 <= p < |l'.h.queued| ensures WaitingGoesFirst(l', i, p) {
      if p < n {
        assert WaitingGoesFirst(l, i, p);
      }
    }
    assert forall k :: 0 <= k < l'.q.nextId ==> k in l'.h.queued by {
      assert l'.h.queued[n] == id;
    }
  }

  function Accept(cfg: Config, l: Ledger, e: Event): (l': Ledger)
    requires Good(cfg, l)
    ensures Good(cfg, l') && l'.q == Send(cfg, l.q, e).0 && l'.clock == l.clock
    ensures l'.h.sent == if Send(cfg, l.q, e).1.Sent? then l.h.sent + [e] else l.h.sent
    ensures l.h.delivered == l'.h.delivered && l.h.acked == l'.h.acked
  {
    AcceptGood(cfg, l, e);
    AcceptRaw(cfg, l, e)
  }

  // ---- acknowledging

  function AcknowledgeRaw(cfg: Config, l: Ledger, h: Handle): Ledger
    requires Valid(cfg, l.q)
  {
    if h !in l.q.inflight then l
    else l.(q := Delete(cfg, l.q, h).0, h := l.h.(acked := l.h.acked + {l.q.inflight[h]}))
  }

  lemma AcknowledgeLeavesOthers(cfg: Config, l: Ledger, h: Handle)
    requires Good(cfg, l) && h in l.q.inflight
    ensures Counted(AcknowledgeRaw(cfg, l, h)) && OthersStay(l, AcknowledgeRaw(cfg, l, h), l.q.inflight[h])
  {
    hide Fifo, RingOk, LifeOk, Told, Moved, OthersStay, OneFate;
    assert LoanPlaced(l.q, h) && EntryPlaced(cfg, l.q, l.q.inflight[h]);
    hide Valid, Conserved;
    AgreementMeansStay(l, AcknowledgeRaw(cfg, l, h), l.q.inflight[h]);
  }

  lemma AcknowledgeMoves(cfg: Config, l: Ledger, h: Handle)
    requires Good(cfg, l) && h in l.q.inflight
    ensures var l' := AcknowledgeRaw(cfg, l, h);
            Counted(l') && OneMoves(cfg, l, l', l.q.inflight[h], Ack)
  {
    hide Valid, Conserved, Fifo, Told, OthersStay, Coupled;
    LoanLife(cfg, l, h);
    AcknowledgeLeavesOthers(cfg, l, h);
  }

  lemma AcknowledgeTold(cfg: Config, l: Ledger, h: Handle)
    requires Good(cfg, l) && h in l.q.inflight
    ensures Counted(AcknowledgeRaw(cfg, l, h)) && Told(cfg, AcknowledgeRaw(cfg, l, h))
  {
    hide Valid, Conserved, Fifo, LifeOk, OneMoves, LifeOf;
    LoanLife(cfg, l, h);
    AcknowledgeMoves(cfg, l, h);
    MoveKeepsMessages(cfg, l, AcknowledgeRaw(cfg, l, h), l.q.inflight[h], Ack);
  }

  lemma AcknowledgeGood(cfg: Config, l: Ledger, h: Handle)
    requires Good(cfg, l)
    ensures Good(cfg, AcknowledgeRaw(cfg, l, h))
  {
    hide Fifo, LifeOk;
    if h in l.q.inflight {
      LoanLife(cfg, l, h);
      AcknowledgeTold(cfg, l, h);
      AcknowledgeConserves(cfg, l, h);
      hide Valid, Conserved, Told, Coupled;
      RequeueKeepsFifo(l, AcknowledgeRaw(cfg, l, h), l.q.inflight[h]);
    }
  }

  lemma AcknowledgeConserves(cfg: Config, l: Ledger, h: Handle)
    requires Good(cfg, l) && h in l.q.inflight
    ensures Counted(AcknowledgeRaw(cfg, l, h)) && Conserved(AcknowledgeRaw(cfg, l, h))
  {
    var l', id := AcknowledgeRaw(cfg, l, h), l.q.inflight[h];
    assert LoanPlaced(l.q, h) && EntryPlaced(cfg, l.q, id);
    forall k | 0 <= k < l'.q.nextId ensures OneFate(l', k) {
      assert OneFate(l, k);
    }
  }

  function Acknowledge(cfg: Config, l: Ledger, h: Handle): (l': Ledger)
    requires Good(cfg, l)
    ensures Good(cfg, l') && l'.q == Delete(cfg, l.q, h).0 && l'.clock == l.clock
    ensures l.h.sent == l'.h.sent && l.h.delivered == l'.h.delivered
    ensures h !in l.q.inflight ==> l' == l
    ensures h in l.q.inflight ==> l.q.inflight[h] !in l.h.acked && l'.h.acked == l.h.acked + {l.q.inflight[h]}
  {
    AcknowledgeGood(cfg, l, h);
    assert h in l.q.inflight ==> LoanPlaced(l.q, h) && OneFate(l, l.q.inflight[h]) by {
      if h in l.q.inflight {
        assert LoanPlaced(l.q, h) && EntryPlaced(cfg, l.q, l.q.inflight[h]);
      }
    }
    AcknowledgeRaw(cfg, l, h)
  }

  // ---- moving a deadline: the heartbeat and the reported failure

  /** `seconds` is the heartbeat's extension; None reports a failure. */
  function HoldRaw(cfg: Config, l: Ledger, h: Handle, seconds: Option<real>): Ledger
    requires Valid(cfg, l.q) && Counted(l)
  {
    if h !in l.q.inflight then l
    else
      var id := l.q.inflight[h];
      assert LoanPlaced(l.q, h) && EntryPlaced(cfg, l.q, id);
      var q' := if seconds.Some? then ChangeVisibility(cfg, l.q, h, seconds.value, l.clock).0
                else Fail(cfg, l.q, h, l.clock).0;
      var reportedAt := if seconds.Some? then None else Some(l.clock);
      var until := l.clock + if seconds.Some? then seconds.value else Backoff(cfg, l.q.entries[id].receiveCount);
      l.(q := q', h := l.h.(attempts := l.h.attempts[id := Mark(l.h.attempts[id], reportedAt, until)]))
  }

  lemma HoldLeavesOthers(cfg: Config, l: Ledger, h: Handle, seconds: Option<real>)
    requires Good(cfg, l) && h in l.q.inflight
    ensures Counted(HoldRaw(cfg, l, h, seconds)) && OthersStay(l, HoldRaw(cfg, l, h, seconds), l.q.inflight[h])
  {
    hide Fifo, RingOk, LifeOk, Told, Moved, OthersStay, OneFate;
    assert LoanPlaced(l.q, h) && EntryPlaced(cfg, l.q, l.q.inflight[h]);
    hide Valid, Conserved;
    AgreementMeansStay(l, HoldRaw(cfg, l, h, seconds), l.q.inflight[h]);
  }

  lemma HoldMoves(cfg: Config, l: Ledger, h: Handle, seconds: Option<real>)
    requires Good(cfg, l) && h in l.q.inflight
    ensures var l' := HoldRaw(cfg, l, h, seconds);
            && Counted(l')
            && OneMoves(cfg, l, l', l.q.inflight[h], if seconds.Some? then Extend(l.clock + seconds.value) else Report)
  {
    hide Valid, Conserved, Fifo, Told, OthersStay, Backoff, Coupled;
    LoanLife(cfg, l, h);
    HoldLeavesOthers(cfg, l, h, seconds);
  }

  lemma HoldTold(cfg: Config, l: Ledger, h: Handle, seconds: Option<real>)
    requires Good(cfg, l) && h in l.q.inflight
    ensures Counted(HoldRaw(cfg, l, h, seconds)) && Told(cfg, HoldRaw(cfg, l, h, seconds))
  {
    hide Valid, Conserved, Fifo, LifeOk, OneMoves, Backoff, LifeOf;
    var l', id := HoldRaw(cfg, l, h, seconds), l.q.inflight[h];
    LoanLife(cfg, l, h);
    HoldMoves(cfg, l, h, seconds);
    MoveKeepsMessages(cfg, l, l', id, if seconds.Some? then Extend(l.clock + seconds.value) else Report);
    TotalOfUpdate(l.h.attempts, id, l'.h.attempts[id]);
  }

  lemma HoldGood(cfg: Config, l: Ledger, h: Handle, seconds: Option<real>)
    requires Good(cfg, l)
    ensures Good(cfg, HoldRaw(cfg, l, h, seconds))
  {
    hide Fifo, LifeOk, Backoff, OnlyDeadlineMoves;
    if h in l.q.inflight {
      LoanLife(cfg, l, h);
      HoldTold(cfg, l, h, seconds);
      HoldConserves(cfg, l, h, seconds);
      hide Valid, Conserved, Told, Coupled;
      RequeueKeepsFifo(l, HoldRaw(cfg, l, h, seconds), l.q.inflight[h]);
    }
  }

  lemma HoldConserves(cfg: Config, l: Ledger, h: Handle, seconds: Option<real>)
    requires Good(cfg, l) && h in l.q.inflight
    ensures Counted(HoldRaw(cfg, l, h, seconds)) && Conserved(HoldRaw(cfg, l, h, seconds))
  {
    hide Fifo, Told;
    var l', id := HoldRaw(cfg, l, h, seconds), l.q.inflight[h];
    assert LoanPlaced(l.q, h) && EntryPlaced(cfg, l.q, id);
    forall k | 0 <= k < l'.q.nextId ensures OneFate(l', k) {
      assert OneFate(l, k);
    }
  }

  function Hold(cfg: Config, l: Ledger, h: Handle, seconds: Option<real>): (l': Ledger)
    requires Good(cfg, l)
    ensures Good(cfg, l') && l'.clock == l.clock
    ensures l'.q == if seconds.Some? then ChangeVisibility(cfg, l.q, h, seconds.value, l.clock).0
                    else Fail(cfg, l.q, h, l.clock).0
    ensures l.h.sent == l'.h.sent && l.h.delivered == l'.h.delivered && l.h.acked == l'.h.acked
    ensures h !in l.q.inflight ==> l' == l
  {
    HoldGood(cfg, l, h, seconds);
    HoldRaw(cfg, l, h, seconds)
  }

  // ---- receive

  lemma ExpiredLapsed(l: Ledger)
    ensures AllLapsed(l, Expired(l.q, l.clock))
  {
  }

  function SweepAt(cfg: Config, l: Ledger, t: real): (l': Ledger)
    requires Good(cfg, l) && l.clock <= t
    ensures Good(cfg, l') && l'.q == Sweep(cfg, l.q, t) && l'.clock == t
    ensures l.h.sent == l'.h.sent && l.h.delivered == l'.h.delivered && l.h.acked == l'.h.acked
    ensures l.h.attempts == l'.h.attempts
  {
    var l1 := At(cfg, l, t);
    ExpiredLapsed(l1);
    SweepLoans(cfg, l1, Expired(l1.q, t))
  }

  function LendAt(cfg: Config, l: Ledger, n: int, vt: Option<real>, t: real): (l': Ledger)
    requires Good(cfg, l) && l.clock <= t
    ensures Good(cfg, l') && l'.clock == t
    ensures l'.q == LendMany(cfg, l.q, n, t + if vt.Some? then vt.value else cfg.visibility).0
    ensures l.h.sent == l'.h.sent && l.h.delivered <= l'.h.delivered && l.h.acked == l'.h.acked
  {
    LendHeads(cfg, At(cfg, l, t), n, t + if vt.Some? then vt.value else cfg.visibility)
  }

  function Collect(cfg: Config, l: Ledger, n: int, vt: Option<real>, t1: real, t2: real): (l': Ledger)
    requires Good(cfg, l) && l.clock <= t1 <= t2
    ensures Good(cfg, l') && l'.clock == t2
    ensures l.h.sent == l'.h.sent && l.h.delivered <= l'.h.delivered && l.h.acked == l'.h.acked
  {
    LendAt(cfg, SweepAt(cfg, l, t1), n, vt, t2)
  }

  lemma CollectReceives(cfg: Config, l: Ledger, n: int, vt: Option<real>, t1: real, t2: real)
    requires Good(cfg, l) && l.clock <= t1 <= t2
    ensures Collect(cfg, l, n, vt, t1, t2).q == Receive(cfg, l.q, n, vt, t1, t2).0
  {
    hide Valid, Conserved, Fifo, Told, LendMany, Sweep, SweepAt, LendAt;
  }
}
