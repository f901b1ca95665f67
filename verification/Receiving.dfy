/**
  The whole effect of one `receive`: who comes back, who is buried, who is
  served and in which order, and that nobody else notices.
 */
module Receiving {
  import opened Sequences
  import opened Models
  import opened QueueSpec
  import QueueRuns

  // ---- the sweep ----------------------------------------------------------

  /** The message on loan under `h` still has a delivery left. */
  predicate MayReturn(cfg: Config, q: Queue, h: Handle)
    requires h in q.inflight && q.inflight[h] in q.entries
  {
    q.entries[q.inflight[h]].receiveCount < cfg.maxReceives
  }

  /** `hs` are loans of `q`, none twice. */
  ghost predicate Loans(q: Queue, hs: seq<Handle>) {
    && Distinct(hs)
    && (forall i :: 0 <= i < |hs| ==> hs[i] in q.inflight && q.inflight[hs[i]] in q.entries)
    && (forall i, j :: 0 <= i < j < |hs| ==> q.inflight[hs[i]] != q.inflight[hs[j]])
  }

  /** Those of the lapsed messages that go back to the deque, in the order they were lent. */
  ghost function Returning(cfg: Config, q: Queue, hs: seq<Handle>): seq<MsgId>
    requires Loans(q, hs)
  {
    if hs == [] then []
    else (if MayReturn(cfg, q, hs[0]) then [q.inflight[hs[0]]] else []) + Returning(cfg, q, hs[1..])
  }

  /** The events of the others, in the same order. */
  ghost function Buried(cfg: Config, q: Queue, hs: seq<Handle>): seq<Event>
    requires Loans(q, hs)
  {
    if hs == [] then []
    else
      (if MayReturn(cfg, q, hs[0]) then [] else [q.entries[q.inflight[hs[0]]].event]) + Buried(cfg, q, hs[1..])
  }

  /** What a ring that has been given `letters`, oldest first, still holds. */
  function Newest(letters: seq<Event>): seq<Event> {
    if |letters| <= DLQ_MAXLEN then letters else letters[|letters| - DLQ_MAXLEN..]
  }

  lemma NewestAfterPush(dlq: seq<Event>, e: Event, more: seq<Event>)
    requires |dlq| <= DLQ_MAXLEN
    ensures Newest(RingPush(dlq, e) + more) == Newest(dlq + ([e] + more))
  {
    var kept, all := RingPush(dlq, e) + more, dlq + ([e] + more);
    assert kept == all[|all| - |kept|..];
  }

  lemma LentAreLoans(cfg: Config, q: Queue, hs: seq<Handle>)
    requires Valid(cfg, q) && AllLent(q, hs)
    ensures Loans(q, hs)
  {
    Places(cfg, q);
  }

  /** Entry `id` after the sweep of `hs`: gone, returned, or as it was. */
  ghost predicate Routed(cfg: Config, q: Queue, q': Queue, hs: seq<Handle>, id: MsgId)
    requires id in q.entries
  {
    var e := q.entries[id];
    if e.handle.Some? && e.handle.value in hs then
      if e.receiveCount < cfg.maxReceives then id in q'.entries && q'.entries[id] == e.(handle := None)
      else id !in q'.entries
    else id in q'.entries && q'.entries[id] == e
  }

  lemma {:induction false} OtherLoansSame(cfg: Config, q: Queue, q1: Queue, hs: seq<Handle>)
    requires Loans(q, hs) && Loans(q1, hs)
    requires forall i :: 0 <= i < |hs| ==>
               q1.inflight[hs[i]] == q.inflight[hs[i]] && q1.entries[q.inflight[hs[i]]] == q.entries[q.inflight[hs[i]]]
    ensures Returning(cfg, q1, hs) == Returning(cfg, q, hs) && Buried(cfg, q1, hs) == Buried(cfg, q, hs)
  {
    if hs != [] {
      OtherLoansSame(cfg, q, q1, hs[1..]);
    }
  }

  /** The loan under `h`, the first of `hs`, is routed; the other loans stay as they were. */
  lemma SweepFirst(cfg: Config, q: Queue, hs: seq<Handle>)
    requires Valid(cfg, q) && AllLent(q, hs) && hs != []
    ensures Loans(q, hs) && Loans(q, hs[1..])
    ensures AllLent(SweepOne(cfg, q, hs[0]), hs[1..]) && Loans(SweepOne(cfg, q, hs[0]), hs[1..])
    ensures var q1, id := SweepOne(cfg, q, hs[0]), q.inflight[hs[0]];
            && q1.visible == q.visible + (if MayReturn(cfg, q, hs[0]) then [id] else [])
            && q1.dlq == (if MayReturn(cfg, q, hs[0]) then q.dlq else RingPush(q.dlq, q.entries[id].event))
            && Returning(cfg, q1, hs[1..]) == Returning(cfg, q, hs[1..])
            && Buried(cfg, q1, hs[1..]) == Buried(cfg, q, hs[1..])
  {
    hide RingPush, Returning, Buried;
    LentAreLoans(cfg, q, hs);
    SweepAllUnfolds(cfg, q, hs);
    LentAreLoans(cfg, SweepOne(cfg, q, hs[0]), hs[1..]);
    hide Valid, AllLent;
    OtherLoansSame(cfg, q, SweepOne(cfg, q, hs[0]), hs[1..]);
  }

  lemma {:induction false} SweepAllReturns(cfg: Config, q: Queue, hs: seq<Handle>)
    requires Valid(cfg, q) && AllLent(q, hs)
    ensures Loans(q, hs) && SweepAll(cfg, q, hs).visible == q.visible + Returning(cfg, q, hs)
    decreases |hs|
  {
    hide SweepOne, Loans, AllLent, RingPush, Valid, Returning, Buried;
    LentAreLoans(cfg, q, hs);
    if hs == [] {
      NothingRouted(cfg, q);
    } else {
      SweepFirst(cfg, q, hs);
      SweepAllUnfolds(cfg, q, hs);
      SweepAllReturns(cfg, SweepOne(cfg, q, hs[0]), hs[1..]);
      UnfoldRoutes(cfg, q, hs);
      var id, rest := q.inflight[hs[0]], hs[1..];
      Regrouped(q.visible, id, Returning(cfg, q, rest));
    }
  }

  lemma Regrouped(line: seq<MsgId>, id: MsgId, rest: seq<MsgId>)
    ensures (line + [id]) + rest == line + ([id] + rest) && line + [] == line
  {
  }

  lemma {:induction false} SweepAllBuries(cfg: Config, q: Queue, hs: seq<Handle>)
    requires Valid(cfg, q) && AllLent(q, hs)
    ensures Loans(q, hs) && SweepAll(cfg, q, hs).dlq == Newest(q.dlq + Buried(cfg, q, hs))
    decreases |hs|
  {
    hide SweepOne, Loans, AllLent, RingPush, Newest, Valid, Returning, Buried;
    LentAreLoans(cfg, q, hs);
    RingIsNewest(cfg, q);
    if hs == [] {
      NothingRouted(cfg, q);
    } else {
      SweepFirst(cfg, q, hs);
      SweepAllUnfolds(cfg, q, hs);
      SweepAllBuries(cfg, SweepOne(cfg, q, hs[0]), hs[1..]);
      UnfoldRoutes(cfg, q, hs);
      if !MayReturn(cfg, q, hs[0]) {
        NewestAfterPush(q.dlq, q.entries[q.inflight[hs[0]]].event, Buried(cfg, q, hs[1..]));
      }
    }
  }

  /** What the sweep of `hs` does to the deque and to the dead letters. */
  lemma SweepAllQueues(cfg: Config, q: Queue, hs: seq<Handle>)
    requires Valid(cfg, q) && AllLent(q, hs)
    ensures Loans(q, hs)
    ensures SweepAll(cfg, q, hs).visible == q.visible + Returning(cfg, q, hs)
    ensures SweepAll(cfg, q, hs).dlq == Newest(q.dlq + Buried(cfg, q, hs))
  {
    hide Valid, AllLent, Loans, SweepAll, Newest, Returning, Buried;
    SweepAllReturns(cfg, q, hs);
    SweepAllBuries(cfg, q, hs);
  }

  lemma NothingRouted(cfg: Config, q: Queue)
    requires Loans(q, [])
    ensures q.visible + Returning(cfg, q, []) == q.visible && q.dlq + Buried(cfg, q, []) == q.dlq
  {
  }

  lemma UnfoldRoutes(cfg: Config, q: Queue, hs: seq<Handle>)
    requires Loans(q, hs) && hs != [] && Loans(q, hs[1..])
    ensures var id, rest := q.inflight[hs[0]], hs[1..];
            if MayReturn(cfg, q, hs[0]) then
              Returning(cfg, q, hs) == [id] + Returning(cfg, q, rest) && Buried(cfg, q, hs) == Buried(cfg, q, rest)
            else
              && Returning(cfg, q, hs) == Returning(cfg, q, rest)
              && Buried(cfg, q, hs) == [q.entries[id].event] + Buried(cfg, q, rest)
  {
  }

  lemma RingIsNewest(cfg: Config, q: Queue)
    requires Valid(cfg, q)
    ensures |q.dlq| <= DLQ_MAXLEN && Newest(q.dlq) == q.dlq
  {
  }

  lemma SweepOneRoutes(cfg: Config, q: Queue, h: Handle, id: MsgId)
    requires Valid(cfg, q) && h in q.inflight && id in q.entries
    ensures Routed(cfg, q, SweepOne(cfg, q, h), [h], id)
  {
    hide RingPush;
    assert LoanPlaced(q, h) && EntryPlaced(cfg, q, id);
    hide Valid;
  }

  /** What the sweep of `hs` does to one entry; and it makes no entries. */
  lemma {:induction false} SweepAllRoutes(cfg: Config, q: Queue, hs: seq<Handle>, id: MsgId)
    requires Valid(cfg, q) && AllLent(q, hs)
    ensures id in q.entries ==> Routed(cfg, q, SweepAll(cfg, q, hs), hs, id)
    ensures id in SweepAll(cfg, q, hs).entries ==> id in q.entries
    decreases |hs|
  {
    hide Valid, SweepOne, AllLent;
    if hs != [] {
      SweepAllUnfolds(cfg, q, hs);
      FirstIsLent(q, hs);
      SweepAllRoutes(cfg, SweepOne(cfg, q, hs[0]), hs[1..], id);
      if id in q.entries {
        SweepOneRoutes(cfg, q, hs[0], id);
      } else {
        QueueRuns.SweepOneOnlyRemoves(cfg, q, hs[0]);
      }
    }
  }

  lemma FirstIsLent(q: Queue, hs: seq<Handle>)
    requires AllLent(q, hs) && hs != []
    ensures hs[0] in q.inflight
  {
  }

  // ---- the delivery loop --------------------------------------------------

  /**
    The `k`-th message handed out is the one at place `k` of the line: with its
    own event, its count one higher, under a fresh handle, until `deadline`.
   */
  ghost predicate Served(q: Queue, q': Queue, line: seq<MsgId>, ms: seq<Message>, deadline: real, k: nat)
    requires k < |ms|
  {
    && k < |line| && line[k] in q.entries
    && var e, h := q.entries[line[k]], q.nextHandle + k;
       && ms[k] == Message(e.event, h, e.receiveCount + 1)
       && h in q'.inflight && q'.inflight[h] == line[k]
       && line[k] in q'.entries && q'.entries[line[k]] == Entry(e.event, e.receiveCount + 1, Some(h), deadline)
  }

  ghost predicate AllServed(q: Queue, q': Queue, line: seq<MsgId>, ms: seq<Message>, deadline: real) {
    forall k :: 0 <= k < |ms| ==> Served(q, q', line, ms, deadline, k)
  }

  /** Lending the head serves it and moves the line up by one; everyone else stays. */
  lemma LendOneServes(cfg: Config, q: Queue, deadline: real)
    requires Valid(cfg, q) && q.visible != []
    ensures var (q1, m) := LendOne(cfg, q, deadline);
            && Served(q, q1, q.visible, [m], deadline, 0)
            && m.handle !in q.inflight
            && q1.visible == q.visible[1..] && q1.dlq == q.dlq
            && q1.nextId == q.nextId && q1.nextHandle == q.nextHandle + 1
            && (forall h :: h in q.inflight ==> h in q1.inflight && q1.inflight[h] == q.inflight[h])
            && (forall id :: id in q1.entries <==> id in q.entries)
            && (forall id :: id in q.entries && id != q.visible[0] ==> q1.entries[id] == q.entries[id])
            && q.visible[0] !in q.visible[1..]
  {
    Places(cfg, q);
  }

  lemma {:induction false} LendManyServes(cfg: Config, q: Queue, n: int, deadline: real, k: nat)
    requires Valid(cfg, q) && k < |LendMany(cfg, q, n, deadline).1|
    ensures var (q', ms) := LendMany(cfg, q, n, deadline); Served(q, q', q.visible, ms, deadline, k)
    decreases |q.visible|
  {
    hide Valid, LendOne;
    var (q1, m) := LendOne(cfg, q, deadline);
    LendOneServes(cfg, q, deadline);
    if k == 0 {
      QueueRuns.LendManySpares(cfg, q1, n - 1, deadline, m.handle);
    } else {
      LendManyServes(cfg, q1, n - 1, deadline, k - 1);
      assert q.visible[k] == q1.visible[k - 1];
    }
  }

  /** As many as were asked for and wait are served, and the line moves up by as many. */
  lemma {:induction false} LendManyMovesUp(cfg: Config, q: Queue, n: int, deadline: real)
    requires Valid(cfg, q)
    ensures var (q', ms) := LendMany(cfg, q, n, deadline);
            && |ms| == (if n <= 0 then 0 else if n < |q.visible| then n else |q.visible|)
            && q'.visible == q.visible[|ms|..] && q'.dlq == q.dlq && q'.nextId == q.nextId
    decreases |q.visible|
  {
    hide Valid, LendOne, Served;
    if q.visible != [] && n > 0 {
      LendOneServes(cfg, q, deadline);
      LendManyMovesUp(cfg, LendOne(cfg, q, deadline).0, n - 1, deadline);
    }
  }

  /** Whoever is not served does not notice. */
  lemma {:induction false} LendManyLeaves(cfg: Config, q: Queue, n: int, deadline: real, id: MsgId)
    requires Valid(cfg, q) && id !in q.visible[..|LendMany(cfg, q, n, deadline).1|]
    ensures var q' := LendMany(cfg, q, n, deadline).0;
            (id in q'.entries <==> id in q.entries) && (id in q.entries ==> q'.entries[id] == q.entries[id])
    decreases |q.visible|
  {
    hide Valid, LendOne, Served;
    if q.visible != [] && n > 0 {
      var q1 := LendOne(cfg, q, deadline).0;
      var k := |LendMany(cfg, q1, n - 1, deadline).1|;
      LendOneServes(cfg, q, deadline);
      assert q.visible[..1 + k] == [q.visible[0]] + q.visible[1..][..k];
      LendManyLeaves(cfg, q1, n - 1, deadline, id);
    }
  }

  // ---- the whole receive --------------------------------------------------

  /** The messages that may be served now, first come first: those waiting, then those coming back. */
  ghost function Line(cfg: Config, q: Queue, now: real): seq<MsgId>
    requires Loans(q, Expired(q, now))
  {
    q.visible + Returning(cfg, q, Expired(q, now))
  }

  /**
    All that a receive does. Lapsed loans come back to the end of the line or,
    their deliveries spent, go to the dead letters, of which the newest are
    kept. Then the first `n` in line are handed out in order, each with its own
    event, a count one higher and a fresh handle that lasts for the window
    asked. The rest keep their places, and no other message changes.
   */
  lemma ReceiveServesTheLine(cfg: Config, q: Queue, n: int, vt: Option<real>, t1: real, t2: real)
    requires Valid(cfg, q)
    ensures Loans(q, Expired(q, t1))
    ensures var (q', ms) := Receive(cfg, q, n, vt, t1, t2);
            var hs, line := Expired(q, t1), Line(cfg, q, t1);
            var deadline := t2 + if vt.Some? then vt.value else cfg.visibility;
            && |ms| == (if n <= 0 then 0 else if n < |line| then n else |line|)
            && AllServed(q, q', line, ms, deadline)
            && q'.visible == line[|ms|..]
            && q'.dlq == Newest(q.dlq + Buried(cfg, q, hs))
            && (forall id :: id in q'.entries ==> id in q.entries)
            && (forall id {:trigger Routed(cfg, q, q', hs, id)} ::
                  id in q.entries && id !in line[..|ms|] ==> Routed(cfg, q, q', hs, id))
  {
    hide Valid, SweepAll, LendMany, Returning, Buried, Newest, Expired, Loans, Routed, Served;
    var hs, d := Expired(q, t1), t2 + if vt.Some? then vt.value else cfg.visibility;
    var swept := SweepAll(cfg, q, hs);
    var (q', ms) := LendMany(cfg, swept, n, d);
    assert Receive(cfg, q, n, vt, t1, t2) == (q', ms);
    SweepAllQueues(cfg, q, hs);
    LendManyMovesUp(cfg, swept, n, d);
    QueueRuns.LendManySameIds(cfg, swept, n, d);
    forall id | id in q'.entries ensures id in q.entries {
      SweepAllRoutes(cfg, q, hs, id);
    }
    forall id | id in q.entries && id !in swept.visible[..|ms|] ensures Routed(cfg, q, q', hs, id) {
      SweepAllRoutes(cfg, q, hs, id);
      LendManyLeaves(cfg, swept, n, d, id);
      RoutedStays(cfg, q, swept, q', hs, id);
    }
    forall k | 0 <= k < |ms| ensures Served(q, q', swept.visible, ms, d, k) {
      LendManyServes(cfg, swept, n, d, k);
      ServedFromBefore(cfg, q, swept, q', hs, ms, d, k);
    }
    assert Line(cfg, q, t1) == swept.visible;
  }

  lemma RoutedStays(cfg: Config, q: Queue, swept: Queue, q': Queue, hs: seq<Handle>, id: MsgId)
    requires id in q.entries && Routed(cfg, q, swept, hs, id)
    requires id in q'.entries <==> id in swept.entries
    requires id in swept.entries ==> q'.entries[id] == swept.entries[id]
    ensures Routed(cfg, q, q', hs, id)
  {
  }

  /** The sweep changes neither the event nor the count of a message, nor does it issue a handle. */
  lemma ServedFromBefore(
    cfg: Config, q: Queue, swept: Queue, q': Queue, hs: seq<Handle>, ms: seq<Message>, deadline: real, k: nat)
    requires Valid(cfg, q) && AllLent(q, hs) && swept == SweepAll(cfg, q, hs)
    requires k < |ms| && Served(swept, q', swept.visible, ms, deadline, k)
    ensures Served(q, q', swept.visible, ms, deadline, k)
  {
    hide Valid, SweepAll, AllLent;
    SweepAllRoutes(cfg, q, hs, swept.visible[k]);
    QueueRuns.SweepAllTakes(cfg, q, hs);
  }

  lemma FirstSend(cfg: Config, e: Event)
    requires cfg.maxReceives >= 1 && cfg.maxsize >= 1
    ensures Valid(cfg, EMPTY_QUEUE)
    ensures var q := Send(cfg, EMPTY_QUEUE, e).0;
            Valid(cfg, q) && q.visible == [0] && 0 in q.entries && q.entries[0] == Entry(e, 0, None, 0.0)
  {
  }

  /**
    A delivery is counted when the message is lent, not when its loan runs out:
    the very first receive of an event hands it out with a count of one.
   */
  lemma CountedWhenLent(cfg: Config, e: Event, t1: real, t2: real)
    requires cfg.maxReceives >= 1 && cfg.maxsize >= 1
    ensures var (q', ms) := Receive(cfg, Send(cfg, EMPTY_QUEUE, e).0, 1, None, t1, t2);
            |ms| == 1 && ms[0].event == e && ms[0].receiveCount == 1
  {
    hide Valid, Receive, Send;
    FirstSend(cfg, e);
    var q := Send(cfg, EMPTY_QUEUE, e).0;
    hide Returning;
    ReceiveServesTheLine(cfg, q, 1, None, t1, t2);
    var (q', ms) := Receive(cfg, q, 1, None, t1, t2);
    var line := Line(cfg, q, t1);
    assert line[0] == 0;
    assert Served(q, q', line, ms, t2 + cfg.visibility, 0);
  }
}
