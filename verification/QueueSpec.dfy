/**
  What each verb of the in-memory event queue does, as a function on the
  queue's four containers. The class in EventQueue.dfy is proved against these
  functions, and the lemmas of Ledger.dfy are about them.

  In `app/queue.py` message ids and receipt handles come from `uuid4`; only
  their freshness matters, so here they are drawn from two counters. Python's
  dictionaries iterate in insertion order, and every key of `entries` and of
  `inflight` is inserted once, when it is issued: the iteration order of both
  tables is the increasing order of their keys.
 */
module QueueSpec {
  import opened Sequences
  import opened Arithmetic
  import opened Models

  type MsgId = nat
  type Handle = nat

  const DLQ_MAXLEN: nat := 1000
  const BACKOFF_CAP_SECONDS: real := 900.0

  datatype Config = Config(visibility: real, maxReceives: nat, maxsize: nat)

  /** What a consumer is handed: the event, the loan's receipt, and which delivery this is. */
  datatype Message = Message(event: Event, handle: Handle, receiveCount: nat)

  /** `handle` is None while the message is visible. */
  datatype Entry = Entry(event: Event, receiveCount: nat, handle: Option<Handle>, deadline: real)

  datatype Queue = Queue(
    entries: map<MsgId, Entry>,
    visible: seq<MsgId>,
    inflight: map<Handle, MsgId>,
    dlq: seq<Event>,
    nextId: nat,
    nextHandle: nat)

  const EMPTY_QUEUE: Queue := Queue(map[], [], map[], [], 0, 0)

  datatype SendResult = Sent(id: MsgId) | QueueFull
  datatype HandleResult = Accepted | ReceiptHandleIsInvalid

  // ---- the invariant ------------------------------------------------------

  /** Every entry is in exactly one place, and the place agrees with the entry. */
  ghost predicate EntryPlaced(cfg: Config, q: Queue, id: MsgId)
    requires id in q.entries
  {
    var e := q.entries[id];
    && id < q.nextId
    && match e.handle
       case None => id in q.visible && e.receiveCount < cfg.maxReceives
       case Some(h) =>
         && h in q.inflight && q.inflight[h] == id
         && 1 <= e.receiveCount <= cfg.maxReceives
  }

  ghost predicate LoanPlaced(q: Queue, h: Handle)
    requires h in q.inflight
  {
    && h < q.nextHandle
    && q.inflight[h] in q.entries
    && q.entries[q.inflight[h]].handle == Some(h)
  }

  ghost predicate Valid(cfg: Config, q: Queue) {
    && |q.entries| <= cfg.maxsize
    && |q.dlq| <= DLQ_MAXLEN
    && Distinct(q.visible)
    && (forall i :: 0 <= i < |q.visible| ==>
          q.visible[i] in q.entries && q.entries[q.visible[i]].handle == None)
    && (forall id {:trigger EntryPlaced(cfg, q, id)} :: id in q.entries ==> EntryPlaced(cfg, q, id))
    && (forall h {:trigger LoanPlaced(q, h)} :: h in q.inflight ==> LoanPlaced(q, h))
  }

  lemma Places(cfg: Config, q: Queue)
    requires Valid(cfg, q)
    ensures forall id :: id in q.entries ==> EntryPlaced(cfg, q, id)
    ensures forall h :: h in q.inflight ==> LoanPlaced(q, h)
  {
    forall id | id in q.entries ensures EntryPlaced(cfg, q, id) {}
    forall h | h in q.inflight ensures LoanPlaced(q, h) {}
  }

  // ---- the verbs ----------------------------------------------------------

  /** From `q` to `q'` the event joins the deque as its last message, undelivered, and that is all that happens. */
  ghost predicate OnlyAppends(q: Queue, q': Queue, id: MsgId, event: Event) {
    && q'.visible == q.visible + [id]
    && id in q'.entries && q'.entries[id].event == event
    && q'.entries[id].receiveCount == 0 && q'.entries[id].handle == None
    && q'.inflight == q.inflight && q'.dlq == q.dlq
    && (forall k :: k in q'.entries <==> k in q.entries || k == id)
    && (forall k :: k in q.entries && k != id ==> q'.entries[k] == q.entries[k])
  }

  function Send(cfg: Config, q: Queue, event: Event): (r: (Queue, SendResult))
    requires cfg.maxReceives >= 1
    requires Valid(cfg, q)
    ensures Valid(cfg, r.0)
    ensures r.1.QueueFull? <==> |q.entries| >= cfg.maxsize
    ensures r.1.QueueFull? ==> r.0 == q
    ensures r.1.Sent? ==> r.1.id !in q.entries && OnlyAppends(q, r.0, r.1.id, event)
  {
    if |q.entries| >= cfg.maxsize then (q, QueueFull)
    else
      var id := q.nextId;
      Places(cfg, q);
      (q.(entries := q.entries[id := Entry(event, 0, None, 0.0)],
          visible := q.visible + [id],
          nextId := id + 1),
       Sent(id))
  }

  /** `deque(maxlen=DLQ_MAXLEN).append`: of the letters so far and `e`, the newest are kept. */
  function RingPush(dlq: seq<Event>, e: Event): (r: seq<Event>)
    requires |dlq| <= DLQ_MAXLEN
    ensures |r| == if |dlq| < DLQ_MAXLEN then |dlq| + 1 else DLQ_MAXLEN
    ensures r == (dlq + [e])[|dlq| + 1 - |r|..]
  {
    if |dlq| == DLQ_MAXLEN then dlq[1..] + [e] else dlq + [e]
  }

  lemma BuryKeepsValid(cfg: Config, q: Queue, h: Handle, q': Queue)
    requires Valid(cfg, q) && h in q.inflight
    requires q' == q.(inflight := q.inflight - {h}, entries := q.entries - {q.inflight[h]}, dlq := q'.dlq)
    requires |q'.dlq| <= DLQ_MAXLEN
    ensures Valid(cfg, q')
  {
    Places(cfg, q);
    forall k | k in q'.entries ensures EntryPlaced(cfg, q', k) {}
    forall k | k in q'.inflight ensures LoanPlaced(q', k) {}
  }

  lemma ReturnKeepsValid(cfg: Config, q: Queue, h: Handle, q': Queue)
    requires Valid(cfg, q) && h in q.inflight && q.inflight[h] in q.entries
    requires var id := q.inflight[h];
             && q.entries[id].receiveCount < cfg.maxReceives
             && q' == q.(inflight := q.inflight - {h},
                         entries := q.entries[id := q.entries[id].(handle := None)],
                         visible := q.visible + [id])
    ensures Valid(cfg, q')
  {
    Places(cfg, q);
    assert |q'.entries| == |q.entries|;
    forall k | k in q'.entries ensures EntryPlaced(cfg, q', k) {
      assert k in q.visible ==> k in q'.visible;
      assert q.inflight[h] == q'.visible[|q.visible|];
    }
    forall k | k in q'.inflight ensures LoanPlaced(q', k) {}
  }

  /** One expired loan: back to the visible deque, or to the dead letters. */
  function SweepOne(cfg: Config, q: Queue, h: Handle): (r: Queue)
    requires Valid(cfg, q) && h in q.inflight
    ensures Valid(cfg, r)
    ensures r.inflight == q.inflight - {h} && q.inflight[h] in q.entries
    ensures var id, e := q.inflight[h], q.entries[q.inflight[h]];
            if e.receiveCount < cfg.maxReceives then
              r.visible == q.visible + [id] && r.dlq == q.dlq && id in r.entries && r.entries[id] == e.(handle := None)
            else
              r.visible == q.visible && r.dlq == RingPush(q.dlq, e.event) && id !in r.entries
    ensures forall id :: id in q.entries && id != q.inflight[h] ==>
              id in r.entries && r.entries[id] == q.entries[id]
  {
    var id := q.inflight[h];
    assert LoanPlaced(q, h) && |q.dlq| <= DLQ_MAXLEN;
    hide Valid, RingPush;
    var e := q.entries[id].(handle := None);
    if e.receiveCount >= cfg.maxReceives then
      var q' := q.(inflight := q.inflight - {h},
                   dlq := RingPush(q.dlq, e.event),
                   entries := q.entries - {id});
      BuryKeepsValid(cfg, q, h, q');
      q'
    else
      var q' := q.(inflight := q.inflight - {h},
                   entries := q.entries[id := e],
                   visible := q.visible + [id]);
      ReturnKeepsValid(cfg, q, h, q');
      q'
  }

  ghost predicate AllLent(q: Queue, hs: seq<Handle>) {
    && (forall i :: 0 <= i < |hs| ==> hs[i] in q.inflight)
    && (forall i, j :: 0 <= i < j < |hs| ==> hs[i] < hs[j])
  }

  function SweepAll(cfg: Config, q: Queue, hs: seq<Handle>): (r: Queue)
    requires Valid(cfg, q) && AllLent(q, hs)
    ensures Valid(cfg, r)
    decreases |hs|
  {
    if hs == [] then q
    else SweepAll(cfg, SweepOne(cfg, q, hs[0]), hs[1..])
  }

  lemma SweepAllUnfolds(cfg: Config, q: Queue, hs: seq<Handle>)
    requires Valid(cfg, q) && AllLent(q, hs) && hs != []
    ensures AllLent(SweepOne(cfg, q, hs[0]), hs[1..])
    ensures SweepAll(cfg, q, hs) == SweepAll(cfg, SweepOne(cfg, q, hs[0]), hs[1..])
  {
    hide Valid, SweepOne;
    var q', rest := SweepOne(cfg, q, hs[0]), hs[1..];
    forall i | 0 <= i < |rest| ensures rest[i] in q'.inflight {
      assert rest[i] == hs[i + 1] && hs[0] < hs[i + 1];
    }
  }

  predicate IsExpired(q: Queue, h: Handle, now: real) {
    h in q.inflight && q.inflight[h] in q.entries && q.entries[q.inflight[h]].deadline <= now
  }

  /** The handles below `n` whose loan has run out, in the order they were lent. */
  function ExpiredBelow(q: Queue, n: nat, now: real): (hs: seq<Handle>)
    ensures AllLent(q, hs)
    ensures forall i :: 0 <= i < |hs| ==> hs[i] < n
    ensures forall h: nat :: h in hs <==> h < n && IsExpired(q, h, now)
  {
    if n == 0 then []
    else
      var rest := ExpiredBelow(q, n - 1, now);
      if IsExpired(q, n - 1, now) then rest + [n - 1] else rest
  }

  function Expired(q: Queue, now: real): (hs: seq<Handle>)
    ensures AllLent(q, hs)
  {
    ExpiredBelow(q, q.nextHandle, now)
  }

  function Sweep(cfg: Config, q: Queue, now: real): (r: Queue)
    requires Valid(cfg, q)
    ensures Valid(cfg, r)
  {
    SweepAll(cfg, q, Expired(q, now))
  }

  lemma LendKeepsEntries(cfg: Config, q: Queue, q': Queue, e: Entry)
    requires Valid(cfg, q) && q.visible != []
    requires e.handle == Some(q.nextHandle) && 1 <= e.receiveCount <= cfg.maxReceives
    requires q' == q.(visible := q.visible[1..],
                      entries := q.entries[q.visible[0] := e],
                      inflight := q.inflight[q.nextHandle := q.visible[0]],
                      nextHandle := q.nextHandle + 1)
    ensures forall id :: id in q'.entries ==> EntryPlaced(cfg, q', id)
    ensures forall h :: h in q'.inflight ==> LoanPlaced(q', h)
  {
    Places(cfg, q);
    forall id | id in q'.entries ensures EntryPlaced(cfg, q', id) {
      if id != q.visible[0] && q.entries[id].handle == None {
        assert id in q.visible[1..];
      }
    }
    forall h | h in q'.inflight ensures LoanPlaced(q', h) {}
  }

  /** Lend the message at the head of the visible deque under a fresh handle. */
  function LendOne(cfg: Config, q: Queue, deadline: real): (r: (Queue, Message))
    requires Valid(cfg, q) && q.visible != []
    ensures Valid(cfg, r.0)
    ensures q.visible[0] in r.0.entries && r.0.entries[q.visible[0]].handle == Some(r.1.handle)
    ensures r.1.handle !in q.inflight && r.0.inflight == q.inflight[r.1.handle := q.visible[0]]
  {
    var id := q.visible[0];
    assert EntryPlaced(cfg, q, id);
    Places(cfg, q);
    var h := q.nextHandle;
    var was := q.entries[id];
    var e := Entry(was.event, was.receiveCount + 1, Some(h), deadline);
    var q' := q.(visible := q.visible[1..],
                 entries := q.entries[id := e],
                 inflight := q.inflight[h := id],
                 nextHandle := h + 1);
    LendKeepsEntries(cfg, q, q', e);
    (q', Message(e.event, h, e.receiveCount))
  }

  /** The delivery loop: until the deque is empty or `n` messages are out. */
  function LendMany(cfg: Config, q: Queue, n: int, deadline: real): (r: (Queue, seq<Message>))
    requires Valid(cfg, q)
    ensures Valid(cfg, r.0)
    ensures |r.1| == if n <= 0 then 0 else if n < |q.visible| then n else |q.visible|
    decreases |q.visible|
  {
    if q.visible == [] || n <= 0 then (q, [])
    else
      var (q1, m) := LendOne(cfg, q, deadline);
      var (q2, ms) := LendMany(cfg, q1, n - 1, deadline);
      (q2, [m] + ms)
  }

  function Prepend(ms: seq<Message>, r: (Queue, seq<Message>)): (Queue, seq<Message>) {
    (r.0, ms + r.1)
  }

  lemma PrependNothing(r: (Queue, seq<Message>))
    ensures Prepend([], r) == r
  {
    assert [] + r.1 == r.1;
  }

  lemma LendManyUnfolds(cfg: Config, q: Queue, n: int, deadline: real, out: seq<Message>)
    requires Valid(cfg, q) && q.visible != [] && n > 0
    ensures q.visible[0] in q.entries
    ensures var (q1, m) := LendOne(cfg, q, deadline);
            |q1.visible| < |q.visible| &&
            Prepend(out, LendMany(cfg, q, n, deadline)) == Prepend(out + [m], LendMany(cfg, q1, n - 1, deadline))
  {
    var (q1, m) := LendOne(cfg, q, deadline);
    var ms := LendMany(cfg, q1, n - 1, deadline).1;
    assert out + ([m] + ms) == (out + [m]) + ms;
  }

  lemma LendManyEnds(cfg: Config, q: Queue, n: int, deadline: real, out: seq<Message>)
    requires Valid(cfg, q) && (q.visible == [] || n <= 0)
    ensures Prepend(out, LendMany(cfg, q, n, deadline)) == (q, out)
  {
    assert out + [] == out;
  }

  /** `receive` reads the clock twice: `t1` sweeps, `t2` stamps the deadlines. */
  function Receive(cfg: Config, q: Queue, n: int, vt: Option<real>, t1: real, t2: real): (r: (Queue, seq<Message>))
    requires Valid(cfg, q)
    ensures Valid(cfg, r.0)
  {
    LendMany(cfg, Sweep(cfg, q, t1), n, t2 + if vt.Some? then vt.value else cfg.visibility)
  }

  /** From `q` to `q'` the message on loan under `h` is gone, its handle too, and that is all that happens. */
  ghost predicate OnlyRemoves(q: Queue, q': Queue, h: Handle) {
    && h in q.inflight && q.inflight[h] in q.entries
    && q'.visible == q.visible && q'.dlq == q.dlq
    && (forall k :: k in q'.inflight <==> k in q.inflight && k != h)
    && (forall k :: k in q'.inflight ==> q'.inflight[k] == q.inflight[k])
    && (forall id :: id in q'.entries <==> id in q.entries && id != q.inflight[h])
    && (forall id :: id in q'.entries ==> q'.entries[id] == q.entries[id])
  }

  function Delete(cfg: Config, q: Queue, h: Handle): (r: (Queue, HandleResult))
    requires Valid(cfg, q)
    ensures Valid(cfg, r.0)
    ensures r.1.Accepted? <==> h in q.inflight
    ensures r.1.ReceiptHandleIsInvalid? ==> r.0 == q
    ensures r.1.Accepted? ==> OnlyRemoves(q, r.0, h)
  {
    if h !in q.inflight then (q, ReceiptHandleIsInvalid)
    else
      Places(cfg, q);
      (q.(inflight := q.inflight - {h}, entries := q.entries - {q.inflight[h]}), Accepted)
  }

  /** From `q` to `q'` the loan under `h` gets a new deadline, and that is all that happens. */
  ghost predicate OnlyDeadlineMoves(q: Queue, q': Queue, h: Handle, deadline: real) {
    && h in q.inflight && q.inflight[h] in q.entries
    && q' == q.(entries := q'.entries)
    && (forall id :: id in q'.entries <==> id in q.entries)
    && q'.entries[q.inflight[h]] == q.entries[q.inflight[h]].(deadline := deadline)
    && (forall id :: id in q.entries && id != q.inflight[h] ==> q'.entries[id] == q.entries[id])
  }

  function SetDeadline(cfg: Config, q: Queue, h: Handle, deadline: real): (r: (Queue, HandleResult))
    requires Valid(cfg, q)
    ensures Valid(cfg, r.0)
    ensures r.1.Accepted? <==> h in q.inflight
    ensures r.1.ReceiptHandleIsInvalid? ==> r.0 == q
    ensures r.1.Accepted? ==> OnlyDeadlineMoves(q, r.0, h, deadline)
  {
    if h !in q.inflight then (q, ReceiptHandleIsInvalid)
    else
      Places(cfg, q);
      var id := q.inflight[h];
      (q.(entries := q.entries[id := q.entries[id].(deadline := deadline)]), Accepted)
  }

  /** Doubling from the visibility timeout, and capped. */
  function Backoff(cfg: Config, receiveCount: nat): real
    requires receiveCount >= 1
  {
    Min(Doubled(cfg.visibility, receiveCount - 1), BACKOFF_CAP_SECONDS)
  }

  function ChangeVisibility(cfg: Config, q: Queue, h: Handle, seconds: real, now: real): (r: (Queue, HandleResult))
    requires Valid(cfg, q)
    ensures Valid(cfg, r.0)
  {
    SetDeadline(cfg, q, h, now + seconds)
  }

  function Fail(cfg: Config, q: Queue, h: Handle, now: real): (r: (Queue, HandleResult))
    requires Valid(cfg, q)
    ensures Valid(cfg, r.0)
    ensures r.1.Accepted? <==> h in q.inflight
    ensures r.1.ReceiptHandleIsInvalid? ==> r.0 == q
    ensures r.1.Accepted? ==>
              && q.inflight[h] in q.entries && q.entries[q.inflight[h]].receiveCount >= 1
              && OnlyDeadlineMoves(q, r.0, h, now + Backoff(cfg, q.entries[q.inflight[h]].receiveCount))
  {
    if h !in q.inflight then (q, ReceiptHandleIsInvalid)
    else
      assert LoanPlaced(q, h) && EntryPlaced(cfg, q, q.inflight[h]);
      SetDeadline(cfg, q, h, now + Backoff(cfg, q.entries[q.inflight[h]].receiveCount))
  }
}
