/**
  The rate limiter: one bucket per client and kind, in a bounded table. First
  what the code does, eviction passes included; then the plain LRU table it
  turns out to be.
 */
module RateLimitSpec {
  import opened Sequences
  import opened Arithmetic
  import opened OrderedDict
  import opened Bucket

  const MAX_CLIENTS: nat := 4096
  const LOG_EVERY_SECONDS: real := 10.0

  datatype Kind = Read | Write
  datatype Key = Key(client: string, kind: Kind)
  datatype Limits = Limits(maxWrites: nat, maxReads: nat, window: real)

  /** A stored bucket: its tokens, and the bookkeeping of its log lines. */
  datatype Slot = Slot(account: Account, suppressed: nat, loggedAt: real)

  type Slots = Dict<Key, Slot>

  ghost predicate Usable(lim: Limits) {
    lim.maxWrites >= 1 && lim.maxReads >= 1 && lim.window > 0.0
  }

  function Capacity(lim: Limits, kind: Kind): real {
    if kind == Write then lim.maxWrites as real else lim.maxReads as real
  }

  lemma AtLeastOne(lim: Limits, kind: Kind)
    requires Usable(lim)
    ensures Capacity(lim, kind) >= 1.0
  {
  }

  function Rate(lim: Limits, kind: Kind): (r: real)
    requires Usable(lim)
    ensures r > 0.0
  {
    QuotientSign(Capacity(lim, kind), lim.window);
    Capacity(lim, kind) / lim.window
  }

  // ---- what the code does -------------------------------------------------

  predicate LooksIdle(lim: Limits, t: Slots, key: Key)
    requires key in t.data
  {
    t.data[key].account.tokens >= Capacity(lim, key.kind)
  }

  ghost predicate AllStored(ks: seq<Key>, t: Slots) {
    Distinct(ks) && forall i :: 0 <= i < |ks| ==> ks[i] in t.data
  }

  lemma StillStored(ks: seq<Key>, t: Slots)
    requires AllStored(ks, t) && ks != []
    ensures ks[0] in t.data && AllStored(ks[1..], t) && AllStored(ks[1..], Drop(t, ks[0]))
  {
  }

  /** The first eviction pass, over a snapshot of the keys. */
  function IdlePass(lim: Limits, t: Slots, ks: seq<Key>): Slots
    requires AllStored(ks, t)
    decreases |ks|
  {
    hide Consistent, LooksIdle, Without;
    if ks == [] then t
    else
      StillStored(ks, t);
      var t1 := if LooksIdle(lim, t, ks[0]) then Drop(t, ks[0]) else t;
      if |t1.keys| <= MAX_CLIENTS then t1
      else IdlePass(lim, t1, ks[1..])
  }

  /** The second pass: least recently seen first. */
  function PopPass(t: Slots): (r: Slots)
    ensures |r.keys| <= MAX_CLIENTS
    decreases |t.keys|
  {
    if |t.keys| <= MAX_CLIENTS then t else PopPass(PopFirst(t))
  }

  lemma PopPassIdle(t: Slots)
    requires |t.keys| <= MAX_CLIENTS
    ensures PopPass(t) == t
  {
  }

  lemma TableStored(t: Slots)
    ensures AllStored(t.keys, t)
  {
  }

  function Evict(lim: Limits, t: Slots): Slots {
    if |t.keys| <= MAX_CLIENTS then t
    else PopPass(IdlePass(lim, t, t.keys))
  }

  function FindSlot(lim: Limits, t: Slots, key: Key, now: real): Slot {
    if key in t.data then t.data[key]
    else Slot(Account(Capacity(lim, key.kind), now), 0, 0.0)
  }

  function Check(lim: Limits, t: Slots, key: Key, now: real): (Slots, real)
    requires Usable(lim)
  {
    var slot := FindSlot(lim, t, key, now);
    var touched := MoveToEnd(Put(t, key, slot), key);
    var (account, wait) := Take(slot.account, Capacity(lim, key.kind), Rate(lim, key.kind), now);
    (Evict(lim, Put(touched, key, slot.(account := account))), wait)
  }

  /** None keeps quiet; otherwise how many refusals the line stands for. */
  function ShouldLog(t: Slots, key: Key, now: real): (Slots, Option<nat>) {
    if key !in t.data then (t, None)
    else
      var slot := t.data[key].(suppressed := t.data[key].suppressed + 1);
      if now - slot.loggedAt < LOG_EVERY_SECONDS then (Put(t, key, slot), None)
      else (Put(t, key, slot.(loggedAt := now, suppressed := 0)), Some(slot.suppressed))
  }

  /** Whole seconds, rounded up, and at least one. */
  function RetryAfter(wait: real): (n: int)
    ensures n >= 1
  {
    var up := -((-wait).Floor);
    if up < 1 then 1 else up
  }

  // ---- the plain LRU table it is ------------------------------------------

  ghost predicate SlotOk(lim: Limits, t: Slots, key: Key, now: real)
    requires key in t.data
  {
    Sound(t.data[key].account, Capacity(lim, key.kind)) && t.data[key].account.updated <= now
  }

  ghost predicate OldestFirst(t: Slots) {
    forall i, j :: 0 <= i < j < |t.keys| ==>
      t.data[t.keys[i]].account.updated <= t.data[t.keys[j]].account.updated
  }

  ghost predicate AllOk(lim: Limits, t: Slots, now: real) {
    forall k {:trigger SlotOk(lim, t, k, now)} :: k in t.data ==> SlotOk(lim, t, k, now)
  }

  ghost predicate TableOk(lim: Limits, t: Slots, now: real) {
    && |t.keys| <= MAX_CLIENTS
    && OldestFirst(t)
    && AllOk(lim, t, now)
  }

  /** After a take the caller's key is last; the first key goes if there are too many. */
  function LruKeys(keys: seq<Key>, key: Key): seq<Key> {
    var touched := Without(keys, key) + [key];
    if |touched| > MAX_CLIENTS then touched[1..] else touched
  }

  lemma {:induction false} NothingLooksIdle(lim: Limits, t: Slots, ks: seq<Key>)
    requires AllStored(ks, t)
    requires |t.keys| > MAX_CLIENTS
    requires forall i :: 0 <= i < |ks| ==> !LooksIdle(lim, t, ks[i])
    ensures IdlePass(lim, t, ks) == t
    decreases |ks|
  {
    hide LooksIdle;
    if ks != [] {
      NothingLooksIdle(lim, t, ks[1..]);
    }
  }

  /** The keys without the first `excess` of them that look idle. */
  function Survivors(lim: Limits, t: Slots, ks: seq<Key>, excess: int): seq<Key>
    requires AllStored(ks, t)
  {
    if ks == [] then []
    else
      StillStored(ks, t);
      if excess > 0 && LooksIdle(lim, t, ks[0]) then Survivors(lim, t, ks[1..], excess - 1)
      else [ks[0]] + Survivors(lim, t, ks[1..], excess)
  }

  lemma {:induction false} NobodyInExcess(lim: Limits, t: Slots, ks: seq<Key>, excess: int)
    requires AllStored(ks, t) && excess <= 0
    ensures Survivors(lim, t, ks, excess) == ks
  {
    hide LooksIdle;
    if ks != [] {
      StillStored(ks, t);
      NobodyInExcess(lim, t, ks[1..], excess);
    }
  }

  /** The last `n` of the keys, or all of them if there are fewer. */
  function LastOf(keys: seq<Key>, n: nat): seq<Key> {
    if |keys| <= n then keys else keys[|keys| - n..]
  }

  lemma {:induction false} PopPassKeepsLast(t: Slots)
    ensures PopPass(t).keys == LastOf(t.keys, MAX_CLIENTS)
    decreases |t.keys|
  {
    hide Consistent;
    if |t.keys| > MAX_CLIENTS {
      PopPassKeepsLast(PopFirst(t));
    }
  }

  lemma WithoutFirstOf(done: seq<Key>, ks: seq<Key>)
    requires ks != [] && Distinct(done + ks)
    ensures Without(done + ks, ks[0]) == done + ks[1..]
  {
    hide Without, Distinct;
    WithoutAt(done + ks, |done|);
    assert (done + ks)[..|done|] == done && (done + ks)[|done| + 1..] == ks[1..];
  }

  lemma DropFirstOf(t: Slots, done: seq<Key>, ks: seq<Key>)
    requires AllStored(ks, t) && ks != [] && t.keys == done + ks
    ensures AllStored(ks[1..], t) && AllStored(ks[1..], Drop(t, ks[0]))
    ensures Drop(t, ks[0]).keys == done + ks[1..] && |t.keys| == |Drop(t, ks[0]).keys| + 1
  {
    hide Without;
    StillStored(ks, t);
    WithoutFirstOf(done, ks);
  }

  lemma {:induction false} SameIdle(lim: Limits, t: Slots, u: Slots, ks: seq<Key>, excess: int)
    requires AllStored(ks, t) && AllStored(ks, u)
    requires forall i :: 0 <= i < |ks| ==> u.data[ks[i]] == t.data[ks[i]]
    ensures Survivors(lim, u, ks, excess) == Survivors(lim, t, ks, excess)
  {
    if ks != [] {
      StillStored(ks, t);
      StillStored(ks, u);
      SameIdle(lim, t, u, ks[1..], if excess > 0 && LooksIdle(lim, t, ks[0]) then excess - 1 else excess);
    }
  }

  lemma DroppingIsNoMatter(lim: Limits, t: Slots, ks: seq<Key>, excess: int)
    requires AllStored(ks, t) && ks != []
    ensures AllStored(ks[1..], t) && AllStored(ks[1..], Drop(t, ks[0]))
    ensures Survivors(lim, Drop(t, ks[0]), ks[1..], excess) == Survivors(lim, t, ks[1..], excess)
  {
    hide Without, Consistent, Survivors;
    StillStored(ks, t);
    SameIdle(lim, t, Drop(t, ks[0]), ks[1..], excess);
  }

  /** The first pass spares `done`, the keys behind it, and of the others drops idle ones while there are too many. */
  lemma {:induction false} IdlePassDrops(lim: Limits, t: Slots, done: seq<Key>, ks: seq<Key>)
    requires AllStored(ks, t) && t.keys == done + ks && |t.keys| > MAX_CLIENTS
    ensures IdlePass(lim, t, ks).keys == done + Survivors(lim, t, ks, |t.keys| - MAX_CLIENTS)
    decreases |ks|
  {
    hide Without, Consistent, AllStored, LooksIdle, Drop, Distinct;
    if ks != [] {
      DropFirstOf(t, done, ks);
      var rest, excess := ks[1..], |t.keys| - MAX_CLIENTS;
      if LooksIdle(lim, t, ks[0]) {
        var t1 := Drop(t, ks[0]);
        DroppingIsNoMatter(lim, t, ks, excess - 1);
        if |t1.keys| > MAX_CLIENTS {
          IdlePassDrops(lim, t1, done, rest);
        } else {
          NobodyInExcess(lim, t, rest, excess - 1);
        }
      } else {
        assert done + [ks[0]] + rest == t.keys;
        IdlePassDrops(lim, t, done + [ks[0]], rest);
        assert done + [ks[0]] + Survivors(lim, t, rest, excess) == done + ([ks[0]] + Survivors(lim, t, rest, excess));
      }
    }
  }

  /**
    Who stays when the table is too large: first those that look idle go, from
    the least recently checked on, until it fits; if it still does not fit, the
    most recently checked stay.
   */
  lemma EvictKeeps(lim: Limits, t: Slots)
    requires |t.keys| > MAX_CLIENTS
    ensures AllStored(t.keys, t)
    ensures Evict(lim, t).keys == LastOf(Survivors(lim, t, t.keys, |t.keys| - MAX_CLIENTS), MAX_CLIENTS)
  {
    hide IdlePass, PopPass, Survivors, Consistent;
    TableStored(t);
    assert [] + t.keys == t.keys;
    IdlePassDrops(lim, t, [], t.keys);
    var all := Survivors(lim, t, t.keys, |t.keys| - MAX_CLIENTS);
    assert [] + all == all;
    PopPassKeepsLast(IdlePass(lim, t, t.keys));
  }

  /** The table just before eviction. */
  function Touched(lim: Limits, t: Slots, key: Key, now: real): (r: Slots)
    requires Usable(lim)
    ensures key in r.data
  {
    var slot := FindSlot(lim, t, key, now);
    var account := Take(slot.account, Capacity(lim, key.kind), Rate(lim, key.kind), now).0;
    Put(Touch(t, key, slot), key, slot.(account := account))
  }

  lemma TouchedShape(lim: Limits, t: Slots, key: Key, now: real)
    requires Usable(lim)
    ensures var r := Touched(lim, t, key, now);
            && r.keys == Without(t.keys, key) + [key]
            && |r.keys| == |t.keys| + (if key in t.data then 0 else 1)
            && (forall k :: k in r.data && k != key ==> k in t.data && r.data[k] == t.data[k])
            && (forall k :: k in t.data ==> k in r.data)
            && r.data[key].account ==
               Take(FindSlot(lim, t, key, now).account, Capacity(lim, key.kind), Rate(lim, key.kind), now).0
  {
    hide Take, FindSlot, Touch, Without;
  }

  lemma TouchedOk(lim: Limits, t: Slots, key: Key, was: real, now: real)
    requires Usable(lim) && TableOk(lim, t, was) && was <= now
    ensures var r := Touched(lim, t, key, now);
            OldestFirst(r) && AllOk(lim, r, now)
  {
    hide Take, FindSlot, Touched, Without;
    var r := Touched(lim, t, key, now);
    TouchedShape(lim, t, key, now);
    CallerOk(lim, t, key, was, now);
    forall k | k in r.data ensures SlotOk(lim, r, k, now) {
      if k != key {
        assert SlotOk(lim, t, k, was);
      }
    }
    TouchedInOrder(lim, t, r, key, now);
  }

  lemma TouchedInOrder(lim: Limits, t: Slots, r: Slots, key: Key, now: real)
    requires OldestFirst(t) && AllOk(lim, r, now) && key in r.data && r.data[key].account.updated == now
    requires r.keys == Without(t.keys, key) + [key]
    requires forall k :: k in r.data && k != key ==> k in t.data && r.data[k] == t.data[k]
    ensures OldestFirst(r)
  {
    hide Without, Distinct;
    forall i, j | 0 <= i < j < |r.keys|
      ensures r.data[r.keys[i]].account.updated <= r.data[r.keys[j]].account.updated
    {
      assert SlotOk(lim, r, r.keys[i], now);
      if j < |r.keys| - 1 {
        var i', j' := WithoutKeepsOrder(t.keys, key, i, j);
        NotInItself(r, key, i);
        NotInItself(r, key, j);
      }
    }
  }

  /** The key stands last, and nowhere else. */
  lemma NotInItself(r: Slots, key: Key, i: nat)
    requires r.keys != [] && r.keys[|r.keys| - 1] == key && i < |r.keys| - 1
    ensures r.keys[i] != key
  {
  }

  lemma CallerOk(lim: Limits, t: Slots, key: Key, was: real, now: real)
    requires Usable(lim) && TableOk(lim, t, was) && was <= now
    ensures var a := FindSlot(lim, t, key, now).account;
            var b := Take(a, Capacity(lim, key.kind), Rate(lim, key.kind), now).0;
            && 0.0 <= a.tokens <= Capacity(lim, key.kind) && a.updated <= now
            && b.updated == now && Sound(b, Capacity(lim, key.kind))
  {
    hide Take;
    assert key in t.data ==> SlotOk(lim, t, key, was);
    TakeLeavesSound(FindSlot(lim, t, key, now).account, Capacity(lim, key.kind), Rate(lim, key.kind), now);
  }

  lemma EvictDropsOldest(lim: Limits, r: Slots, now: real)
    requires AllOk(lim, r, now) && |r.keys| <= MAX_CLIENTS + 1
    ensures Evict(lim, r) == if |r.keys| > MAX_CLIENTS then PopFirst(r) else r
  {
    hide LooksIdle, SlotOk, IdlePass;
    if |r.keys| > MAX_CLIENTS {
      forall i | 0 <= i < |r.keys| ensures !LooksIdle(lim, r, r.keys[i]) {
        FullIsNotStored(lim, r, r.keys[i], now);
      }
      NothingLooksIdle(lim, r, r.keys);
      assert |PopFirst(r).keys| == MAX_CLIENTS;
      assert PopPass(PopFirst(r)) == PopFirst(r);
    }
  }

  lemma PopKeepsOrder(lim: Limits, r: Slots, now: real)
    requires AllOk(lim, r, now) && OldestFirst(r) && r.keys != []
    ensures AllOk(lim, PopFirst(r), now) && OldestFirst(PopFirst(r))
  {
    var r' := PopFirst(r);
    forall k | k in r'.data ensures SlotOk(lim, r', k, now) {
      assert SlotOk(lim, r, k, now);
    }
  }

  /**
    The idle-first pass never deletes anything: no stored bucket is full. What
    remains is LRU. The caller is kept, the table stays within its bound and in
    order of last check, and at most the one least recently checked key goes.
   */
  lemma CheckIsLru(lim: Limits, t: Slots, key: Key, was: real, now: real)
    requires Usable(lim) && TableOk(lim, t, was) && was <= now
    ensures var t' := Check(lim, t, key, now).0;
            && TableOk(lim, t', now)
            && t'.keys == LruKeys(t.keys, key)
            && key in t'.data
            && t'.data[key] == Touched(lim, t, key, now).data[key]
            && (forall k :: k in t'.data && k != key ==> k in t.data && t'.data[k] == t.data[k])
  {
    hide Take, FindSlot, Touched, Without, Evict, SlotOk, OldestFirst, Check;
    var r := Touched(lim, t, key, now);
    TouchedShape(lim, t, key, now);
    TouchedOk(lim, t, key, was, now);
    CheckEvictsTouched(lim, t, key, now);
    EvictDropsOldest(lim, r, now);
    if |r.keys| > MAX_CLIENTS {
      PopKeepsOrder(lim, r, now);
      assert r.keys[|r.keys| - 1] == key;
      assert key in PopFirst(r).keys by {
        assert PopFirst(r).keys[|r.keys| - 2] == key;
      }
    }
  }

  lemma FullIsNotStored(lim: Limits, t: Slots, key: Key, now: real)
    requires key in t.data && SlotOk(lim, t, key, now)
    ensures !LooksIdle(lim, t, key)
  {
  }

  lemma CheckEvictsTouched(lim: Limits, t: Slots, key: Key, now: real)
    requires Usable(lim)
    ensures Check(lim, t, key, now).0 == Evict(lim, Touched(lim, t, key, now))
  {
    hide Take, FindSlot, Evict;
  }
}
