/**
  Whole runs of the limiter: a sequence of checks in the order of their clock
  readings. LimiterLog.dfy shows that the calls of `should_log` between them
  change nothing that is said here.
 */
module RateLimitRuns {
  import opened Sequences
  import opened Arithmetic
  import opened OrderedDict
  import opened Bucket
  import opened RateLimitSpec

  datatype Req = Req(key: Key, time: real)

  ghost predicate Chronological(rs: seq<Req>) {
    forall i, j :: 0 <= i <= j < |rs| ==> rs[i].time <= rs[j].time
  }

  /** The bounded table after the requests `rs`. */
  function Bounded(lim: Limits, rs: seq<Req>): Slots
    requires Usable(lim)
  {
    if rs == [] then Empty()
    else
      var n := |rs| - 1;
      Check(lim, Bounded(lim, rs[..n]), rs[n].key, rs[n].time).0
  }

  /** What the check of request `n` returns. */
  function BoundedWait(lim: Limits, rs: seq<Req>, n: nat): real
    requires Usable(lim) && n < |rs|
  {
    Check(lim, Bounded(lim, rs[..n]), rs[n].key, rs[n].time).1
  }

  lemma BoundedAppend(lim: Limits, rs: seq<Req>, r: Req)
    requires Usable(lim)
    ensures Bounded(lim, rs + [r]) == Check(lim, Bounded(lim, rs), r.key, r.time).0
  {
    hide Check;
    assert (rs + [r])[..|rs|] == rs;
  }

  lemma WaitOfCheck(lim: Limits, t: Slots, key: Key, now: real)
    requires Usable(lim)
    ensures Check(lim, t, key, now).1
         == Take(FindSlot(lim, t, key, now).account, Capacity(lim, key.kind), Rate(lim, key.kind), now).1
  {
    hide Take, FindSlot, Evict, Capacity, Rate;
  }

  function LastTime(rs: seq<Req>): real
    requires rs != []
  {
    rs[|rs| - 1].time
  }

  /** In every run the table is bounded, in order of last check, and never holds a full bucket. */
  lemma {:induction false} BoundedOk(lim: Limits, rs: seq<Req>)
    requires Usable(lim) && Chronological(rs)
    ensures rs == [] ==> Bounded(lim, rs) == Empty()
    ensures rs != [] ==> TableOk(lim, Bounded(lim, rs), LastTime(rs))
  {
    hide Check, TableOk;
    if rs != [] {
      var n := |rs| - 1;
      BoundedOk(lim, rs[..n]);
      if n == 0 {
        EmptyOk(lim, rs[0].time);
        CheckIsLru(lim, Empty(), rs[0].key, rs[0].time, rs[0].time);
      } else {
        assert LastTime(rs[..n]) == rs[n - 1].time;
        CheckIsLru(lim, Bounded(lim, rs[..n]), rs[n].key, rs[n - 1].time, rs[n].time);
      }
    }
  }

  lemma EmptyOk(lim: Limits, now: real)
    ensures TableOk(lim, Empty(), now)
  {
  }

  // ---- the table without a bound ------------------------------------------

  type Accounts = map<Key, Account>

  function FindAccount(lim: Limits, u: Accounts, key: Key, now: real): Account {
    if key in u then u[key] else Account(Capacity(lim, key.kind), now)
  }

  function Charge(lim: Limits, u: Accounts, r: Req): Accounts
    requires Usable(lim)
  {
    u[r.key := Take(FindAccount(lim, u, r.key, r.time), Capacity(lim, r.key.kind), Rate(lim, r.key.kind), r.time).0]
  }

  function Unbounded(lim: Limits, rs: seq<Req>): Accounts
    requires Usable(lim)
  {
    if rs == [] then map[]
    else
      var n := |rs| - 1;
      Charge(lim, Unbounded(lim, rs[..n]), rs[n])
  }

  function UnboundedWait(lim: Limits, rs: seq<Req>, n: nat): real
    requires Usable(lim) && n < |rs|
  {
    var r := rs[n];
    Take(FindAccount(lim, Unbounded(lim, rs[..n]), r.key, r.time),
         Capacity(lim, r.key.kind), Rate(lim, r.key.kind), r.time).1
  }

  // ---- when forgetting costs nothing --------------------------------------

  ghost function KeysIn(rs: seq<Req>, lo: real, hi: real): set<Key> {
    set i | 0 <= i < |rs| && lo <= rs[i].time <= hi :: rs[i].key
  }

  /** No span shorter than the window sees more distinct keys than the table holds. */
  ghost predicate Uncrowded(lim: Limits, rs: seq<Req>) {
    UncrowdedWithin(rs, lim.window)
  }

  ghost predicate UncrowdedWithin(rs: seq<Req>, span: real) {
    forall lo, hi {:trigger KeysIn(rs, lo, hi)} :: hi - lo < span ==> |KeysIn(rs, lo, hi)| <= MAX_CLIENTS
  }

  /** The bounded table agrees with the other on what it holds; what it forgot has had time to refill. */
  ghost predicate KeyAgrees(lim: Limits, b: Slots, u: Accounts, now: real, key: Key)
    requires key in u
  {
    && u[key].updated <= now && 0.0 <= u[key].tokens
    && if key in b.data then b.data[key].account == u[key]
       else now - u[key].updated >= lim.window
  }

  ghost predicate Agrees(lim: Limits, b: Slots, u: Accounts, now: real) {
    && (forall key :: key in b.data ==> key in u)
    && (forall key {:trigger KeyAgrees(lim, b, u, now, key)} :: key in u ==> KeyAgrees(lim, b, u, now, key))
  }

  /** Every stored stamp is the time of a request for that key. */
  ghost predicate Stamped(b: Slots, rs: seq<Req>) {
    forall key :: key in b.data ==> Req(key, b.data[key].account.updated) in rs
  }

  lemma RateFillsInAWindow(lim: Limits, kind: Kind)
    requires Usable(lim)
    ensures lim.window * Rate(lim, kind) == Capacity(lim, kind)
  {
    var c, w := Capacity(lim, kind), lim.window;
    assert w * (c / w) == c;
  }

  lemma FullAfterAWindow(tokens: real, capacity: real, window: real, rate: real, x: real)
    requires 0.0 <= tokens && rate > 0.0 && window * rate == capacity && x >= window
    ensures tokens + x * rate >= capacity
  {
    var d := x - window;
    ProductSign(d, rate);
    assert (window + d) * rate == window * rate + d * rate;
  }

  lemma LongIdleIsFull(lim: Limits, a: Account, kind: Kind, now: real)
    requires Usable(lim) && 0.0 <= a.tokens && now - a.updated >= lim.window
    ensures Refilled(a, Capacity(lim, kind), Rate(lim, kind), now) == Capacity(lim, kind)
  {
    hide Capacity, Rate;
    RateFillsInAWindow(lim, kind);
    FullAfterAWindow(a.tokens, Capacity(lim, kind), lim.window, Rate(lim, kind), now - a.updated);
  }

  lemma FreshIsFull(capacity: real, rate: real, now: real)
    ensures Refilled(Account(capacity, now), capacity, rate, now) == capacity
  {
    assert (now - now) * rate == 0.0;
  }

  lemma SameLevelSameTake(a: Account, b: Account, capacity: real, rate: real, now: real)
    requires rate > 0.0 && Refilled(a, capacity, rate, now) == Refilled(b, capacity, rate, now)
    ensures Take(a, capacity, rate, now) == Take(b, capacity, rate, now)
  {
    hide Refilled;
  }

  /** Both tables take from the same level. */
  lemma SameTake(lim: Limits, b: Slots, u: Accounts, was: real, key: Key, now: real)
    requires Usable(lim) && Agrees(lim, b, u, was) && was <= now
    ensures Take(FindSlot(lim, b, key, now).account, Capacity(lim, key.kind), Rate(lim, key.kind), now)
         == Take(FindAccount(lim, u, key, now), Capacity(lim, key.kind), Rate(lim, key.kind), now)
  {
    hide Take, Refilled, Capacity, Rate;
    if key in u {
      assert KeyAgrees(lim, b, u, was, key);
      if key !in b.data {
        LongIdleIsFull(lim, u[key], key.kind, now);
        FreshIsFull(Capacity(lim, key.kind), Rate(lim, key.kind), now);
        SameLevelSameTake(FindSlot(lim, b, key, now).account, u[key],
                          Capacity(lim, key.kind), Rate(lim, key.kind), now);
      }
    }
  }

  lemma {:induction false} DistinctMeansMany(keys: seq<Key>, all: set<Key>)
    requires Distinct(keys) && forall i :: 0 <= i < |keys| ==> keys[i] in all
    ensures |keys| <= |all|
  {
    if keys != [] {
      DistinctMeansMany(keys[1..], all - {keys[0]});
    }
  }

  /**
    If all the keys of an over-full table were requested since its oldest
    stamp, that stamp is at least a window old.
   */
  lemma OverfullMeansOld(lim: Limits, r: Slots, rs: seq<Req>, now: real)
    requires Uncrowded(lim, rs) && Stamped(r, rs) && OldestFirst(r) && AllOk(lim, r, now)
    requires |r.keys| > MAX_CLIENTS
    ensures now - r.data[r.keys[0]].account.updated >= lim.window
  {
    var lo := r.data[r.keys[0]].account.updated;
    var busy := KeysIn(rs, lo, now);
    forall i | 0 <= i < |r.keys| ensures r.keys[i] in busy {
      var k := r.keys[i];
      assert SlotOk(lim, r, k, now);
      var j :| 0 <= j < |rs| && rs[j] == Req(k, r.data[k].account.updated);
      assert lo <= rs[j].time;
    }
    DistinctMeansMany(r.keys, busy);
  }

  lemma TouchedStamped(lim: Limits, b: Slots, rs: seq<Req>, key: Key, was: real, now: real)
    requires Usable(lim) && TableOk(lim, b, was) && was <= now && Stamped(b, rs)
    ensures Stamped(Touched(lim, b, key, now), rs + [Req(key, now)])
  {
    hide Take, FindSlot, Touched;
    TouchedShape(lim, b, key, now);
    CallerOk(lim, b, key, was, now);
  }

  lemma CallerAgrees(lim: Limits, b: Slots, u: Accounts, was: real, r: Req)
    requires Usable(lim) && TableOk(lim, b, was) && was <= r.time && Agrees(lim, b, u, was)
    ensures KeyAgrees(lim, Check(lim, b, r.key, r.time).0, Charge(lim, u, r), r.time, r.key)
  {
    hide Take, FindSlot, FindAccount, Touched, Check, Without, SlotOk, TableOk, Agrees, LruKeys;
    TouchedShape(lim, b, r.key, r.time);
    CheckIsLru(lim, b, r.key, was, r.time);
    SameTake(lim, b, u, was, r.key, r.time);
    CallerOk(lim, b, r.key, was, r.time);
  }

  lemma OtherAgrees(lim: Limits, b: Slots, u: Accounts, rs: seq<Req>, was: real, r: Req, k: Key)
    requires Usable(lim) && TableOk(lim, b, was) && was <= r.time && Agrees(lim, b, u, was)
    requires Stamped(b, rs) && Uncrowded(lim, rs + [r]) && k in u && k != r.key
    ensures KeyAgrees(lim, Check(lim, b, r.key, r.time).0, Charge(lim, u, r), r.time, k)
  {
    hide Take, FindSlot, FindAccount, Touched, Check, Uncrowded, Without, SlotOk, TableOk, Stamped, OldestFirst,
         LruKeys;
    var t, b' := Touched(lim, b, r.key, r.time), Check(lim, b, r.key, r.time).0;
    assert KeyAgrees(lim, b, u, was, k);
    TouchedShape(lim, b, r.key, r.time);
    CheckIsLru(lim, b, r.key, was, r.time);
    if k in b.data && k !in b'.data {
      TouchedOk(lim, b, r.key, was, r.time);
      TouchedStamped(lim, b, rs, r.key, was, r.time);
      EvictedIsFirst(lim, b, t, b', r.key, k);
      OverfullMeansOld(lim, t, rs + [r], r.time);
    }
  }

  lemma AgreementStep(lim: Limits, b: Slots, u: Accounts, rs: seq<Req>, was: real, r: Req)
    requires Usable(lim) && TableOk(lim, b, was) && was <= r.time
    requires Agrees(lim, b, u, was) && Stamped(b, rs) && Uncrowded(lim, rs + [r])
    ensures Agrees(lim, Check(lim, b, r.key, r.time).0, Charge(lim, u, r), r.time)
    ensures Stamped(Check(lim, b, r.key, r.time).0, rs + [r])
  {
    hide Take, FindSlot, FindAccount, Touched, Check, Uncrowded, Without, SlotOk, KeyAgrees, TableOk, LruKeys;
    var b' := Check(lim, b, r.key, r.time).0;
    TouchedShape(lim, b, r.key, r.time);
    TouchedStamped(lim, b, rs, r.key, was, r.time);
    CheckIsLru(lim, b, r.key, was, r.time);
    forall k | k in Charge(lim, u, r) ensures KeyAgrees(lim, b', Charge(lim, u, r), r.time, k) {
      if k == r.key {
        CallerAgrees(lim, b, u, was, r);
      } else {
        OtherAgrees(lim, b, u, rs, was, r, k);
      }
    }
  }

  lemma EvictedIsFirst(lim: Limits, b: Slots, t: Slots, b': Slots, key: Key, k: Key)
    requires t.keys == Without(b.keys, key) + [key]
    requires b'.keys == LruKeys(b.keys, key)
    requires k in b.data && k != key && k !in b'.data
    ensures |t.keys| > MAX_CLIENTS && t.keys[0] == k
  {
    hide Without;
    assert k in t.keys by {
      assert k in Without(b.keys, key);
    }
  }

  /** The state of both tables after every prefix of the run. */
  lemma {:induction false} TablesAgree(lim: Limits, rs: seq<Req>)
    requires Usable(lim) && Chronological(rs) && Uncrowded(lim, rs)
    ensures rs != [] ==> Agrees(lim, Bounded(lim, rs), Unbounded(lim, rs), LastTime(rs))
    ensures Stamped(Bounded(lim, rs), rs)
    ensures rs == [] ==> Bounded(lim, rs) == Empty() && Unbounded(lim, rs) == map[]
  {
    hide Check, Take, Agrees, Stamped, TableOk, Uncrowded;
    BoundedOk(lim, rs);
    if rs == [] {
      NothingStamped();
    } else {
      var n := |rs| - 1;
      var before := rs[..n];
      assert rs == before + [rs[n]];
      UncrowdedPrefix(lim, rs, n);
      TablesAgree(lim, before);
      BoundedOk(lim, before);
      NothingAgrees(lim, rs[n].time);
      var was := if n == 0 then rs[n].time else LastTime(before);
      EmptyOk(lim, rs[n].time);
      AgreementStep(lim, Bounded(lim, before), Unbounded(lim, before), before, was, rs[n]);
    }
  }

  lemma NothingStamped()
    ensures Stamped(Empty(), [])
  {
  }

  lemma NothingAgrees(lim: Limits, now: real)
    ensures Agrees(lim, Empty(), map[], now)
  {
  }

  lemma UncrowdedPrefix(lim: Limits, rs: seq<Req>, n: nat)
    requires Uncrowded(lim, rs) && n <= |rs|
    ensures Uncrowded(lim, rs[..n])
  {
    forall lo, hi | hi - lo < lim.window ensures |KeysIn(rs[..n], lo, hi)| <= MAX_CLIENTS {
      SubsetSize(KeysIn(rs[..n], lo, hi), KeysIn(rs, lo, hi));
    }
  }

  lemma {:induction false} SubsetSize(a: set<Key>, b: set<Key>)
    requires a <= b
    ensures |a| <= |b|
  {
    if a != {} {
      var x :| x in a;
      SubsetSize(a - {x}, b - {x});
    }
  }

  /**
    The bound is invisible: as long as no span shorter than the window sees
    more than MAX_CLIENTS distinct keys, every check of the run returns the
    wait that a table without a bound would have returned.
   */
  lemma BoundIsInvisible(lim: Limits, rs: seq<Req>, n: nat)
    requires Usable(lim) && Chronological(rs) && Uncrowded(lim, rs) && n < |rs|
    ensures BoundedWait(lim, rs, n) == UnboundedWait(lim, rs, n)
  {
    hide Take, Agrees, Uncrowded, Evict, FindAccount;
    var before, r := rs[..n], rs[n];
    UncrowdedPrefix(lim, rs, n);
    TablesAgree(lim, before);
    NothingAgrees(lim, r.time);
    var was := if n == 0 then r.time else LastTime(before);
    SameTake(lim, Bounded(lim, before), Unbounded(lim, before), was, r.key, r.time);
  }
}
