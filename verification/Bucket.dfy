/**
  The token bucket by itself: a pure account of `take`, and the theorem that it
  is exactly the linear envelope it is named after.
 */
module Bucket {
  import opened Arithmetic

  datatype Account = Account(tokens: real, updated: real)

  /** The tokens on hand at `now`, before anything is spent. */
  function Refilled(a: Account, capacity: real, rate: real, now: real): real {
    Min(capacity, a.tokens + (now - a.updated) * rate)
  }

  /** Spend one token: the new account, and the wait, 0.0 when granted. */
  function Take(a: Account, capacity: real, rate: real, now: real): (Account, real)
    requires rate > 0.0
  {
    var tokens := Refilled(a, capacity, rate, now);
    if tokens >= 1.0 then (Account(tokens - 1.0, now), 0.0)
    else (Account(tokens, now), (1.0 - tokens) / rate)
  }

  ghost predicate Sound(a: Account, capacity: real) {
    0.0 <= a.tokens < capacity
  }

  lemma RefillSign(a: Account, capacity: real, rate: real, now: real)
    requires capacity >= 0.0 && rate >= 0.0 && a.updated <= now
    ensures Min(capacity, a.tokens) <= Refilled(a, capacity, rate, now) <= capacity
  {
    var x := now - a.updated;
    var gain := x * rate;
    ProductSign(x, rate);
    assert gain >= 0.0;
    assert Refilled(a, capacity, rate, now) == Min(capacity, a.tokens + gain);
  }

  /** A stored bucket is never back at full capacity: the code only stores it after a take. */
  lemma TakeLeavesSound(a: Account, capacity: real, rate: real, now: real)
    requires capacity >= 1.0 && rate > 0.0 && a.updated <= now && 0.0 <= a.tokens
    ensures Sound(Take(a, capacity, rate, now).0, capacity)
    ensures Take(a, capacity, rate, now).0.updated == now
    ensures Take(a, capacity, rate, now).1 >= 0.0
  {
    RefillSign(a, capacity, rate, now);
    var tokens := Refilled(a, capacity, rate, now);
    if tokens < 1.0 {
      QuotientSign(1.0 - tokens, rate);
    }
  }

  // ---- the wait is exact, and refusals are free ---------------------------

  /** The earliest time at which a take is granted. */
  function NextGrant(a: Account, rate: real): real
    requires rate > 0.0
  {
    if a.tokens >= 1.0 then a.updated else a.updated + (1.0 - a.tokens) / rate
  }

  lemma EnoughByThen(a: Account, rate: real, now: real)
    requires rate > 0.0 && a.updated <= now
    ensures a.tokens + (now - a.updated) * rate >= 1.0 <==> now >= NextGrant(a, rate)
  {
    var d := (1.0 - a.tokens) / rate;
    assert d * rate == 1.0 - a.tokens;
    var x := now - a.updated;
    assert (x - d) * rate == x * rate - d * rate;
    if a.tokens >= 1.0 {
      ProductSign(x, rate);
    } else if x >= d {
      ProductSign(x - d, rate);
    } else {
      assert (d - x) * rate > 0.0;
    }
  }

  /**
    A take is granted exactly from NextGrant on; a refused one returns the
    exact distance to it and leaves it where it was.
   */
  lemma WaitIsExact(a: Account, capacity: real, rate: real, now: real)
    requires capacity >= 1.0 && rate > 0.0 && a.updated <= now && 0.0 <= a.tokens <= capacity
    ensures var (b, wait) := Take(a, capacity, rate, now);
            && (wait == 0.0 <==> now >= NextGrant(a, rate))
            && (wait != 0.0 ==> now + wait == NextGrant(a, rate) && NextGrant(b, rate) == NextGrant(a, rate))
  {
    EnoughByThen(a, rate, now);
    var tokens := Refilled(a, capacity, rate, now);
    if tokens < 1.0 {
      QuotientSign(1.0 - tokens, rate);
      var x := now - a.updated;
      assert tokens == a.tokens + x * rate;
      assert (1.0 - tokens) / rate == (1.0 - a.tokens) / rate - x by {
        assert ((1.0 - a.tokens) / rate - x) * rate == 1.0 - tokens;
      }
      if a.tokens >= 1.0 {
        ProductSign(x, rate);
      }
    }
  }

  // ---- runs of takes ------------------------------------------------------

  ghost predicate Sorted(ts: seq<real>) {
    forall i, j :: 0 <= i <= j < |ts| ==> ts[i] <= ts[j]
  }

  /** The account created full at the first take of `ts`, after all of them. */
  function AccountAfter(capacity: real, rate: real, ts: seq<real>): Account
    requires rate > 0.0 && ts != []
  {
    var n := |ts| - 1;
    Take(AccountBefore(capacity, rate, ts, n), capacity, rate, ts[n]).0
  }

  /** The account that take number `n` finds. */
  function AccountBefore(capacity: real, rate: real, ts: seq<real>, n: nat): Account
    requires rate > 0.0 && n < |ts|
    decreases n
  {
    if n == 0 then Account(capacity, ts[0])
    else Take(AccountBefore(capacity, rate, ts, n - 1), capacity, rate, ts[n - 1]).0
  }

  predicate Granted(capacity: real, rate: real, ts: seq<real>, n: nat)
    requires rate > 0.0 && n < |ts|
  {
    Take(AccountBefore(capacity, rate, ts, n), capacity, rate, ts[n]).1 == 0.0
  }

  /** Grants among takes number `i` to `n - 1`. */
  function Grants(capacity: real, rate: real, ts: seq<real>, i: nat, n: nat): nat
    requires rate > 0.0 && n <= |ts|
    decreases n
  {
    if n <= i then 0
    else Grants(capacity, rate, ts, i, n - 1) + if Granted(capacity, rate, ts, n - 1) then 1 else 0
  }

  /** Grants among the first `n` takes that fall in the time window [s, t]. */
  function GrantsWithin(capacity: real, rate: real, ts: seq<real>, s: real, t: real, n: nat): nat
    requires rate > 0.0 && n <= |ts|
    decreases n
  {
    if n == 0 then 0
    else
      GrantsWithin(capacity, rate, ts, s, t, n - 1) +
      if s <= ts[n - 1] <= t && Granted(capacity, rate, ts, n - 1) then 1 else 0
  }

  function Level(capacity: real, rate: real, ts: seq<real>, n: nat): real
    requires rate > 0.0 && n < |ts|
  {
    Refilled(AccountBefore(capacity, rate, ts, n), capacity, rate, ts[n])
  }

  /** What the envelope anchored at take `i` leaves for take `n`. */
  function Headroom(capacity: real, rate: real, ts: seq<real>, i: nat, n: nat): real
    requires rate > 0.0 && i <= n < |ts|
  {
    capacity + rate * (ts[n] - ts[i]) - Grants(capacity, rate, ts, i, n) as real
  }

  lemma GrantedAtOne(capacity: real, rate: real, ts: seq<real>, n: nat)
    requires rate > 0.0 && n < |ts|
    ensures Granted(capacity, rate, ts, n) <==> Level(capacity, rate, ts, n) >= 1.0
  {
    var tokens := Level(capacity, rate, ts, n);
    if tokens < 1.0 {
      QuotientSign(1.0 - tokens, rate);
    }
  }

  /** What a take leaves, in terms of the level it found. */
  lemma TakeLeaves(a: Account, capacity: real, rate: real, now: real)
    requires rate > 0.0
    ensures var (b, wait) := Take(a, capacity, rate, now);
            b == Account(Refilled(a, capacity, rate, now) - (if wait == 0.0 then 1.0 else 0.0), now)
  {
    hide Refilled;
    var tokens := Refilled(a, capacity, rate, now);
    if tokens < 1.0 {
      QuotientSign(1.0 - tokens, rate);
    }
  }

  lemma RefillFrom(tokens: real, was: real, capacity: real, rate: real, now: real)
    ensures Refilled(Account(tokens, was), capacity, rate, now) == Min(capacity, tokens + rate * (now - was))
  {
    var x := now - was;
    assert x * rate == rate * x;
  }

  lemma LevelStep(capacity: real, rate: real, ts: seq<real>, n: nat)
    requires rate > 0.0 && 0 < n < |ts|
    ensures var spent := if Granted(capacity, rate, ts, n - 1) then 1.0 else 0.0;
            Level(capacity, rate, ts, n)
            == Min(capacity, Level(capacity, rate, ts, n - 1) - spent + rate * (ts[n] - ts[n - 1]))
  {
    hide Take, Refilled;
    var a := AccountBefore(capacity, rate, ts, n - 1);
    assert AccountBefore(capacity, rate, ts, n) == Take(a, capacity, rate, ts[n - 1]).0;
    TakeLeaves(a, capacity, rate, ts[n - 1]);
    var spent := if Granted(capacity, rate, ts, n - 1) then 1.0 else 0.0;
    var left := Level(capacity, rate, ts, n - 1) - spent;
    assert AccountBefore(capacity, rate, ts, n) == Account(left, ts[n - 1]);
    RefillFrom(left, ts[n - 1], capacity, rate, ts[n]);
  }

  lemma HeadroomStep(capacity: real, rate: real, ts: seq<real>, i: nat, n: nat)
    requires rate > 0.0 && i < n < |ts|
    ensures var spent := if Granted(capacity, rate, ts, n - 1) then 1.0 else 0.0;
            Headroom(capacity, rate, ts, i, n)
            == Headroom(capacity, rate, ts, i, n - 1) - spent + rate * (ts[n] - ts[n - 1])
  {
    var x, y := ts[n - 1] - ts[i], ts[n] - ts[n - 1];
    assert rate * (x + y) == rate * x + rate * y;
    assert ts[n] - ts[i] == x + y;
  }

  /** The level is the least headroom over all anchors: a bound, and attained. */
  lemma {:induction false} LevelIsLeastHeadroom(capacity: real, rate: real, ts: seq<real>, n: nat) returns (anchor: nat)
    requires capacity >= 1.0 && rate > 0.0 && Sorted(ts) && n < |ts|
    ensures forall i :: 0 <= i <= n ==> Level(capacity, rate, ts, n) <= Headroom(capacity, rate, ts, i, n)
    ensures anchor <= n && Level(capacity, rate, ts, n) == Headroom(capacity, rate, ts, anchor, n)
    decreases n
  {
    hide Level, Headroom, Granted;
    HeadroomAtAnchor(capacity, rate, ts, n);
    if n == 0 {
      anchor := 0;
      LevelAtStart(capacity, rate, ts);
    } else {
      anchor := LevelIsLeastHeadroom(capacity, rate, ts, n - 1);
      LevelStep(capacity, rate, ts, n);
      forall i | 0 <= i < n
        ensures Level(capacity, rate, ts, n) <= Headroom(capacity, rate, ts, i, n)
      {
        HeadroomStep(capacity, rate, ts, i, n);
      }
      HeadroomStep(capacity, rate, ts, anchor, n);
      if Level(capacity, rate, ts, n) == capacity {
        anchor := n;
      }
    }
  }

  lemma HeadroomAtAnchor(capacity: real, rate: real, ts: seq<real>, n: nat)
    requires rate > 0.0 && n < |ts|
    ensures Headroom(capacity, rate, ts, n, n) == capacity
  {
    assert ts[n] - ts[n] == 0.0;
  }

  lemma LevelAtStart(capacity: real, rate: real, ts: seq<real>)
    requires rate > 0.0 && ts != []
    ensures Level(capacity, rate, ts, 0) == capacity
  {
    assert (ts[0] - ts[0]) * rate == 0.0;
  }

  /** The takes that fall in [s, t] are those from the first one at or after `s`. */
  function FirstFrom(ts: seq<real>, s: real): (i: nat)
    ensures i <= |ts|
    ensures forall k :: 0 <= k < i ==> ts[k] < s
    ensures i < |ts| ==> ts[i] >= s
  {
    if ts == [] then 0
    else if ts[0] >= s then 0
    else 1 + FirstFrom(ts[1..], s)
  }

  lemma {:induction false} WithinIsFromFirst(
    capacity: real, rate: real, ts: seq<real>, s: real, t: real, n: nat)
    requires rate > 0.0 && Sorted(ts) && n <= |ts|
    requires n > 0 ==> ts[n - 1] <= t
    ensures GrantsWithin(capacity, rate, ts, s, t, n) == Grants(capacity, rate, ts, FirstFrom(ts, s), n)
    decreases n
  {
    hide Granted;
    if n > 0 {
      WithinIsFromFirst(capacity, rate, ts, s, t, n - 1);
      if FirstFrom(ts, s) < n {
        assert ts[FirstFrom(ts, s)] <= ts[n - 1];
      }
    }
  }

  lemma GrantFitsWindow(capacity: real, rate: real, ts: seq<real>, n: nat, s: real)
    requires capacity >= 1.0 && rate > 0.0 && Sorted(ts) && n < |ts| && s <= ts[n]
    requires forall i :: 0 <= i <= n ==> 1.0 <= Headroom(capacity, rate, ts, i, n)
    ensures (GrantsWithin(capacity, rate, ts, s, ts[n], n) + 1) as real <= capacity + rate * (ts[n] - s)
  {
    hide Granted, FirstFrom, Grants, GrantsWithin;
    var i := FirstFrom(ts, s);
    WithinIsFromFirst(capacity, rate, ts, s, ts[n], n);
    assert i <= n;
    assert 1.0 <= Headroom(capacity, rate, ts, i, n);
    LongerWindow(rate, s, ts[i], ts[n]);
  }

  lemma LongerWindow(rate: real, s: real, x: real, t: real)
    requires rate > 0.0 && s <= x
    ensures rate * (t - x) <= rate * (t - s)
  {
    var d, e := t - x, x - s;
    ProductSign(rate, e);
    assert rate * (d + e) == rate * d + rate * e;
    assert t - s == d + e;
  }

  /** A granted take leaves every window that ends with it within its share. */
  lemma GrantKeepsWindow(capacity: real, rate: real, ts: seq<real>, n: nat, s: real)
    requires capacity >= 1.0 && rate > 0.0 && Sorted(ts) && n < |ts| && s <= ts[n]
    requires Granted(capacity, rate, ts, n)
    ensures (GrantsWithin(capacity, rate, ts, s, ts[n], n) + 1) as real <= capacity + rate * (ts[n] - s)
  {
    hide Granted, Level, Headroom, GrantsWithin;
    GrantedAtOne(capacity, rate, ts, n);
    var anchor := LevelIsLeastHeadroom(capacity, rate, ts, n);
    GrantFitsWindow(capacity, rate, ts, n, s);
  }

  /**
    The bucket is exactly the linear envelope. A take is granted if and only if
    one more grant keeps every window [s, now] within capacity + rate * length.
   */
  lemma Envelope(capacity: real, rate: real, ts: seq<real>, n: nat)
    requires capacity >= 1.0 && rate > 0.0 && Sorted(ts) && n < |ts|
    ensures Granted(capacity, rate, ts, n)
       <==> forall s: real {:trigger GrantsWithin(capacity, rate, ts, s, ts[n], n)} :: s <= ts[n] ==>
              (GrantsWithin(capacity, rate, ts, s, ts[n], n) + 1) as real <= capacity + rate * (ts[n] - s)
  {
    hide Granted, Level, Headroom, GrantsWithin;
    GrantedAtOne(capacity, rate, ts, n);
    var anchor := LevelIsLeastHeadroom(capacity, rate, ts, n);
    if Granted(capacity, rate, ts, n) {
      forall s: real | s <= ts[n]
        ensures (GrantsWithin(capacity, rate, ts, s, ts[n], n) + 1) as real <= capacity + rate * (ts[n] - s)
      {
        GrantKeepsWindow(capacity, rate, ts, n, s);
      }
    } else {
      RefusalOverflows(capacity, rate, ts, n, anchor);
    }
  }

  lemma RefusalOverflows(capacity: real, rate: real, ts: seq<real>, n: nat, anchor: nat)
    requires capacity >= 1.0 && rate > 0.0 && Sorted(ts) && anchor <= n < |ts|
    requires Headroom(capacity, rate, ts, anchor, n) < 1.0
    ensures ts[anchor] <= ts[n]
    ensures (GrantsWithin(capacity, rate, ts, ts[anchor], ts[n], n) + 1) as real
            > capacity + rate * (ts[n] - ts[anchor])
  {
    hide Granted;
    WithinIsFromFirst(capacity, rate, ts, ts[anchor], ts[n], n);
    var first := FirstFrom(ts, ts[anchor]);
    assert first <= anchor;
    GrantsFromEarlier(capacity, rate, ts, first, anchor, n);
  }

  lemma {:induction false} GrantsFromEarlier(capacity: real, rate: real, ts: seq<real>, i: nat, j: nat, n: nat)
    requires rate > 0.0 && i <= j && n <= |ts|
    ensures Grants(capacity, rate, ts, j, n) <= Grants(capacity, rate, ts, i, n)
    decreases n
  {
    if n > j {
      GrantsFromEarlier(capacity, rate, ts, i, j, n - 1);
    }
  }

  lemma LastGrantBounded(capacity: real, rate: real, ts: seq<real>, s: real, t: real, n: nat)
    requires capacity >= 1.0 && rate > 0.0 && Sorted(ts) && n < |ts| && s <= ts[n] <= t
    requires Granted(capacity, rate, ts, n)
    ensures (GrantsWithin(capacity, rate, ts, s, t, n) + 1) as real <= capacity + rate * (t - s)
  {
    hide Granted, GrantsWithin;
    GrantKeepsWindow(capacity, rate, ts, n, s);
    WindowUpToLast(capacity, rate, ts, s, t, n);
    ShorterWindow(rate, s, ts[n], t);
  }

  lemma ShorterWindow(rate: real, s: real, x: real, t: real)
    requires rate > 0.0 && x <= t
    ensures rate * (x - s) <= rate * (t - s)
  {
    var d, e := x - s, t - x;
    ProductSign(rate, e);
    assert rate * (d + e) == rate * d + rate * e;
    assert t - s == d + e;
  }

  /** So no window, wherever it starts and ends, ever holds more than its share. */
  lemma {:induction false} GrantsBounded(capacity: real, rate: real, ts: seq<real>, s: real, t: real, n: nat)
    requires capacity >= 1.0 && rate > 0.0 && Sorted(ts) && n <= |ts| && s <= t
    ensures GrantsWithin(capacity, rate, ts, s, t, n) as real <= capacity + rate * (t - s)
    decreases n
  {
    hide Granted;
    if n == 0 {
      ProductSign(rate, t - s);
    } else {
      GrantsBounded(capacity, rate, ts, s, t, n - 1);
      if s <= ts[n - 1] <= t && Granted(capacity, rate, ts, n - 1) {
        LastGrantBounded(capacity, rate, ts, s, t, n - 1);
      }
    }
  }

  lemma {:induction false} WindowUpToLast(capacity: real, rate: real, ts: seq<real>, s: real, t: real, n: nat)
    requires rate > 0.0 && Sorted(ts) && n < |ts| && ts[n] <= t
    ensures GrantsWithin(capacity, rate, ts, s, ts[n], n) == GrantsWithin(capacity, rate, ts, s, t, n)
  {
    hide Granted;
    if n > 0 {
      assert ts[n - 1] <= ts[n];
    }
    WithinIsFromFirst(capacity, rate, ts, s, ts[n], n);
    WithinIsFromFirst(capacity, rate, ts, s, t, n);
  }

  // ---- what later takes cannot change -------------------------------------

  lemma {:induction false} AccountBeforePrefix(capacity: real, rate: real, ts: seq<real>, x: real, n: nat)
    requires rate > 0.0 && n < |ts|
    ensures AccountBefore(capacity, rate, ts + [x], n) == AccountBefore(capacity, rate, ts, n)
    decreases n
  {
    hide Take;
    if n > 0 {
      AccountBeforePrefix(capacity, rate, ts, x, n - 1);
    }
  }

  lemma {:induction false} GrantsWithinPrefix(
    capacity: real, rate: real, ts: seq<real>, x: real, s: real, t: real, n: nat)
    requires rate > 0.0 && n <= |ts|
    ensures GrantsWithin(capacity, rate, ts + [x], s, t, n) == GrantsWithin(capacity, rate, ts, s, t, n)
    decreases n
  {
    hide Take;
    if n > 0 {
      GrantsWithinPrefix(capacity, rate, ts, x, s, t, n - 1);
      AccountBeforePrefix(capacity, rate, ts, x, n - 1);
    }
  }

  /** The next take finds what the last one left. */
  lemma AccountCarriesOn(capacity: real, rate: real, ts: seq<real>, x: real)
    requires rate > 0.0
    ensures AccountBefore(capacity, rate, ts + [x], |ts|)
         == if ts == [] then Account(capacity, x) else AccountAfter(capacity, rate, ts)
  {
    if ts != [] {
      AccountBeforePrefix(capacity, rate, ts, x, |ts| - 1);
    }
  }

  lemma AccountAfterLast(capacity: real, rate: real, ts: seq<real>, x: real)
    requires rate > 0.0
    ensures AccountAfter(capacity, rate, ts + [x])
         == Take(AccountBefore(capacity, rate, ts + [x], |ts|), capacity, rate, x).0
  {
    hide Take, AccountBefore;
  }
}
