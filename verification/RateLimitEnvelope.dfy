/**
  What the bucket theorems mean for the limiter: while a key stays in the
  table, its checks are exactly the takes of one bucket, whatever the other
  clients do in between.
 */
module RateLimitEnvelope {
  import opened OrderedDict
  import opened Bucket
  import opened RateLimitSpec
  import opened RateLimitRuns

  /** `key` enters the table at request `a` and is not evicted before request `n`. */
  ghost predicate Resident(lim: Limits, rs: seq<Req>, key: Key, a: nat, n: nat)
    requires Usable(lim) && a <= n < |rs|
  {
    && rs[a].key == key
    && key !in Bounded(lim, rs[..a]).data
    && forall m :: a < m <= n ==> key in Bounded(lim, rs[..m]).data
  }

  /** The times of the key's requests among numbers `a` to `m - 1`. */
  function TimesOf(rs: seq<Req>, key: Key, a: nat, m: nat): seq<real>
    requires m <= |rs|
    decreases m
  {
    if m <= a then []
    else if rs[m - 1].key != key then TimesOf(rs, key, a, m - 1)
    else TimesOf(rs, key, a, m - 1) + [rs[m - 1].time]
  }

  lemma {:induction false} TimesSorted(rs: seq<Req>, key: Key, a: nat, m: nat)
    requires Chronological(rs) && m <= |rs|
    ensures Sorted(TimesOf(rs, key, a, m))
    ensures forall i :: 0 <= i < |TimesOf(rs, key, a, m)| ==>
              m > 0 && TimesOf(rs, key, a, m)[i] <= rs[m - 1].time
    decreases m
  {
    if m > a {
      TimesSorted(rs, key, a, m - 1);
    }
  }

  lemma RunStep(lim: Limits, rs: seq<Req>, m: nat)
    requires Usable(lim) && m < |rs|
    ensures var checked := Check(lim, Bounded(lim, rs[..m]), rs[m].key, rs[m].time);
            Bounded(lim, rs[..m + 1]) == checked.0 && BoundedWait(lim, rs, m) == checked.1
  {
    hide Check;
    assert rs[..m + 1][..m] == rs[..m];
  }

  /** One check, seen from the table before it. */
  lemma CheckStep(lim: Limits, rs: seq<Req>, m: nat)
    requires Usable(lim) && Chronological(rs) && m < |rs|
    ensures var b, b', r := Bounded(lim, rs[..m]), Bounded(lim, rs[..m + 1]), rs[m];
            var found := FindSlot(lim, b, r.key, r.time).account;
            var taken := Take(found, Capacity(lim, r.key.kind), Rate(lim, r.key.kind), r.time);
            && r.key in b'.data && b'.data[r.key].account == taken.0
            && BoundedWait(lim, rs, m) == taken.1
            && (forall k :: k in b'.data && k != r.key ==> k in b.data && b'.data[k] == b.data[k])
  {
    hide Take, FindSlot, TableOk, LruKeys, Touched, Without, Capacity, Rate, Check, Bounded, BoundedWait, Consistent;
    var b, r := Bounded(lim, rs[..m]), rs[m];
    RunStep(lim, rs, m);
    WaitOfCheck(lim, b, r.key, r.time);
    BoundedOk(lim, rs[..m]);
    EmptyOk(lim, r.time);
    CheckIsLru(lim, b, r.key, if m == 0 then r.time else LastTime(rs[..m]), r.time);
    TouchedShape(lim, b, r.key, r.time);
  }

  lemma FoundFresh(lim: Limits, t: Slots, key: Key, x: real)
    requires Usable(lim) && key !in t.data
    ensures FindSlot(lim, t, key, x).account
         == AccountBefore(Capacity(lim, key.kind), Rate(lim, key.kind), [] + [x], 0)
  {
  }

  lemma FoundStored(lim: Limits, t: Slots, key: Key, x: real)
    requires key in t.data
    ensures FindSlot(lim, t, key, x) == t.data[key]
  {
  }

  lemma ResidentAt(lim: Limits, rs: seq<Req>, key: Key, a: nat, n: nat, m: nat)
    requires Usable(lim) && a <= m <= n < |rs| && Resident(lim, rs, key, a, n)
    ensures rs[a].key == key
    ensures key in Bounded(lim, rs[..m]).data <==> m > a
  {
    hide Bounded;
  }

  /** What the key's check at `x`, after `m` requests, finds is what its bucket would find. */
  lemma {:induction false} ResidentBucket(lim: Limits, rs: seq<Req>, key: Key, a: nat, n: nat, m: nat, x: real)
    requires Usable(lim) && Chronological(rs) && a <= n < |rs| && Resident(lim, rs, key, a, n) && a <= m <= n
    ensures var ts := TimesOf(rs, key, a, m);
            FindSlot(lim, Bounded(lim, rs[..m]), key, x).account
            == AccountBefore(Capacity(lim, key.kind), Rate(lim, key.kind), ts + [x], |ts|)
    decreases m
  {
    hide Take, Bounded, FindSlot, AccountBefore, Resident, Capacity, Rate, Chronological;
    ResidentAt(lim, rs, key, a, n, m);
    if m == a {
      FoundFresh(lim, Bounded(lim, rs[..m]), key, x);
    } else {
      FoundStored(lim, Bounded(lim, rs[..m]), key, x);
      CheckStep(lim, rs, m - 1);
      if rs[m - 1].key == key {
        ResidentBucketOwn(lim, rs, key, a, n, m, x);
      } else {
        ResidentAt(lim, rs, key, a, n, m - 1);
        FoundStored(lim, Bounded(lim, rs[..m - 1]), key, x);
        ResidentBucket(lim, rs, key, a, n, m - 1, x);
      }
    }
  }

  lemma {:induction false} ResidentBucketOwn(lim: Limits, rs: seq<Req>, key: Key, a: nat, n: nat, m: nat, x: real)
    requires Usable(lim) && Chronological(rs) && a <= n < |rs| && Resident(lim, rs, key, a, n) && a < m <= n
    requires rs[m - 1].key == key
    ensures var ts := TimesOf(rs, key, a, m);
            FindSlot(lim, Bounded(lim, rs[..m]), key, x).account
            == AccountBefore(Capacity(lim, key.kind), Rate(lim, key.kind), ts + [x], |ts|)
    decreases m, 0
  {
    hide Take, Bounded, FindSlot, AccountBefore, AccountAfter, Resident, Capacity, Rate, Chronological, TimesOf,
         BoundedWait, Consistent, Without;
    var before, was := TimesOf(rs, key, a, m - 1), rs[m - 1].time;
    ResidentAt(lim, rs, key, a, n, m);
    FoundStored(lim, Bounded(lim, rs[..m]), key, x);
    CheckStep(lim, rs, m - 1);
    ResidentBucket(lim, rs, key, a, n, m - 1, was);
    OwnRequest(rs, key, a, m);
    AccountAfterLast(Capacity(lim, key.kind), Rate(lim, key.kind), before, was);
    AccountCarriesOn(Capacity(lim, key.kind), Rate(lim, key.kind), before + [was], x);
  }

  lemma OwnRequest(rs: seq<Req>, key: Key, a: nat, m: nat)
    requires a < m <= |rs| && rs[m - 1].key == key
    ensures TimesOf(rs, key, a, m) == TimesOf(rs, key, a, m - 1) + [rs[m - 1].time]
  {
  }

  /** A check of the key is granted exactly when its bucket's take is. */
  lemma ResidentGrant(lim: Limits, rs: seq<Req>, key: Key, a: nat, n: nat, m: nat)
    requires Usable(lim) && Chronological(rs) && a <= n < |rs| && Resident(lim, rs, key, a, n)
    requires a <= m <= n && rs[m].key == key
    ensures var ts := TimesOf(rs, key, a, m) + [rs[m].time];
            BoundedWait(lim, rs, m) == 0.0
            <==> Granted(Capacity(lim, key.kind), Rate(lim, key.kind), ts, |ts| - 1)
  {
    hide Take, Bounded, FindSlot, AccountBefore, BoundedWait, TimesOf, Resident;
    CheckStep(lim, rs, m);
    ResidentBucket(lim, rs, key, a, n, m, rs[m].time);
  }

  /** The key's granted checks among numbers `a` to `m - 1` that fall in [s, t]. */
  function GrantedChecks(lim: Limits, rs: seq<Req>, key: Key, a: nat, m: nat, s: real, t: real): nat
    requires Usable(lim) && m <= |rs|
    decreases m
  {
    if m <= a then 0
    else
      GrantedChecks(lim, rs, key, a, m - 1, s, t) +
      if rs[m - 1].key == key && s <= rs[m - 1].time <= t && BoundedWait(lim, rs, m - 1) == 0.0 then 1 else 0
  }

  lemma {:induction false} GrantsAreGrantedChecks(
    lim: Limits, rs: seq<Req>, key: Key, a: nat, n: nat, m: nat, s: real, t: real)
    requires Usable(lim) && Chronological(rs) && a <= n < |rs| && Resident(lim, rs, key, a, n)
    requires a <= m <= n + 1
    ensures var ts := TimesOf(rs, key, a, m);
            GrantedChecks(lim, rs, key, a, m, s, t)
            == GrantsWithin(Capacity(lim, key.kind), Rate(lim, key.kind), ts, s, t, |ts|)
    decreases m
  {
    hide Take, Bounded, BoundedWait, Resident, Granted;
    if m > a {
      GrantsAreGrantedChecks(lim, rs, key, a, n, m - 1, s, t);
      if rs[m - 1].key == key {
        ResidentGrant(lim, rs, key, a, n, m - 1);
        GrantsWithinPrefix(Capacity(lim, key.kind), Rate(lim, key.kind),
                           TimesOf(rs, key, a, m - 1), rs[m - 1].time, s, t, |TimesOf(rs, key, a, m - 1)|);
      }
    }
  }

  /**
    While a key is not evicted its limit is exactly the linear envelope: check
    `n` is granted if and only if, for every window [s, now], the grants in it
    and this one together stay within capacity + rate * (now - s).
   */
  lemma LimitIsTheEnvelope(lim: Limits, rs: seq<Req>, key: Key, a: nat, n: nat)
    requires Usable(lim) && Chronological(rs) && a <= n < |rs| && Resident(lim, rs, key, a, n)
    requires rs[n].key == key
    ensures BoundedWait(lim, rs, n) == 0.0
       <==> forall s: real {:trigger GrantedChecks(lim, rs, key, a, n, s, rs[n].time)} :: s <= rs[n].time ==>
              (GrantedChecks(lim, rs, key, a, n, s, rs[n].time) + 1) as real
              <= Capacity(lim, key.kind) + Rate(lim, key.kind) * (rs[n].time - s)
  {
    hide Take, Bounded, BoundedWait, Resident, Granted, GrantsWithin, GrantedChecks, Capacity, Rate;
    var ts, now := TimesOf(rs, key, a, n), rs[n].time;
    var c, r := Capacity(lim, key.kind), Rate(lim, key.kind);
    var all := ts + [now];
    assert all[|ts|] == now;
    AtLeastOne(lim, key.kind);
    OwnRequest(rs, key, a, n + 1);
    TimesSorted(rs, key, a, n + 1);
    ResidentGrant(lim, rs, key, a, n, n);
    Envelope(c, r, all, |ts|);
    if BoundedWait(lim, rs, n) == 0.0 {
      forall s: real | s <= now
        ensures (GrantedChecks(lim, rs, key, a, n, s, now) + 1) as real <= c + r * (now - s)
      {
        CountsAgree(lim, rs, key, a, n, s);
        GrantKeepsWindow(c, r, all, |ts|, s);
      }
    } else {
      var s: real :|
        s <= all[|ts|] && (GrantsWithin(c, r, all, s, all[|ts|], |ts|) + 1) as real > c + r * (all[|ts|] - s);
      CountsAgree(lim, rs, key, a, n, s);
      assert (GrantedChecks(lim, rs, key, a, n, s, rs[n].time) + 1) as real > c + r * (now - s);
    }
  }

  /** And no span of time, wherever it starts and ends, holds more grants than its share. */
  lemma GrantsInAnySpan(
    lim: Limits, rs: seq<Req>, key: Key, a: nat, n: nat, m: nat, s: real, t: real)
    requires Usable(lim) && Chronological(rs) && a <= n < |rs| && Resident(lim, rs, key, a, n)
    requires a <= m <= n + 1 && s <= t
    ensures GrantedChecks(lim, rs, key, a, m, s, t) as real
         <= Capacity(lim, key.kind) + Rate(lim, key.kind) * (t - s)
  {
    hide Take, Bounded, BoundedWait, Resident, Granted, GrantsWithin, GrantedChecks, Capacity, Rate;
    var ts := TimesOf(rs, key, a, m);
    AtLeastOne(lim, key.kind);
    TimesSorted(rs, key, a, m);
    GrantsAreGrantedChecks(lim, rs, key, a, n, m, s, t);
    GrantsBounded(Capacity(lim, key.kind), Rate(lim, key.kind), ts, s, t, |ts|);
  }

  lemma CountsAgree(lim: Limits, rs: seq<Req>, key: Key, a: nat, n: nat, s: real)
    requires Usable(lim) && Chronological(rs) && a <= n < |rs| && Resident(lim, rs, key, a, n)
    ensures var ts, now := TimesOf(rs, key, a, n), rs[n].time;
            GrantedChecks(lim, rs, key, a, n, s, now)
            == GrantsWithin(Capacity(lim, key.kind), Rate(lim, key.kind), ts + [now], s, now, |ts|)
  {
    hide Take, Bounded, BoundedWait, Resident, Granted, GrantsWithin, GrantedChecks;
    var ts, now := TimesOf(rs, key, a, n), rs[n].time;
    GrantsAreGrantedChecks(lim, rs, key, a, n, n, s, now);
    GrantsWithinPrefix(Capacity(lim, key.kind), Rate(lim, key.kind), ts, now, s, now, |ts|);
  }

  // ---- waits --------------------------------------------------------------

  /** After request `i` the key stays in the table until request `j`. */
  ghost predicate StaysStored(lim: Limits, rs: seq<Req>, key: Key, i: nat, j: nat)
    requires Usable(lim) && i < j < |rs|
  {
    forall m :: i < m <= j ==> key in Bounded(lim, rs[..m]).data
  }

  /** The key comes back early, or not at all, between `i` and `j`. */
  ghost predicate OnlyEarly(rs: seq<Req>, key: Key, i: nat, j: nat, due: real)
    requires i < j < |rs|
  {
    forall m :: i < m < j && rs[m].key == key ==> rs[m].time < due
  }

  lemma FoundOk(lim: Limits, rs: seq<Req>, m: nat)
    requires Usable(lim) && Chronological(rs) && m < |rs|
    ensures var a := FindSlot(lim, Bounded(lim, rs[..m]), rs[m].key, rs[m].time).account;
            0.0 <= a.tokens <= Capacity(lim, rs[m].key.kind) && a.updated <= rs[m].time
  {
    hide Check, Take, FindSlot;
    var r := rs[m];
    BoundedOk(lim, rs[..m]);
    EmptyOk(lim, r.time);
    CallerOk(lim, Bounded(lim, rs[..m]), r.key, if m == 0 then r.time else LastTime(rs[..m]), r.time);
  }

  lemma {:induction false} DueStays(lim: Limits, rs: seq<Req>, key: Key, i: nat, j: nat, m: nat)
    requires Usable(lim) && Chronological(rs) && i < m <= j < |rs| && rs[i].key == key
    requires StaysStored(lim, rs, key, i, j) && BoundedWait(lim, rs, i) != 0.0
    requires OnlyEarly(rs, key, i, j, rs[i].time + BoundedWait(lim, rs, i))
    ensures key in Bounded(lim, rs[..m]).data
    ensures NextGrant(Bounded(lim, rs[..m]).data[key].account, Rate(lim, key.kind))
         == rs[i].time + BoundedWait(lim, rs, i)
    decreases m
  {
    hide Take, Bounded, BoundedWait, NextGrant, Capacity, Rate, FindSlot;
    var b, r, c, rate := Bounded(lim, rs[..m - 1]), rs[m - 1], Capacity(lim, key.kind), Rate(lim, key.kind);
    CheckStep(lim, rs, m - 1);
    if m - 1 > i {
      DueStays(lim, rs, key, i, j, m - 1);
      FoundStored(lim, b, key, r.time);
    }
    if r.key == key {
      FoundOk(lim, rs, m - 1);
      AtLeastOne(lim, key.kind);
      WaitIsExact(FindSlot(lim, b, key, r.time).account, c, rate, r.time);
    }
  }

  /**
    The wait is exact and asking again is free. After a refusal of `wait`
    seconds, however often the same key asks before they are up, a check before
    the time named is refused, naming the same time, and one from then on is
    granted.
   */
  lemma RefusalsAreFree(lim: Limits, rs: seq<Req>, key: Key, i: nat, j: nat)
    requires Usable(lim) && Chronological(rs) && i < j < |rs| && rs[i].key == rs[j].key == key
    requires StaysStored(lim, rs, key, i, j) && BoundedWait(lim, rs, i) != 0.0
    requires OnlyEarly(rs, key, i, j, rs[i].time + BoundedWait(lim, rs, i))
    ensures var due := rs[i].time + BoundedWait(lim, rs, i);
            && (BoundedWait(lim, rs, j) == 0.0 <==> rs[j].time >= due)
            && (BoundedWait(lim, rs, j) != 0.0 ==> rs[j].time + BoundedWait(lim, rs, j) == due)
  {
    hide Take, Bounded, BoundedWait, NextGrant, Capacity, Rate, FindSlot;
    DueStays(lim, rs, key, i, j, j);
    CheckStep(lim, rs, j);
    FoundStored(lim, Bounded(lim, rs[..j]), key, rs[j].time);
    FoundOk(lim, rs, j);
    AtLeastOne(lim, key.kind);
    WaitIsExact(FindSlot(lim, Bounded(lim, rs[..j]), key, rs[j].time).account,
                Capacity(lim, key.kind), Rate(lim, key.kind), rs[j].time);
  }

  /**
    Retry-After, in whole seconds (section 10.2.3 of RFC 9110), is the least
    positive number of seconds that is long enough.
   */
  lemma RetryAfterIsTight(wait: real, n: int)
    requires n >= 1
    ensures n >= RetryAfter(wait) <==> n as real >= wait
  {
  }

  /** Coming back when Retry-After says always succeeds, and no whole second sooner does. */
  lemma RetryAfterSucceeds(lim: Limits, rs: seq<Req>, key: Key, i: nat, j: nat, n: int)
    requires Usable(lim) && Chronological(rs) && i < j < |rs| && rs[i].key == rs[j].key == key
    requires StaysStored(lim, rs, key, i, j) && BoundedWait(lim, rs, i) != 0.0
    requires OnlyEarly(rs, key, i, j, rs[i].time + BoundedWait(lim, rs, i))
    requires n >= 1 && rs[j].time == rs[i].time + n as real
    ensures BoundedWait(lim, rs, j) == 0.0 <==> n >= RetryAfter(BoundedWait(lim, rs, i))
  {
    hide Take, Bounded, BoundedWait, Capacity, Rate, FindSlot, RetryAfter;
    var w := BoundedWait(lim, rs, i);
    RefusalsAreFree(lim, rs, key, i, j);
    WaitNonNegative(lim, rs, i);
    RetryAfterIsTight(w, n);
  }

  lemma WaitNonNegative(lim: Limits, rs: seq<Req>, i: nat)
    requires Usable(lim) && Chronological(rs) && i < |rs|
    ensures BoundedWait(lim, rs, i) >= 0.0
  {
    hide Take, Bounded, BoundedWait, Capacity, Rate, FindSlot;
    var key := rs[i].key;
    CheckStep(lim, rs, i);
    FoundOk(lim, rs, i);
    AtLeastOne(lim, key.kind);
    TakeLeavesSound(FindSlot(lim, Bounded(lim, rs[..i]), key, rs[i].time).account,
                    Capacity(lim, key.kind), Rate(lim, key.kind), rs[i].time);
  }
}
