/**
  What eviction costs: when forgetting a client changes nothing that it could
  ever notice.
 */
module Forgetting {
  import opened Arithmetic
  import opened Bucket
  import opened RateLimitSpec
  import opened RateLimitRuns

  /** Whenever the client next asks, a new bucket answers just as the old one would have. */
  ghost predicate Forgettable(lim: Limits, kind: Kind, a: Account, now: real)
    requires Usable(lim)
  {
    forall t: real :: t >= now ==> SameAnswer(lim, kind, a, t)
  }

  predicate SameAnswer(lim: Limits, kind: Kind, a: Account, t: real)
    requires Usable(lim)
  {
    Take(a, Capacity(lim, kind), Rate(lim, kind), t)
    == Take(Account(Capacity(lim, kind), t), Capacity(lim, kind), Rate(lim, kind), t)
  }

  lemma SameAnswerIff(lim: Limits, kind: Kind, a: Account, t: real)
    requires Usable(lim)
    ensures SameAnswer(lim, kind, a, t)
       <==> Refilled(a, Capacity(lim, kind), Rate(lim, kind), t) == Capacity(lim, kind)
  {
    hide Refilled, Capacity, Rate;
    var c, r := Capacity(lim, kind), Rate(lim, kind);
    AtLeastOne(lim, kind);
    FreshIsFull(c, r, t);
    if Refilled(a, c, r, t) < 1.0 {
      QuotientSign(1.0 - Refilled(a, c, r, t), r);
    }
  }

  lemma LevelGrows(lim: Limits, kind: Kind, a: Account, now: real, t: real)
    requires Usable(lim) && now <= t
    requires Refilled(a, Capacity(lim, kind), Rate(lim, kind), now) == Capacity(lim, kind)
    ensures Refilled(a, Capacity(lim, kind), Rate(lim, kind), t) == Capacity(lim, kind)
  {
    hide Capacity, Rate;
    var r, x, y := Rate(lim, kind), now - a.updated, t - now;
    ProductSign(y, r);
    assert (x + y) * r == x * r + y * r;
    assert t - a.updated == x + y;
  }

  /** Forgetting a bucket is free exactly when it is back at full capacity. */
  lemma ForgettableIff(lim: Limits, kind: Kind, a: Account, now: real)
    requires Usable(lim)
    ensures Forgettable(lim, kind, a, now)
       <==> Refilled(a, Capacity(lim, kind), Rate(lim, kind), now) == Capacity(lim, kind)
  {
    hide Refilled, Capacity, Rate, SameAnswer;
    if Refilled(a, Capacity(lim, kind), Rate(lim, kind), now) == Capacity(lim, kind) {
      forall t: real | t >= now ensures SameAnswer(lim, kind, a, t) {
        LevelGrows(lim, kind, a, now, t);
        SameAnswerIff(lim, kind, a, t);
      }
    } else {
      SameAnswerIff(lim, kind, a, now);
      assert !SameAnswer(lim, kind, a, now);
    }
  }

  /**
    Told from the stamp alone: whatever a bucket held at `x`, forgetting it is
    free at `now` exactly when a whole window has passed.
   */
  lemma WindowFreesIff(lim: Limits, kind: Kind, x: real, now: real)
    requires Usable(lim) && x <= now
    ensures (forall level: real :: 0.0 <= level < Capacity(lim, kind) ==>
               Forgettable(lim, kind, Account(level, x), now))
       <==> now - x >= lim.window
  {
    hide Forgettable, Capacity, Rate;
    var c, r := Capacity(lim, kind), Rate(lim, kind);
    AtLeastOne(lim, kind);
    RateFillsInAWindow(lim, kind);
    if now - x >= lim.window {
      forall level: real | 0.0 <= level < c ensures Forgettable(lim, kind, Account(level, x), now) {
        LongIdleIsFull(lim, Account(level, x), kind, now);
        ForgettableIff(lim, kind, Account(level, x), now);
      }
    } else {
      ShortOfAWindow(lim.window, r, now - x);
      ForgettableIff(lim, kind, Account(0.0, x), now);
      assert !Forgettable(lim, kind, Account(0.0, x), now);
    }
  }

  lemma ShortOfAWindow(window: real, rate: real, x: real)
    requires rate > 0.0 && x < window
    ensures x * rate < window * rate
  {
    var d := window - x;
    assert d * rate > 0.0;
    assert (x + d) * rate == x * rate + d * rate;
  }

  /**
    When a new client comes to a full table, the client least recently checked
    goes and nobody else does. That costs nothing exactly when its bucket is
    back at full capacity, as it is, whatever it held, exactly from a window
    after its last check on.
   */
  lemma EvictionIsFreeIff(lim: Limits, t: Slots, key: Key, was: real, now: real)
    requires Usable(lim) && TableOk(lim, t, was) && was <= now && key !in t.data && |t.keys| == MAX_CLIENTS
    ensures var gone, t' := t.keys[0], Check(lim, t, key, now).0;
            && gone !in t'.data && (forall k :: k in t.data && k != gone ==> k in t'.data)
            && var a := t.data[gone].account;
               && (Forgettable(lim, gone.kind, a, now)
                   <==> Refilled(a, Capacity(lim, gone.kind), Rate(lim, gone.kind), now) == Capacity(lim, gone.kind))
               && (now - a.updated >= lim.window ==> Forgettable(lim, gone.kind, a, now))
  {
    hide Check, Take, Touched, Refilled, Capacity, Rate, Forgettable;
    var gone := t.keys[0];
    assert SlotOk(lim, t, gone, was);
    CheckIsLru(lim, t, key, was, now);
    FirstGoes(t.keys, key);
    hide TableOk;
    ForgettableIff(lim, gone.kind, t.data[gone].account, now);
    if now - t.data[gone].account.updated >= lim.window {
      LongIdleIsFull(lim, t.data[gone].account, gone.kind, now);
    }
  }

  lemma FirstGoes(keys: seq<Key>, key: Key)
    requires |keys| == MAX_CLIENTS && key !in keys && forall i :: 0 < i < |keys| ==> keys[i] != keys[0]
    ensures keys[0] !in LruKeys(keys, key)
    ensures forall k :: k in keys && k != keys[0] ==> k in LruKeys(keys, key)
  {
    var kept := LruKeys(keys, key);
    assert kept == keys[1..] + [key];
  }
}
