/**
  The limiter as it is written: bucket objects updated in place, held in an
  ordered table that is reordered and trimmed in place.
 */
module RateLimiter {
  import opened Sequences
  import Arithmetic
  import opened OrderedDict
  import B = Bucket
  import opened RateLimitSpec

  class Bucket {
    var tokens: real
    var updated: real
    var suppressed: nat
    var loggedAt: real

    constructor (tokens: real, updated: real)
      ensures Value() == Slot(B.Account(tokens, updated), 0, 0.0)
    {
      this.tokens, this.updated, suppressed, loggedAt := tokens, updated, 0, 0.0;
    }

    ghost function Value(): Slot
      reads this
    {
      Slot(B.Account(tokens, updated), suppressed, loggedAt)
    }

    method Take(capacity: real, perSecond: real, now: real) returns (wait: real)
      requires perSecond > 0.0
      modifies this
      ensures (Value().account, wait) == B.Take(old(Value().account), capacity, perSecond, now)
      ensures suppressed == old(suppressed) && loggedAt == old(loggedAt)
    {
      ghost var before := Value().account;
      tokens := Arithmetic.Min(capacity, tokens + (now - updated) * perSecond);
      updated := now;
      assert tokens == B.Refilled(before, capacity, perSecond, now);
      if tokens >= 1.0 {
        tokens := tokens - 1.0;
        return 0.0;
      }
      wait := (1.0 - tokens) / perSecond;
    }
  }

  /** `table` always holds the values of the bucket objects. */
  class RateLimiter {
    const limits: Limits
    var buckets: Dict<Key, Bucket>
    ghost var table: Slots

    ghost function Objects(): set<object>
      reads this
    {
      set k | k in buckets.data :: buckets.data[k]
    }

    /** No two keys share a bucket. */
    ghost predicate Unshared()
      reads this
    {
      forall j, k :: j in buckets.data && k in buckets.data && buckets.data[j] == buckets.data[k] ==> j == k
    }

    ghost predicate Valid()
      reads this, Objects()
    {
      && Usable(limits)
      && Unshared()
      && table.keys == buckets.keys
      && (forall k :: k in table.data <==> k in buckets.data)
      && (forall k :: k in buckets.data ==> table.data[k] == buckets.data[k].Value())
    }

    constructor (limits: Limits)
      requires Usable(limits)
      ensures Valid() && this.limits == limits && table == Empty()
    {
      this.limits := limits;
      buckets := Empty();
      table := Empty();
    }

    method Check(client: string, kind: Kind, now: real) returns (wait: real)
      requires Valid()
      modifies this, Objects()
      ensures Valid() && fresh(Objects() - old(Objects()))
      ensures (table, wait) == RateLimitSpec.Check(limits, old(table), Key(client, kind), now)
    {
      hide Evict, B.Take, Without;
      var key := Key(client, kind);
      FindOrCreate(key, now);
      wait := Spend(key, now);
      EvictIfNeeded();
    }

    /** The bucket of `key`, created full if need be, at the end of the table. */
    method FindOrCreate(key: Key, now: real)
      requires Valid()
      modifies this
      ensures Valid() && fresh(Objects() - old(Objects()))
      ensures key in table.data
      ensures table == Touch(old(table), key, FindSlot(limits, old(table), key, now))
    {
      hide Without, Consistent, Touch, Capacity;
      table := Touch(table, key, FindSlot(limits, table, key, now));
      var bucket: Bucket;
      if key in buckets.data {
        bucket := buckets.data[key];
      } else {
        bucket := new Bucket(Capacity(limits, key.kind), now);
      }
      buckets := Touch(buckets, key, bucket);
    }

    method Spend(key: Key, now: real) returns (wait: real)
      requires Valid() && key in table.data
      modifies `table, buckets.data[key]
      ensures Valid() && Objects() == old(Objects())
      ensures var slot := old(table).data[key];
              var (account, w) := B.Take(slot.account, Capacity(limits, key.kind), Rate(limits, key.kind), now);
              wait == w && table == Put(old(table), key, slot.(account := account))
    {
      hide B.Take, Without, Consistent;
      wait := buckets.data[key].Take(Capacity(limits, key.kind), Rate(limits, key.kind), now);
      table := Put(table, key, buckets.data[key].Value());
    }

    method EvictIfNeeded()
      requires Valid()
      modifies this
      ensures Valid() && Objects() <= old(Objects())
      ensures table == Evict(limits, old(table))
    {
      hide IdlePass, PopPass, Unshared;
      if |buckets.keys| <= MAX_CLIENTS {
        return;
      }
      var done := DropIdle();
      if !done {
        DropOldest();
      } else {
        PopPassIdle(table);
      }
    }

    /** `del self._buckets[key]`. */
    method Forget(key: Key)
      requires Valid()
      modifies this
      ensures Valid() && Objects() <= old(Objects())
      ensures table == Drop(old(table), key)
    {
      hide Without, Consistent;
      buckets := Drop(buckets, key);
      table := Drop(table, key);
    }

    /** The idle-first pass; true when it made enough room. */
    method DropIdle() returns (done: bool)
      requires Valid() && |table.keys| > MAX_CLIENTS
      modifies this
      ensures Valid() && Objects() <= old(Objects())
      ensures table == IdlePass(limits, old(table), old(table).keys)
      ensures done ==> |table.keys| <= MAX_CLIENTS
    {
      hide Without, Unshared, Consistent;
      var ks := buckets.keys;
      TableStored(table);
      while ks != []
        invariant Valid() && Objects() <= old(Objects())
        invariant |table.keys| > MAX_CLIENTS
        invariant AllStored(ks, table)
        invariant IdlePass(limits, table, ks) == IdlePass(limits, old(table), old(table).keys)
        decreases |ks|
      {
        if buckets.data[ks[0]].tokens >= Capacity(limits, ks[0].kind) {
          Forget(ks[0]);
        }
        if |buckets.keys| <= MAX_CLIENTS {
          return true;
        }
        ks := ks[1..];
      }
      done := false;
    }

    method DropOldest()
      requires Valid()
      modifies this
      ensures Valid() && Objects() <= old(Objects())
      ensures table == PopPass(old(table))
    {
      hide Consistent;
      while |buckets.keys| > MAX_CLIENTS
        invariant Valid() && Objects() <= old(Objects())
        invariant PopPass(table) == PopPass(old(table))
      {
        buckets := PopFirst(buckets);
        table := PopFirst(table);
      }
    }

    method ShouldLog(client: string, kind: Kind, now: real) returns (lines: Option<nat>)
      requires Valid()
      modifies `table, Objects()
      ensures Valid() && Objects() == old(Objects())
      ensures (table, lines) == RateLimitSpec.ShouldLog(old(table), Key(client, kind), now)
    {
      hide Without, Consistent;
      var key := Key(client, kind);
      if key !in buckets.data {
        return None;
      }
      var bucket := buckets.data[key];
      bucket.suppressed := bucket.suppressed + 1;
      if now - bucket.loggedAt < LOG_EVERY_SECONDS {
        table := Put(table, key, bucket.Value());
        return None;
      }
      bucket.loggedAt := now;
      lines := Some(bucket.suppressed);
      bucket.suppressed := 0;
      table := Put(table, key, bucket.Value());
    }
  }
}
