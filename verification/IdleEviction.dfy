/**
  Eviction is not idle first: a run in which a client that is still short of
  tokens is forgotten while one that is back at full capacity stays.
 */
module IdleEviction {
  import opened OrderedDict
  import opened Bucket
  import opened RateLimitSpec
  import opened RateLimitRuns

  /** Two requests every ten seconds. */
  const TWO_IN_TEN: Limits := Limits(2, 2, 10.0)

  function Client(k: nat): Key {
    Key(seq(k, _ => 'x'), Write)
  }

  lemma ClientsDiffer(j: nat, k: nat)
    requires j != k
    ensures Client(j) != Client(k)
  {
    assert |Client(j).client| == j && |Client(k).client| == k;
  }

  function Clients(n: nat): (keys: seq<Key>)
    ensures |keys| == n && forall k :: 0 <= k < n ==> keys[k] == Client(k)
  {
    if n == 0 then [] else Clients(n - 1) + [Client(n - 1)]
  }

  /** Client 0 asks twice, then clients 1 to `n - 1` once each, all at time zero. */
  function Crowd(n: nat): (rs: seq<Req>)
    requires n >= 1
    ensures |rs| == n + 1 && forall i :: 0 <= i < |rs| ==> rs[i].time == 0.0
  {
    if n == 1 then [Req(Client(0), 0.0), Req(Client(0), 0.0)]
    else Crowd(n - 1) + [Req(Client(n - 1), 0.0)]
  }

  /** Client 0 has spent both its tokens, the others one each; they stand in order of arrival. */
  ghost predicate Crowded(t: Slots, n: nat) {
    && t.keys == Clients(n)
    && forall k {:trigger Client(k)} :: 0 <= k < n ==>
         Client(k) in t.data && t.data[Client(k)].account == Account(if k == 0 then 0.0 else 1.0, 0.0)
  }

  lemma Spending(tokens: real, now: real)
    requires 0.0 <= tokens <= 2.0
    ensures Capacity(TWO_IN_TEN, Write) == 2.0 && Rate(TWO_IN_TEN, Write) == 0.2
    ensures tokens >= 1.0 ==> Take(Account(tokens, now), 2.0, 0.2, now).0 == Account(tokens - 1.0, now)
  {
  }

  /** A check at the time of the bucket's last one spends a token and nothing else happens to the level. */
  lemma Spends(t: Slots, key: Key, was: real, now: real)
    requires TableOk(TWO_IN_TEN, t, was) && was <= now && key.kind == Write
    requires FindSlot(TWO_IN_TEN, t, key, now).account.updated == now
    requires 1.0 <= FindSlot(TWO_IN_TEN, t, key, now).account.tokens <= 2.0
    ensures var t', a := Check(TWO_IN_TEN, t, key, now).0, FindSlot(TWO_IN_TEN, t, key, now).account;
            && t'.keys == LruKeys(t.keys, key)
            && key in t'.data && t'.data[key].account == Account(a.tokens - 1.0, now)
            && (forall k :: k in t'.data && k != key ==> k in t.data && t'.data[k] == t.data[k])
  {
    hide Check, Take, Touched, TableOk, FindSlot, Without, Consistent, LruKeys, Capacity, Rate;
    Spending(FindSlot(TWO_IN_TEN, t, key, now).account.tokens, now);
    CheckIsLru(TWO_IN_TEN, t, key, was, now);
    TouchedShape(TWO_IN_TEN, t, key, now);
  }

  lemma SpentTwice()
    ensures Crowded(Bounded(TWO_IN_TEN, Crowd(1)), 1)
  {
    hide Check, TableOk, Client, Bounded, Consistent, Without;
    var key, first := Client(0), [Req(Client(0), 0.0)];
    assert key.kind == Write by {
      KindOf(0);
    }
    assert Crowd(1) == first + first && [] + first == first;
    BoundedOk(TWO_IN_TEN, []);
    BoundedAppend(TWO_IN_TEN, [], first[0]);
    BoundedAppend(TWO_IN_TEN, first, first[0]);
    EmptyOk(TWO_IN_TEN, 0.0);
    var t0: Slots := Empty();
    var t1 := Check(TWO_IN_TEN, t0, key, 0.0).0;
    assert Bounded(TWO_IN_TEN, first) == t1;
    Spends(t0, key, 0.0, 0.0);
    BoundedOk(TWO_IN_TEN, first);
    Spends(t1, key, 0.0, 0.0);
    assert Clients(1) == [key];
  }

  lemma KindOf(k: nat)
    ensures Client(k).kind == Write
  {
  }

  /** A client not seen before asks at `now`. */
  lemma NewcomerAsks(t: Slots, n: nat, was: real, now: real)
    requires Crowded(t, n) && TableOk(TWO_IN_TEN, t, was) && was <= now && 1 <= n <= MAX_CLIENTS
    ensures var t' := Check(TWO_IN_TEN, t, Client(n), now).0;
            && t'.keys == (if n == MAX_CLIENTS then Clients(n + 1)[1..] else Clients(n + 1))
            && Client(n) in t'.data && t'.data[Client(n)].account == Account(1.0, now)
            && (forall k {:trigger Client(k)} :: 0 <= k < n && Client(k) in t'.data ==>
                  t'.data[Client(k)] == t.data[Client(k)])
  {
    hide Check, TableOk, Client, Clients, Without;
    KindOf(n);
    NewcomerIsNew(t, n);
    Spends(t, Client(n), was, now);
    ClientsUnfold(n);
    forall k | 0 <= k < n ensures Client(k) != Client(n) {
      ClientsDiffer(k, n);
    }
  }

  lemma ClientsUnfold(n: nat)
    ensures Clients(n + 1) == Clients(n) + [Client(n)]
  {
  }

  lemma NewcomerIsNew(t: Slots, n: nat)
    requires t.keys == Clients(n)
    ensures Client(n) !in t.keys && Client(n) !in t.data
  {
    hide Client;
    forall k | 0 <= k < n ensures Client(k) != Client(n) {
      ClientsDiffer(k, n);
    }
  }

  lemma {:induction false} CrowdGathers(n: nat)
    requires 1 <= n <= MAX_CLIENTS
    ensures Crowded(Bounded(TWO_IN_TEN, Crowd(n)), n)
  {
    hide Check, TableOk, Client, Clients, Crowded, Bounded;
    if n == 1 {
      SpentTwice();
    } else {
      var before := Crowd(n - 1);
      CrowdGathers(n - 1);
      BoundedOk(TWO_IN_TEN, before);
      BoundedAppend(TWO_IN_TEN, before, Req(Client(n - 1), 0.0));
      CrowdGrows(Bounded(TWO_IN_TEN, before), n - 1);
    }
  }

  lemma CrowdGrows(t: Slots, n: nat)
    requires Crowded(t, n) && TableOk(TWO_IN_TEN, t, 0.0) && 1 <= n < MAX_CLIENTS
    ensures Crowded(Check(TWO_IN_TEN, t, Client(n), 0.0).0, n + 1)
  {
    hide Check, TableOk, Client, Clients;
    NewcomerAsks(t, n, 0.0, 0.0);
    var t' := Check(TWO_IN_TEN, t, Client(n), 0.0).0;
    forall k | 0 <= k < n + 1
      ensures Client(k) in t'.data && t'.data[Client(k)].account == Account(if k == 0 then 0.0 else 1.0, 0.0)
    {
      assert t'.keys[k] == Client(k);
    }
  }

  lemma FirstIsGone(t: Slots, n: nat)
    requires n >= 1 && t.keys == Clients(n + 1)[1..]
    ensures Client(0) !in t.data && Client(1) in t.data
  {
    hide Client;
    var keys := Clients(n + 1);
    assert t.keys[0] == Client(1);
    forall j | 0 <= j < |t.keys| ensures t.keys[j] != Client(0) {
      assert t.keys[j] == keys[j + 1];
      ClientsDiffer(0, j + 1);
    }
  }

  lemma RefilledAtFive(tokens: real)
    requires 0.0 <= tokens <= 1.0
    ensures Refilled(Account(tokens, 0.0), 2.0, 0.2, 5.0) == tokens + 1.0
  {
  }

  /** Everyone of the crowd, and one more at five seconds. */
  function OneMore(n: nat): seq<Req>
    requires n >= 1
  {
    Crowd(n) + [Req(Client(n), 5.0)]
  }

  /**
    The table is full and a new client comes at five seconds. Client 0 has one
    of its two tokens back, and is forgotten with the debt that remains. Client
    1 has both back, so that forgetting it would have cost nothing, and it stays.
   */
  lemma BusyClientGoesFirst(n: nat)
    requires n == MAX_CLIENTS
    ensures Usable(TWO_IN_TEN) && Chronological(OneMore(n))
    ensures var t, t' := Bounded(TWO_IN_TEN, Crowd(n)), Bounded(TWO_IN_TEN, OneMore(n));
            && Client(0) in t.data && Refilled(t.data[Client(0)].account, 2.0, 0.2, 5.0) == 1.0
            && Client(0) !in t'.data
            && Client(1) in t.data && Refilled(t.data[Client(1)].account, 2.0, 0.2, 5.0) == 2.0
            && Client(1) in t'.data
  {
    hide Check, TableOk, Take, Client, Clients, Refilled, Crowded, Bounded, Crowd;
    var t, t' := Bounded(TWO_IN_TEN, Crowd(n)), Bounded(TWO_IN_TEN, OneMore(n));
    CrowdGathers(n);
    BoundedOk(TWO_IN_TEN, Crowd(n));
    BoundedAppend(TWO_IN_TEN, Crowd(n), Req(Client(n), 5.0));
    NewcomerAsks(t, n, 0.0, 5.0);
    FirstIsGone(t', n);
    FirstTwo(t, n);
    RefilledAtFive(0.0);
    RefilledAtFive(1.0);
  }

  lemma FirstTwo(t: Slots, n: nat)
    requires Crowded(t, n) && n >= 2
    ensures Client(0) in t.data && t.data[Client(0)].account == Account(0.0, 0.0)
    ensures Client(1) in t.data && t.data[Client(1)].account == Account(1.0, 0.0)
  {
    hide Client, Clients;
  }
}
