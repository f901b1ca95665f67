/**
  The window is the best constant: for any shorter span there is a run in which
  the bound on the table shows, though no such span is crowded.
 */
module BestWindow {
  import opened Arithmetic
  import opened OrderedDict
  import opened Bucket
  import opened RateLimitSpec
  import opened RateLimitRuns
  import opened IdleEviction

  lemma UnboundedAppend(lim: Limits, rs: seq<Req>, r: Req)
    requires Usable(lim)
    ensures Unbounded(lim, rs + [r]) == Charge(lim, Unbounded(lim, rs), r)
  {
    hide Charge;
    assert (rs + [r])[..|rs|] == rs;
  }

  lemma BothWaits(lim: Limits, rs: seq<Req>, r: Req)
    requires Usable(lim)
    ensures var n, c, rate := |rs|, Capacity(lim, r.key.kind), Rate(lim, r.key.kind);
            && BoundedWait(lim, rs + [r], n) == Check(lim, Bounded(lim, rs), r.key, r.time).1
            && UnboundedWait(lim, rs + [r], n)
               == Take(FindAccount(lim, Unbounded(lim, rs), r.key, r.time), c, rate, r.time).1
  {
    hide Check, Take, FindAccount, Bounded, Unbounded;
    assert (rs + [r])[..|rs|] == rs;
  }

  // ---- one request --------------------------------------------------------

  /** A request that finds a token spends it. */
  lemma AskFinds(lim: Limits, t: Slots, key: Key, was: real, now: real, level: real)
    requires Usable(lim) && TableOk(lim, t, was) && was <= now && level >= 1.0
    requires Refilled(FindSlot(lim, t, key, now).account, Capacity(lim, key.kind), Rate(lim, key.kind), now) == level
    ensures var (t', wait) := Check(lim, t, key, now);
            && wait == 0.0 && TableOk(lim, t', now) && t'.keys == LruKeys(t.keys, key)
            && key in t'.data && t'.data[key].account == Account(level - 1.0, now)
            && (forall k :: k in t'.data && k != key ==> k in t.data && t'.data[k] == t.data[k])
  {
    hide Check, Take, Touched, TableOk, FindSlot, Without, Consistent, LruKeys, Capacity, Rate, Refilled;
    CheckIsLru(lim, t, key, was, now);
    TouchedShape(lim, t, key, now);
    SpendsOne(FindSlot(lim, t, key, now).account, Capacity(lim, key.kind), Rate(lim, key.kind), now);
    WaitOfCheck(lim, t, key, now);
  }

  lemma SpendsOne(a: Account, capacity: real, rate: real, now: real)
    requires rate > 0.0 && Refilled(a, capacity, rate, now) >= 1.0
    ensures Take(a, capacity, rate, now) == (Account(Refilled(a, capacity, rate, now) - 1.0, now), 0.0)
  {
    hide Refilled;
  }

  lemma SameMoment(tokens: real, capacity: real, rate: real, now: real)
    requires tokens <= capacity
    ensures Refilled(Account(tokens, now), capacity, rate, now) == tokens
  {
    RefillFrom(tokens, now, capacity, rate, now);
    hide Refilled;
    assert rate * (now - now) == 0.0;
  }

  // ---- the run ------------------------------------------------------------

  /** Client 0 asks `c` times at time zero, then clients 1 to `n - 1` once each. */
  function Gather(c: nat, n: nat): (rs: seq<Req>)
    requires n >= 1
    ensures |rs| == c + n - 1
    ensures forall i :: 0 <= i < |rs| ==> rs[i].time == 0.0
    ensures forall i :: 0 <= i < |rs| ==> exists k :: 0 <= k < n && rs[i].key == Client(k)
    decreases n, c
  {
    if n > 1 then Gather(c, n - 1) + [Req(Client(n - 1), 0.0)]
    else if c == 0 then []
    else
      assert 0 < n;
      Gather(c - 1, 1) + [Req(Client(0), 0.0)]
  }

  /** Then client `n` comes at time `d`, and client 0 asks `k` times more. */
  function Comeback(c: nat, n: nat, d: real, k: nat): (rs: seq<Req>)
    requires n >= 1
    ensures |rs| == c + n + k
    ensures forall i :: 0 <= i < |rs| ==> rs[i].time == if i < c + n - 1 then 0.0 else d
    ensures forall i :: 0 <= i < c + n - 1 ==> exists k :: 0 <= k < n && rs[i].key == Client(k)
    ensures forall i :: c + n - 1 <= i < |rs| ==> rs[i].key == Client(n) || rs[i].key == Client(0)
    decreases k
  {
    if k == 0 then Gather(c, n) + [Req(Client(n), d)]
    else Comeback(c, n, d, k - 1) + [Req(Client(0), d)]
  }

  /** Both tables agree on client 0, which has `tokens` left since `x`. */
  ghost predicate BothHold(b: Slots, u: Accounts, tokens: real, x: real) {
    && Client(0) in b.data && b.data[Client(0)].account == Account(tokens, x)
    && Client(0) in u && u[Client(0)] == Account(tokens, x)
  }

  lemma UnboundedAsk(lim: Limits, u: Accounts, key: Key, now: real, level: real)
    requires Usable(lim) && level >= 1.0
    requires Refilled(FindAccount(lim, u, key, now), Capacity(lim, key.kind), Rate(lim, key.kind), now) == level
    ensures Charge(lim, u, Req(key, now)) == u[key := Account(level - 1.0, now)]
  {
    hide Refilled, Capacity, Rate, Take, FindAccount;
    SpendsOne(FindAccount(lim, u, key, now), Capacity(lim, key.kind), Rate(lim, key.kind), now);
  }

  // ---- what the two tables hold along it ----------------------------------

  lemma GatherUnfolds(c: nat, n: nat)
    requires n >= 1
    ensures Gather(c, n)
         == if n > 1 then Gather(c, n - 1) + [Req(Client(n - 1), 0.0)]
            else if c == 0 then []
            else Gather(c - 1, 1) + [Req(Client(0), 0.0)]
  {
  }

  lemma NothingYet(lim: Limits)
    requires Usable(lim)
    ensures Bounded(lim, []) == Empty() && Unbounded(lim, []) == map[]
  {
  }

  /** Client 0 has spent `k` of its tokens. */
  lemma {:induction false} SpentSoFar(lim: Limits, k: nat)
    requires Usable(lim) && k <= lim.maxWrites
    ensures var b, u := Bounded(lim, Gather(k, 1)), Unbounded(lim, Gather(k, 1));
            && TableOk(lim, b, 0.0)
            && (k == 0 ==> b == Empty() && u == map[])
            && (k > 0 ==> b.keys == [Client(0)] && BothHold(b, u, (lim.maxWrites - k) as real, 0.0))
    decreases k
  {
    hide Check, TableOk, Client, Charge, BothHold, Refilled, Rate, Bounded, Unbounded, Gather;
    GatherUnfolds(k, 1);
    NothingYet(lim);
    EmptyOk(lim, 0.0);
    if k > 0 {
      SpentSoFar(lim, k - 1);
      var rs, r := Gather(k - 1, 1), Req(Client(0), 0.0);
      BoundedAppend(lim, rs, r);
      UnboundedAppend(lim, rs, r);
      SpendingStep(lim, Bounded(lim, rs), Unbounded(lim, rs), k - 1);
    }
  }

  lemma OnlyOne(key: Key)
    ensures LruKeys([], key) == [key] && LruKeys([key], key) == [key]
  {
  }

  lemma SpendingStep(lim: Limits, b: Slots, u: Accounts, k: nat)
    requires Usable(lim) && k < lim.maxWrites && TableOk(lim, b, 0.0)
    requires k == 0 ==> b == Empty() && u == map[]
    requires k > 0 ==> b.keys == [Client(0)] && BothHold(b, u, (lim.maxWrites - k) as real, 0.0)
    ensures var b', u' := Check(lim, b, Client(0), 0.0).0, Charge(lim, u, Req(Client(0), 0.0));
            TableOk(lim, b', 0.0) && b'.keys == [Client(0)] && BothHold(b', u', (lim.maxWrites - k - 1) as real, 0.0)
  {
    hide Check, TableOk, Client, Charge, Refilled, Rate, Without, Consistent, LruKeys;
    KindOf(0);
    OnlyOne(Client(0));
    var level := (lim.maxWrites - k) as real;
    SameMoment(level, Capacity(lim, Write), Rate(lim, Write), 0.0);
    AskFinds(lim, b, Client(0), 0.0, 0.0, level);
    UnboundedAsk(lim, u, Client(0), 0.0, level);
  }

  /** Client 0 has spent them all, and the others stand behind it in order of arrival. */
  lemma {:induction false} Gathered(lim: Limits, n: nat)
    requires Usable(lim) && 1 <= n <= MAX_CLIENTS
    ensures var rs := Gather(lim.maxWrites, n);
            && TableOk(lim, Bounded(lim, rs), 0.0) && Bounded(lim, rs).keys == Clients(n)
            && BothHold(Bounded(lim, rs), Unbounded(lim, rs), 0.0, 0.0)
  {
    hide Check, TableOk, Client, Charge, BothHold, Bounded, Unbounded, Gather;
    GatherUnfolds(lim.maxWrites, n);
    if n == 1 {
      SpentSoFar(lim, lim.maxWrites);
      assert Clients(1) == [Client(0)];
    } else {
      hide Clients;
      Gathered(lim, n - 1);
      var rs, r := Gather(lim.maxWrites, n - 1), Req(Client(n - 1), 0.0);
      BoundedAppend(lim, rs, r);
      UnboundedAppend(lim, rs, r);
      ClientsUnfold(n - 1);
      NewcomerStep(lim, Bounded(lim, rs), Unbounded(lim, rs), n - 1, 0.0);
    }
  }

  /** A client not seen before: it stands last, and client 0's bucket stays as it was if it is kept. */
  lemma NewcomerStep(lim: Limits, b: Slots, u: Accounts, n: nat, now: real)
    requires Usable(lim) && 1 <= n <= MAX_CLIENTS && now >= 0.0
    requires TableOk(lim, b, 0.0) && b.keys == Clients(n) && BothHold(b, u, 0.0, 0.0)
    ensures var b', u' := Check(lim, b, Client(n), now).0, Charge(lim, u, Req(Client(n), now));
            && TableOk(lim, b', now)
            && b'.keys == (if n == MAX_CLIENTS then Clients(n + 1)[1..] else Clients(n + 1))
            && Client(0) in u' && u'[Client(0)] == Account(0.0, 0.0)
            && (n < MAX_CLIENTS ==> BothHold(b', u', 0.0, 0.0))
  {
    hide Check, TableOk, Client, Clients, Without, Refilled, Take, Rate;
    KindOf(n);
    NewcomerIsNew(b, n);
    ClientsUnfold(n);
    ClientsDiffer(0, n);
    AtLeastOne(lim, Write);
    FreshIsFull(Capacity(lim, Write), Rate(lim, Write), now);
    hide Capacity;
    AskFinds(lim, b, Client(n), 0.0, now, Capacity(lim, Write));
    if n < MAX_CLIENTS {
      assert Check(lim, b, Client(n), now).0.keys[0] == Client(0);
    }
  }

  /** What client 0 is short of a full bucket by time `d`. */
  function LevelAt(lim: Limits, d: real): real
    requires Usable(lim)
  {
    Refilled(Account(0.0, 0.0), Capacity(lim, Write), Rate(lim, Write), d)
  }

  /** Back again, client 0 finds a new bucket in the one table and its old one in the other. */
  lemma {:induction false} ComesBack(lim: Limits, n: nat, d: real, k: nat)
    requires Usable(lim) && n == MAX_CLIENTS && d >= 0.0 && k as real <= LevelAt(lim, d) <= Capacity(lim, Write)
    ensures var rs := Comeback(lim.maxWrites, n, d, k);
            FoundBy(lim, Bounded(lim, rs), Unbounded(lim, rs), d, k)
    decreases k
  {
    hide Check, TableOk, Client, Clients, Charge, BothHold, Refilled, Rate, LevelAt, FoundBy, Capacity,
         Gather, Comeback, Bounded, Unbounded;
    ComebackUnfolds(lim.maxWrites, n, d, k);
    if k == 0 {
      Gathered(lim, n);
      var rs, r := Gather(lim.maxWrites, n), Req(Client(n), d);
      BoundedAppend(lim, rs, r);
      UnboundedAppend(lim, rs, r);
      NewcomerStep(lim, Bounded(lim, rs), Unbounded(lim, rs), n, d);
      FirstIsGone(Bounded(lim, rs + [r]), n);
      FoundAtFirst(lim, Bounded(lim, rs + [r]), Unbounded(lim, rs + [r]), d);
    } else {
      ComesBack(lim, n, d, k - 1);
      var rs, r := Comeback(lim.maxWrites, n, d, k - 1), Req(Client(0), d);
      BoundedAppend(lim, rs, r);
      UnboundedAppend(lim, rs, r);
      FoundThen(lim, Bounded(lim, rs), Unbounded(lim, rs), d, k - 1);
    }
  }

  lemma ComebackUnfolds(c: nat, n: nat, d: real, k: nat)
    requires n >= 1
    ensures Comeback(c, n, d, k)
         == if k == 0 then Gather(c, n) + [Req(Client(n), d)] else Comeback(c, n, d, k - 1) + [Req(Client(0), d)]
  {
  }

  /** What client 0 finds at `d` after `k` requests there: all but `k` tokens here, its old level less `k` there. */
  ghost predicate FoundBy(lim: Limits, b: Slots, u: Accounts, d: real, k: nat)
    requires Usable(lim)
  {
    var c, rate := Capacity(lim, Write), Rate(lim, Write);
    && TableOk(lim, b, d)
    && Refilled(FindSlot(lim, b, Client(0), d).account, c, rate, d) == c - k as real
    && Refilled(FindAccount(lim, u, Client(0), d), c, rate, d) == LevelAt(lim, d) - k as real
  }

  lemma FoundAtFirst(lim: Limits, b: Slots, u: Accounts, d: real)
    requires Usable(lim) && TableOk(lim, b, d) && Client(0) !in b.data
    requires Client(0) in u && u[Client(0)] == Account(0.0, 0.0)
    ensures FoundBy(lim, b, u, d, 0)
  {
    hide TableOk, Client, Refilled, Capacity, Rate;
    KindOf(0);
    FreshIsFull(Capacity(lim, Write), Rate(lim, Write), d);
  }

  lemma FoundThen(lim: Limits, b: Slots, u: Accounts, d: real, k: nat)
    requires Usable(lim) && FoundBy(lim, b, u, d, k)
    requires (k + 1) as real <= LevelAt(lim, d) <= Capacity(lim, Write)
    ensures FoundBy(lim, Check(lim, b, Client(0), d).0, Charge(lim, u, Req(Client(0), d)), d, k + 1)
  {
    hide TableOk, Client, Refilled, Capacity, Rate, Check, Charge, LevelAt, Without;
    KindOf(0);
    var c, level := Capacity(lim, Write), LevelAt(lim, d);
    AskFinds(lim, b, Client(0), d, d, c - k as real);
    UnboundedAsk(lim, u, Client(0), d, level - k as real);
    SameMoment(c - k as real - 1.0, c, Rate(lim, Write), d);
    SameMoment(level - k as real - 1.0, c, Rate(lim, Write), d);
  }

  // ---- the theorem --------------------------------------------------------

  lemma ShortOfFull(lim: Limits, d: real)
    requires Usable(lim) && 0.0 <= d < lim.window
    ensures 0.0 <= LevelAt(lim, d) < Capacity(lim, Write)
  {
    hide Capacity, Rate;
    var r, x := Rate(lim, Write), lim.window - d;
    AtLeastOne(lim, Write);
    RateFillsInAWindow(lim, Write);
    ProductSign(d, r);
    assert x * r > 0.0;
    assert (d + x) * r == d * r + x * r;
    assert (d - 0.0) * r == d * r;
  }

  ghost function FirstClients(n: nat): (keys: set<Key>)
    ensures |keys| <= n && forall k :: 0 <= k < n ==> Client(k) in keys
  {
    if n == 0 then {} else FirstClients(n - 1) + {Client(n - 1)}
  }

  /** A span shorter than `d` sees time zero or time `d`, and never both. */
  lemma ComebackUncrowded(c: nat, n: nat, d: real, k: nat, span: real)
    requires 2 <= n && n == MAX_CLIENTS && span <= d
    ensures UncrowdedWithin(Comeback(c, n, d, k), span)
  {
    hide Client;
    var rs := Comeback(c, n, d, k);
    hide Comeback;
    forall lo, hi | hi - lo < span ensures |KeysIn(rs, lo, hi)| <= MAX_CLIENTS {
      var keys := KeysIn(rs, lo, hi);
      if lo <= 0.0 <= hi {
        assert keys <= FirstClients(n);
        SubsetSize(keys, FirstClients(n));
      } else {
        assert keys <= {Client(0), Client(n)};
        SubsetSize(keys, {Client(0), Client(n)});
      }
    }
  }

  /** For a span shorter than the window there is an uncrowded run on which the bound shows. */
  lemma BoundShows(lim: Limits, d: real, n: nat) returns (rs: seq<Req>, i: nat)
    requires Usable(lim) && 0.0 < d < lim.window && n == MAX_CLIENTS
    ensures Chronological(rs) && UncrowdedWithin(rs, d) && i < |rs|
    ensures BoundedWait(lim, rs, i) == 0.0 && UnboundedWait(lim, rs, i) > 0.0
  {
    hide Check, TableOk, Client, Charge, Bounded, Unbounded, BoundedWait, UnboundedWait, LevelAt, Capacity, Rate,
         FoundBy, Comeback, Uncrowded, UncrowdedWithin;
    var level := LevelAt(lim, d);
    ShortOfFull(lim, d);
    var m := level.Floor;
    ComesBack(lim, n, d, m);
    var before, r := Comeback(lim.maxWrites, n, d, m), Req(Client(0), d);
    ComebackUnfolds(lim.maxWrites, n, d, m + 1);
    ComebackUncrowded(lim.maxWrites, n, d, m + 1, d);
    rs, i := before + [r], |before|;
    KindOf(0);
    BothWaits(lim, before, r);
    WaitsDiffer(lim, Bounded(lim, before), Unbounded(lim, before), d, m);
  }

  /** With a token in one table and less than one in the other, the answers differ. */
  lemma WaitsDiffer(lim: Limits, b: Slots, u: Accounts, d: real, k: nat)
    requires Usable(lim) && FoundBy(lim, b, u, d, k)
    requires k as real <= LevelAt(lim, d) < (k + 1) as real && LevelAt(lim, d) < Capacity(lim, Write)
    ensures Check(lim, b, Client(0), d).1 == 0.0
    ensures Take(FindAccount(lim, u, Client(0), d), Capacity(lim, Write), Rate(lim, Write), d).1 > 0.0
  {
    hide TableOk, Client, Refilled, Rate, Check, LevelAt;
    KindOf(0);
    var c, a := Capacity(lim, Write), FindAccount(lim, u, Client(0), d);
    WholeTokens(lim.maxWrites, k, LevelAt(lim, d));
    AskFinds(lim, b, Client(0), d, d, c - k as real);
    QuotientSign(1.0 - Refilled(a, c, Rate(lim, Write), d), Rate(lim, Write));
  }

  lemma WholeTokens(c: nat, k: nat, level: real)
    requires k as real <= level < c as real
    ensures c as real - k as real >= 1.0
  {
    var d := c - k;
    assert c as real == d as real + k as real;
    WholeNumber(d);
  }

  lemma WholeNumber(d: int)
    ensures d as real <= 0.0 || d as real >= 1.0
  {
  }

  /**
    The window is the best constant. That every wait is that of a table without
    bound, in every run in which no span shorter than `d` sees more than
    MAX_CLIENTS keys, holds exactly for the spans `d` of at least a window.
   */
  lemma WindowIsBest(lim: Limits, d: real)
    requires Usable(lim)
    ensures (forall rs: seq<Req>, i: nat {:trigger BoundedWait(lim, rs, i)} ::
               Chronological(rs) && UncrowdedWithin(rs, d) && i < |rs| ==>
                 BoundedWait(lim, rs, i) == UnboundedWait(lim, rs, i))
       <==> d >= lim.window
  {
    hide BoundedWait, UnboundedWait, UncrowdedWithin, Chronological;
    if d >= lim.window {
      forall rs: seq<Req>, i: nat {:trigger BoundedWait(lim, rs, i)}
        | Chronological(rs) && UncrowdedWithin(rs, d) && i < |rs|
        ensures BoundedWait(lim, rs, i) == UnboundedWait(lim, rs, i)
      {
        ShorterSpans(rs, lim.window, d);
        BoundIsInvisible(lim, rs, i);
      }
    } else {
      var span := if d > 0.0 then d else lim.window / 2.0;
      var rs, i := BoundShows(lim, span, MAX_CLIENTS);
      ShorterSpans(rs, d, span);
      assert BoundedWait(lim, rs, i) != UnboundedWait(lim, rs, i);
    }
  }

  lemma ShorterSpans(rs: seq<Req>, span: real, d: real)
    requires UncrowdedWithin(rs, d) && span <= d
    ensures UncrowdedWithin(rs, span)
  {
  }
}
