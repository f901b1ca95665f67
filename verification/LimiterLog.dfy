/**
  The limiter's own log lines, in runs that mix checks and calls of
  `should_log` in any order.
 */
module LimiterLog {
  import opened Sequences
  import opened OrderedDict
  import opened Bucket
  import opened RateLimitSpec
  import opened RateLimitRuns

  datatype Call = Ask(key: Key, time: real) | Log(key: Key, time: real)

  function After(lim: Limits, t: Slots, c: Call): Slots
    requires Usable(lim)
  {
    match c
    case Ask(key, now) => Check(lim, t, key, now).0
    case Log(key, now) => ShouldLog(t, key, now).0
  }

  /** The table after the calls `cs`. */
  function Table(lim: Limits, cs: seq<Call>): Slots
    requires Usable(lim)
  {
    if cs == [] then Empty() else After(lim, Table(lim, cs[..|cs| - 1]), cs[|cs| - 1])
  }

  /** The checks among the calls. */
  function Asked(cs: seq<Call>): seq<Req> {
    if cs == [] then []
    else
      var n := |cs| - 1;
      Asked(cs[..n]) + if cs[n].Ask? then [Req(cs[n].key, cs[n].time)] else []
  }

  // ---- logging touches no token -------------------------------------------

  /** The same clients in the same order, each with the same bucket; the bookkeeping of log lines may differ. */
  ghost predicate SameAccounts(t: Slots, u: Slots) {
    && t.keys == u.keys
    && forall k :: k in t.data ==> k in u.data && t.data[k].account == u.data[k].account
  }

  lemma LogKeepsAccounts(t: Slots, key: Key, now: real)
    ensures SameAccounts(ShouldLog(t, key, now).0, t)
  {
    hide Consistent;
  }

  lemma SameAccountsOk(lim: Limits, t: Slots, u: Slots, now: real)
    requires SameAccounts(t, u) && TableOk(lim, u, now)
    ensures TableOk(lim, t, now)
  {
    forall k | k in t.data ensures SlotOk(lim, t, k, now) {
      assert SlotOk(lim, u, k, now);
    }
    forall i, j | 0 <= i < j < |t.keys|
      ensures t.data[t.keys[i]].account.updated <= t.data[t.keys[j]].account.updated
    {
      assert u.data[u.keys[i]].account.updated <= u.data[u.keys[j]].account.updated;
    }
  }

  /** `should_log` leaves every account, the order and the bound of the table as they were. */
  lemma LogKeepsTable(lim: Limits, t: Slots, key: Key, now: real, seen: real)
    requires TableOk(lim, t, seen)
    ensures SameAccounts(ShouldLog(t, key, now).0, t) && TableOk(lim, ShouldLog(t, key, now).0, seen)
  {
    hide ShouldLog, TableOk, SameAccounts;
    LogKeepsAccounts(t, key, now);
    SameAccountsOk(lim, ShouldLog(t, key, now).0, t, seen);
  }

  lemma SameFound(lim: Limits, t: Slots, u: Slots, key: Key, now: real)
    requires SameAccounts(t, u)
    ensures FindSlot(lim, t, key, now).account == FindSlot(lim, u, key, now).account
  {
    assert key in t.data <==> key in t.keys;
    assert key in u.data <==> key in u.keys;
  }

  /** A check answers from the accounts alone. */
  lemma CheckIgnoresBookkeeping(lim: Limits, t: Slots, u: Slots, key: Key, was: real, now: real)
    requires Usable(lim) && SameAccounts(t, u) && TableOk(lim, u, was) && was <= now
    ensures SameAccounts(Check(lim, t, key, now).0, Check(lim, u, key, now).0)
    ensures Check(lim, t, key, now).1 == Check(lim, u, key, now).1
  {
    hide Check, Take, Touched, TableOk, FindSlot, Without, LruKeys, Capacity, Rate;
    SameAccountsOk(lim, t, u, was);
    SameFound(lim, t, u, key, now);
    CheckIsLru(lim, t, key, was, now);
    CheckIsLru(lim, u, key, was, now);
    TouchedShape(lim, t, key, now);
    TouchedShape(lim, u, key, now);
    assert t.keys == u.keys;
    WaitOfCheck(lim, t, key, now);
    WaitOfCheck(lim, u, key, now);
    var t', u' := Check(lim, t, key, now).0, Check(lim, u, key, now).0;
    KeysAreData(t');
    KeysAreData(u');
    hide SameAccounts, Consistent;
    forall k | k in t'.data ensures k in u'.data && t'.data[k].account == u'.data[k].account {
      if k != key {
        AccountOf(t, u, k);
      }
    }
    SameByKeys(t', u');
  }

  lemma KeysAreData(t: Slots)
    ensures forall k :: k in t.data <==> k in t.keys
  {
  }

  lemma AccountOf(t: Slots, u: Slots, k: Key)
    requires SameAccounts(t, u) && k in t.data
    ensures k in u.data && t.data[k].account == u.data[k].account
  {
  }

  lemma SameByKeys(t: Slots, u: Slots)
    requires t.keys == u.keys
    requires forall k :: k in t.data ==> k in u.data && t.data[k].account == u.data[k].account
    ensures SameAccounts(t, u)
  {
  }

  lemma AskedPrefix(cs: seq<Call>)
    requires cs != [] && Chronological(Asked(cs))
    ensures Chronological(Asked(cs[..|cs| - 1]))
  {
    var before := Asked(cs[..|cs| - 1]);
    assert forall i :: 0 <= i < |before| ==> before[i] == Asked(cs)[i];
  }

  /**
    A mixed run is, but for the bookkeeping of the lines, the run of its checks
    alone: what is proved of runs of checks, waits, order and eviction, holds
    however many lines are written in between.
   */
  lemma {:induction false} LoggingChangesNothing(lim: Limits, cs: seq<Call>)
    requires Usable(lim) && Chronological(Asked(cs))
    ensures SameAccounts(Table(lim, cs), Bounded(lim, Asked(cs)))
  {
    hide Check, ShouldLog, SameAccounts, Bounded;
    if cs == [] {
      NothingLogged(lim);
    } else {
      var n := |cs| - 1;
      AskedPrefix(cs);
      LoggingChangesNothing(lim, cs[..n]);
      var t, rs := Table(lim, cs[..n]), Asked(cs[..n]);
      if cs[n].Log? {
        assert Asked(cs) == rs + [] == rs;
        LogKeepsAccounts(t, cs[n].key, cs[n].time);
        SameAccountsTransitive(ShouldLog(t, cs[n].key, cs[n].time).0, t, Bounded(lim, rs));
      } else {
        var r := Req(cs[n].key, cs[n].time);
        BoundedAppend(lim, rs, r);
        BoundedOk(lim, rs);
        EmptyOk(lim, r.time);
        LastBefore(rs, r);
        CheckIgnoresBookkeeping(lim, t, Bounded(lim, rs), r.key, if rs == [] then r.time else LastTime(rs), r.time);
      }
    }
  }

  lemma LastBefore(rs: seq<Req>, r: Req)
    requires Chronological(rs + [r])
    ensures rs != [] ==> LastTime(rs) <= r.time
  {
    if rs != [] {
      assert (rs + [r])[|rs| - 1].time <= (rs + [r])[|rs|].time;
    }
  }

  lemma NothingLogged(lim: Limits)
    requires Usable(lim)
    ensures SameAccounts(Table(lim, []), Bounded(lim, []))
  {
  }

  lemma SameAccountsTransitive(t: Slots, u: Slots, v: Slots)
    requires SameAccounts(t, u) && SameAccounts(u, v)
    ensures SameAccounts(t, v)
  {
  }

  /** So the check that ends a mixed run is answered as in the run of checks. */
  lemma SameWait(lim: Limits, cs: seq<Call>, key: Key, now: real)
    requires Usable(lim) && Chronological(Asked(cs) + [Req(key, now)])
    ensures Check(lim, Table(lim, cs), key, now).1
         == BoundedWait(lim, Asked(cs) + [Req(key, now)], |Asked(cs)|)
  {
    hide Check, SameAccounts, Bounded;
    var rs, r := Asked(cs), Req(key, now);
    assert Chronological(rs) by {
      assert forall i :: 0 <= i < |rs| ==> rs[i] == (rs + [r])[i];
    }
    LoggingChangesNothing(lim, cs);
    BoundedOk(lim, rs);
    EmptyOk(lim, now);
    LastBefore(rs, r);
    CheckIgnoresBookkeeping(lim, Table(lim, cs), Bounded(lim, rs), key, if rs == [] then now else LastTime(rs), now);
    assert (rs + [r])[..|rs|] == rs;
  }

  // ---- the lines ----------------------------------------------------------

  /** What call `n` reports about the key: a number of refusals, or nothing. */
  function Line(lim: Limits, cs: seq<Call>, key: Key, n: nat): Option<nat>
    requires Usable(lim) && n < |cs|
  {
    if cs[n] == Log(key, cs[n].time) then ShouldLog(Table(lim, cs[..n]), key, cs[n].time).1 else None
  }

  /** The refusals of the key that calls `a` to `n - 1` were told of. */
  function Told(cs: seq<Call>, key: Key, a: nat, n: nat): nat
    requires n <= |cs|
    decreases n
  {
    if n <= a then 0
    else Told(cs, key, a, n - 1) + if cs[n - 1].Log? && cs[n - 1].key == key then 1 else 0
  }

  /** The refusals that their lines stand for. */
  function Reported(lim: Limits, cs: seq<Call>, key: Key, a: nat, n: nat): nat
    requires Usable(lim) && n <= |cs|
    decreases n
  {
    if n <= a then 0
    else
      Reported(lim, cs, key, a, n - 1) +
      match Line(lim, cs, key, n - 1) case Some(count) => count case None => 0
  }

  /** The key stays in the table from call `a` to call `n`. */
  ghost predicate StaysIn(lim: Limits, cs: seq<Call>, key: Key, a: nat, n: nat)
    requires Usable(lim) && n <= |cs|
  {
    forall m :: a <= m <= n ==> key in Table(lim, cs[..m]).data
  }

  lemma {:induction false} IdlePassKeepsData(lim: Limits, t: Slots, ks: seq<Key>, key: Key)
    requires AllStored(ks, t) && key in IdlePass(lim, t, ks).data
    ensures key in t.data && IdlePass(lim, t, ks).data[key] == t.data[key]
    decreases |ks|
  {
    hide LooksIdle, Consistent, Without;
    if ks != [] {
      StillStored(ks, t);
      var t1 := if LooksIdle(lim, t, ks[0]) then Drop(t, ks[0]) else t;
      if |t1.keys| > MAX_CLIENTS {
        IdlePassKeepsData(lim, t1, ks[1..], key);
      }
    }
  }

  lemma {:induction false} PopPassKeepsData(t: Slots, key: Key)
    requires key in PopPass(t).data
    ensures key in t.data && PopPass(t).data[key] == t.data[key]
    decreases |t.keys|
  {
    if |t.keys| > MAX_CLIENTS {
      PopPassKeepsData(PopFirst(t), key);
    }
  }

  /** While its bucket stays, no check touches the bookkeeping of a key. */
  lemma CheckKeepsBookkeeping(lim: Limits, t: Slots, asker: Key, now: real, key: Key)
    requires Usable(lim) && key in t.data && key in Check(lim, t, asker, now).0.data
    ensures var s, s' := t.data[key], Check(lim, t, asker, now).0.data[key];
            s'.suppressed == s.suppressed && s'.loggedAt == s.loggedAt
  {
    hide Take, IdlePass, PopPass, Without, Consistent;
    CheckEvictsTouched(lim, t, asker, now);
    var r := Touched(lim, t, asker, now);
    if |r.keys| > MAX_CLIENTS {
      TableStored(r);
      PopPassKeepsData(IdlePass(lim, r, r.keys), key);
      IdlePassKeepsData(lim, r, r.keys, key);
    }
  }

  lemma TableStep(lim: Limits, cs: seq<Call>, n: nat)
    requires Usable(lim) && n < |cs|
    ensures Table(lim, cs[..n + 1]) == After(lim, Table(lim, cs[..n]), cs[n])
  {
    hide After;
    assert cs[..n + 1][..n] == cs[..n];
  }

  /**
    While a client is not evicted, the lines written about it are at least
    LOG_EVERY_SECONDS apart, whatever else is checked and logged in between, and
    the counts they report and the count outstanding add up to its refusals.
   */
  lemma {:induction false} LogLinesAddUp(lim: Limits, cs: seq<Call>, key: Key, a: nat, n: nat)
    requires Usable(lim) && a <= n <= |cs| && StaysIn(lim, cs, key, a, n)
    ensures key in Table(lim, cs[..a]).data && key in Table(lim, cs[..n]).data
    ensures Reported(lim, cs, key, a, n) + Table(lim, cs[..n]).data[key].suppressed
         == Table(lim, cs[..a]).data[key].suppressed + Told(cs, key, a, n)
    ensures forall i :: a <= i < n && Line(lim, cs, key, i).Some? ==>
              cs[i].time <= Table(lim, cs[..n]).data[key].loggedAt
    ensures forall i, j :: a <= i < j < n && Line(lim, cs, key, i).Some? && Line(lim, cs, key, j).Some? ==>
              cs[j].time - cs[i].time >= LOG_EVERY_SECONDS
    decreases n
  {
    hide Table, Check, Without, Consistent;
    if n > a {
      LogLinesAddUp(lim, cs, key, a, n - 1);
      TableStep(lim, cs, n - 1);
      var c := cs[n - 1];
      if c.Ask? {
        CheckKeepsBookkeeping(lim, Table(lim, cs[..n - 1]), c.key, c.time, key);
      }
    }
  }

  // ---- when a line is written, and what it says ---------------------------

  /** Call `a` brings the key into the table. */
  ghost predicate Enters(lim: Limits, cs: seq<Call>, key: Key, a: nat)
    requires Usable(lim)
  {
    a < |cs| && key !in Table(lim, cs[..a]).data && key in Table(lim, cs[..a + 1]).data
  }

  /** The last of the calls `a` to `n - 1` that wrote a line about the key. */
  function LastLine(lim: Limits, cs: seq<Call>, key: Key, a: nat, n: nat): (i: Option<nat>)
    requires Usable(lim) && n <= |cs|
    ensures i.Some? ==> a <= i.value < n
    decreases n
  {
    hide Line;
    if n <= a then None
    else if Line(lim, cs, key, n - 1).Some? then Some(n - 1)
    else LastLine(lim, cs, key, a, n - 1)
  }

  lemma {:induction false} LastLineIsLast(lim: Limits, cs: seq<Call>, key: Key, a: nat, n: nat)
    requires Usable(lim) && n <= |cs|
    ensures var i := LastLine(lim, cs, key, a, n);
            && (i.Some? ==> Line(lim, cs, key, i.value).Some?)
            && forall j :: (if i.Some? then i.value + 1 else a) <= j < n ==> Line(lim, cs, key, j) == None
    decreases n
  {
    hide Line;
    if n > a {
      LastLineIsLast(lim, cs, key, a, n - 1);
    }
  }

  /** Evicting brings nobody in. */
  lemma EvictOnlyDrops(lim: Limits, t: Slots, key: Key)
    requires key in Evict(lim, t).data
    ensures key in t.data && Evict(lim, t).data[key] == t.data[key]
  {
    hide IdlePass, PopPass, Consistent;
    if |t.keys| > MAX_CLIENTS {
      TableStored(t);
      PopPassKeepsData(IdlePass(lim, t, t.keys), key);
      IdlePassKeepsData(lim, t, t.keys, key);
    }
  }

  /** A client enters by a check of its own, with nothing told and no line written. */
  lemma EntersFresh(lim: Limits, t: Slots, c: Call, key: Key)
    requires Usable(lim) && key !in t.data && key in After(lim, t, c).data
    ensures c.Ask? && c.key == key
    ensures var slot := After(lim, t, c).data[key]; slot.suppressed == 0 && slot.loggedAt == 0.0
  {
    hide Evict, Take, Without, Consistent;
    if c.Ask? {
      CheckEvictsTouched(lim, t, c.key, c.time);
      EvictOnlyDrops(lim, Touched(lim, t, c.key, c.time), key);
    }
  }

  /** The table remembers when the last line was written and how many refusals came after it. */
  lemma {:induction false} Remembered(lim: Limits, cs: seq<Call>, key: Key, a: nat, n: nat)
    requires Usable(lim) && a < n <= |cs| && Enters(lim, cs, key, a) && StaysIn(lim, cs, key, a + 1, n)
    ensures key in Table(lim, cs[..n]).data
    ensures var slot, last := Table(lim, cs[..n]).data[key], LastLine(lim, cs, key, a, n);
            && slot.loggedAt == (if last.Some? then cs[last.value].time else 0.0)
            && slot.suppressed == Told(cs, key, if last.Some? then last.value + 1 else a, n)
    decreases n
  {
    hide Table, Check, Without, Consistent, After;
    var c := cs[n - 1];
    TableStep(lim, cs, n - 1);
    if n == a + 1 {
      EntersFresh(lim, Table(lim, cs[..a]), c, key);
    } else {
      Remembered(lim, cs, key, a, n - 1);
      StepRemembers(lim, Table(lim, cs[..n - 1]), c, key);
    }
  }

  lemma StepRemembers(lim: Limits, t: Slots, c: Call, key: Key)
    requires Usable(lim) && key in t.data && key in After(lim, t, c).data
    ensures var s, s' := t.data[key], After(lim, t, c).data[key];
            if c == Log(key, c.time) then
              if ShouldLog(t, key, c.time).1.Some? then s'.suppressed == 0 && s'.loggedAt == c.time
              else s'.suppressed == s.suppressed + 1 && s'.loggedAt == s.loggedAt
            else s'.suppressed == s.suppressed && s'.loggedAt == s.loggedAt
  {
    hide Check, Without, Consistent;
    if c.Ask? {
      CheckKeepsBookkeeping(lim, t, c.key, c.time, key);
    }
  }

  /**
    While a client stays in the table, a refusal is reported exactly when
    LOG_EVERY_SECONDS have passed since the last line about it, or since clock
    zero if it has had none since it came in; and the line counts the refusals
    since then, its own included.
   */
  lemma LineIff(lim: Limits, cs: seq<Call>, key: Key, a: nat, n: nat)
    requires Usable(lim) && a < n < |cs| && Enters(lim, cs, key, a) && StaysIn(lim, cs, key, a + 1, n)
    requires cs[n] == Log(key, cs[n].time)
    ensures var last := LastLine(lim, cs, key, a, n);
            var since := if last.Some? then cs[last.value].time else 0.0;
            && (Line(lim, cs, key, n).Some? <==> cs[n].time - since >= LOG_EVERY_SECONDS)
            && (Line(lim, cs, key, n).Some? ==>
                  Line(lim, cs, key, n).value == Told(cs, key, if last.Some? then last.value + 1 else a, n + 1))
  {
    hide Table, Without, Consistent;
    Remembered(lim, cs, key, a, n);
  }

  /** A client that is not in the table is not reported, and the call leaves no trace. */
  lemma StrangersAreNotReported(lim: Limits, cs: seq<Call>, key: Key, n: nat)
    requires Usable(lim) && n < |cs| && key !in Table(lim, cs[..n]).data && cs[n].Log? && cs[n].key == key
    ensures Line(lim, cs, key, n) == None && Table(lim, cs[..n + 1]) == Table(lim, cs[..n])
  {
    hide Table;
    TableStep(lim, cs, n);
  }
}
