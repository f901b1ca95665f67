/**
  The limiter in front of the queue: how fast one client alone can fill it.
 */
module Admission {
  import opened Arithmetic
  import opened Models
  import opened Bucket
  import opened RateLimitSpec
  import opened RateLimitRuns
  import opened RateLimitEnvelope
  import Q = QueueSpec
  import L = Ledger
  import QueueRuns

  /** The least time in which one client gets `n` requests through. */
  function LeastTime(lim: Limits, kind: Kind, n: nat): real
    requires Usable(lim)
  {
    (n as real - Capacity(lim, kind)) / Rate(lim, kind)
  }

  // ---- no sooner ----------------------------------------------------------

  lemma QuotientBound(x: real, rate: real, y: real)
    requires rate > 0.0 && x <= rate * y
    ensures x / rate <= y
  {
    var q := x / rate;
    assert q * rate == x;
    if q > y {
      assert (q - y) * rate > 0.0;
      assert (q - y) * rate == q * rate - y * rate;
    }
  }

  /** While its key stays in the table, no client gets `n` requests through any sooner. */
  lemma NoSooner(lim: Limits, rs: seq<Req>, key: Key, a: nat, last: nat, m: nat, s: real, t: real, n: nat)
    requires Usable(lim) && Chronological(rs) && a <= last < |rs| && Resident(lim, rs, key, a, last)
    requires a <= m <= last + 1 && s <= t
    requires n <= GrantedChecks(lim, rs, key, a, m, s, t)
    ensures t - s >= LeastTime(lim, key.kind, n)
  {
    hide GrantedChecks, Resident, Capacity, Rate;
    GrantsInAnySpan(lim, rs, key, a, last, m, s, t);
    QuotientBound(n as real - Capacity(lim, key.kind), Rate(lim, key.kind), t - s);
  }

  /**
    A queue filled through the limiter by one client alone, every accepted event
    having been let through by one of its checks, took that long to fill.
   */
  lemma OneClientFillsNoSooner(
    cfg: Q.Config, ops: seq<QueueRuns.Op>, lim: Limits, rs: seq<Req>, key: Key,
    a: nat, last: nat, m: nat, s: real, t: real)
    requires QueueRuns.IsRun(cfg, ops) && |QueueRuns.End(cfg, ops).q.entries| >= cfg.maxsize
    requires Usable(lim) && Chronological(rs) && a <= last < |rs| && Resident(lim, rs, key, a, last)
    requires a <= m <= last + 1 && s <= t
    requires |QueueRuns.End(cfg, ops).h.sent| <= GrantedChecks(lim, rs, key, a, m, s, t)
    ensures t - s >= LeastTime(lim, key.kind, cfg.maxsize)
  {
    hide GrantedChecks, Resident, LeastTime, QueueRuns.InTime, QueueRuns.After;
    QueueRuns.RoomForAll(cfg, QueueRuns.End(cfg, ops));
    NoSooner(lim, rs, key, a, last, m, s, t, cfg.maxsize);
  }

  // ---- and in exactly that time -------------------------------------------

  /** The `i`-th take of the fastest client: the whole bucket at once, then each token as it drips in. */
  function TakenAt(c: nat, rate: real, i: nat): real
    requires rate > 0.0
  {
    if i < c then 0.0 else (i - c + 1) as real / rate
  }

  function Fastest(c: nat, rate: real, n: nat): (ts: seq<real>)
    requires rate > 0.0
    ensures |ts| == n && forall i :: 0 <= i < n ==> ts[i] == TakenAt(c, rate, i)
  {
    if n == 0 then [] else Fastest(c, rate, n - 1) + [TakenAt(c, rate, n - 1)]
  }

  /** Between two of its takes, what drips in is one token, or nothing while the first bucket lasts. */
  lemma Drip(c: nat, rate: real, i: nat, was: real, now: real) returns (gain: real)
    requires rate > 0.0 && c >= 1 && was == TakenAt(c, rate, i) && now == TakenAt(c, rate, i + 1)
    ensures gain == rate * (now - was) && gain == if i + 1 < c then 0.0 else 1.0
    ensures was <= now
  {
    gain := rate * (now - was);
    var step := 1.0 / rate;
    assert rate * step == 1.0;
    QuotientSign(1.0, rate);
    if i + 1 >= c {
      var k := (i + 1 - c) as real;
      OneMoreStep(k, rate, step);
      assert now == (k + 1.0) / rate;
      assert was == k / rate by {
        if i < c {
          assert k == 0.0;
        }
      }
      assert now - was == step;
    }
  }

  lemma OneMoreStep(k: real, rate: real, step: real)
    requires rate > 0.0 && rate * step == 1.0
    ensures (k + 1.0) / rate == k / rate + step
  {
    var x, y := k / rate, (k + 1.0) / rate;
    assert x * rate == k && y * rate == k + 1.0;
    assert (y - x - step) * rate == y * rate - x * rate - rate * step;
  }

  lemma {:induction false} InOrder(c: nat, rate: real, i: nat, j: nat)
    requires rate > 0.0 && c >= 1 && i <= j
    ensures TakenAt(c, rate, i) <= TakenAt(c, rate, j)
    decreases j
  {
    hide TakenAt;
    if i < j {
      InOrder(c, rate, i, j - 1);
      var _ := Drip(c, rate, j - 1, TakenAt(c, rate, j - 1), TakenAt(c, rate, j));
    }
  }

  lemma LevelAfter(capacity: real, rate: real, ts: seq<real>, n: nat, gain: real)
    requires rate > 0.0 && 0 < n < |ts| && gain == rate * (ts[n] - ts[n - 1])
    ensures var spent := if Granted(capacity, rate, ts, n - 1) then 1.0 else 0.0;
            Level(capacity, rate, ts, n) == Min(capacity, Level(capacity, rate, ts, n - 1) - spent + gain)
  {
    hide Level, Granted;
    LevelStep(capacity, rate, ts, n);
  }

  lemma {:induction false} LevelOfFastest(c: nat, rate: real, n: nat, i: nat)
    requires rate > 0.0 && c >= 1 && i < n
    ensures Level(c as real, rate, Fastest(c, rate, n), i) == if i < c then (c - i) as real else 1.0
    ensures Granted(c as real, rate, Fastest(c, rate, n), i)
    decreases i
  {
    hide Level, Granted, TakenAt, Fastest;
    var ts := Fastest(c, rate, n);
    if i == 0 {
      LevelAtStart(c as real, rate, ts);
    } else {
      LevelOfFastest(c, rate, n, i - 1);
      var gain := Drip(c, rate, i - 1, ts[i - 1], ts[i]);
      LevelAfter(c as real, rate, ts, i, gain);
    }
    GrantedAtOne(c as real, rate, ts, i);
  }

  /** The requests of one client, alone, at the times `ts`. */
  function Alone(key: Key, ts: seq<real>): (rs: seq<Req>)
    ensures |rs| == |ts| && forall i :: 0 <= i < |ts| ==> rs[i] == Req(key, ts[i])
  {
    seq(|ts|, i requires 0 <= i < |ts| => Req(key, ts[i]))
  }

  lemma {:induction false} TimesOfAlone(key: Key, ts: seq<real>, m: nat)
    requires m <= |ts|
    ensures TimesOf(Alone(key, ts), key, 0, m) == ts[..m]
  {
    if m > 0 {
      TimesOfAlone(key, ts, m - 1);
    }
  }

  lemma AloneIsResident(lim: Limits, key: Key, ts: seq<real>, n: nat)
    requires Usable(lim) && Sorted(ts) && n < |ts|
    ensures Resident(lim, Alone(key, ts), key, 0, n)
  {
    hide Bounded, Take, FindSlot, BoundedWait, Capacity, Rate;
    var rs := Alone(key, ts);
    assert rs[..0] == [];
    BoundedOk(lim, []);
    forall m | 0 < m <= n ensures key in Bounded(lim, rs[..m]).data {
      CheckStep(lim, rs, m - 1);
    }
  }

  lemma AloneIsGranted(lim: Limits, key: Key, ts: seq<real>, i: nat)
    requires Usable(lim) && Sorted(ts) && i < |ts|
    requires Granted(Capacity(lim, key.kind), Rate(lim, key.kind), ts[..i + 1], i)
    ensures BoundedWait(lim, Alone(key, ts), i) == 0.0
  {
    hide Bounded, BoundedWait, Capacity, Rate, Resident, Granted;
    AloneIsResident(lim, key, ts, i);
    TimesOfAlone(key, ts, i);
    assert ts[..i] + [ts[i]] == ts[..i + 1];
    ResidentGrant(lim, Alone(key, ts), key, 0, i, i);
  }

  lemma {:induction false} FastestPrefix(c: nat, rate: real, n: nat, i: nat)
    requires rate > 0.0 && i <= n
    ensures Fastest(c, rate, n)[..i] == Fastest(c, rate, i)
  {
  }

  lemma FastestSorted(c: nat, rate: real, n: nat)
    requires rate > 0.0 && c >= 1
    ensures Sorted(Fastest(c, rate, n))
  {
    forall i, j | 0 <= i <= j < n ensures Fastest(c, rate, n)[i] <= Fastest(c, rate, n)[j] {
      InOrder(c, rate, i, j);
    }
  }

  function Tokens(lim: Limits, kind: Kind): nat {
    if kind == Write then lim.maxWrites else lim.maxReads
  }

  /** A client that takes the whole bucket at once and then each token as it comes is never refused. */
  lemma FastestClient(lim: Limits, key: Key, n: nat) returns (rs: seq<Req>)
    requires Usable(lim) && n > Tokens(lim, key.kind)
    ensures |rs| == n && Chronological(rs) && (forall i :: 0 <= i < n ==> rs[i].key == key)
    ensures rs[0].time == 0.0 && rs[n - 1].time == LeastTime(lim, key.kind, n)
    ensures forall i {:trigger BoundedWait(lim, rs, i)} :: 0 <= i < n ==> BoundedWait(lim, rs, i) == 0.0
  {
    hide Bounded, BoundedWait, Rate, Fastest;
    var c, rate := Tokens(lim, key.kind), Rate(lim, key.kind);
    var ts := Fastest(c, rate, n);
    FastestSorted(c, rate, n);
    rs := Alone(key, ts);
    forall i | 0 <= i < n ensures BoundedWait(lim, rs, i) == 0.0 {
      LevelOfFastest(c, rate, i + 1, i);
      FastestPrefix(c, rate, n, i + 1);
      AloneIsGranted(lim, key, ts, i);
    }
  }

  // ---- as shipped ---------------------------------------------------------

  const SHIPPED: Limits := Limits(2_000, 3_000, 10.0)

  /**
    Not fifty seconds but forty: at 2,000 writes in ten seconds one client gets
    the 10,000 events that fill the queue through in exactly that time, the
    first 2,000 of them at once.
   */
  lemma FortySecondsToFill(client: string) returns (rs: seq<Req>)
    ensures LeastTime(SHIPPED, Write, 10_000) == 40.0
    ensures |rs| == 10_000 && Chronological(rs) && (forall i :: 0 <= i < |rs| ==> rs[i].key == Key(client, Write))
    ensures rs[0].time == 0.0 && rs[9_999].time == 40.0
    ensures forall i {:trigger BoundedWait(SHIPPED, rs, i)} :: 0 <= i < |rs| ==> BoundedWait(SHIPPED, rs, i) == 0.0
  {
    assert Rate(SHIPPED, Write) == 200.0;
    rs := FastestClient(SHIPPED, Key(client, Write), 10_000);
  }

  function Sends(es: seq<Event>): (ops: seq<QueueRuns.Op>)
    ensures |ops| == |es| && forall i :: 0 <= i < |es| ==> ops[i] == QueueRuns.OpSend(es[i])
  {
    seq(|es|, i requires 0 <= i < |es| => QueueRuns.OpSend(es[i]))
  }

  /** Left alone, the queue holds whatever it was sent. */
  lemma {:induction false} SendsFill(cfg: Q.Config, l: L.Ledger, es: seq<Event>)
    requires L.Good(cfg, l) && |l.q.entries| + |es| <= cfg.maxsize
    ensures QueueRuns.InTime(cfg, l, Sends(es))
    ensures |QueueRuns.After(cfg, l, Sends(es)).q.entries| == |l.q.entries| + |es|
    decreases |es|
  {
    hide L.Good;
    if es != [] {
      var op := QueueRuns.OpSend(es[0]);
      OneSendFills(cfg, l, es[0]);
      SendsFill(cfg, QueueRuns.Do(cfg, l, op), es[1..]);
      assert Sends(es)[1..] == Sends(es[1..]);
    }
  }

  lemma OneSendFills(cfg: Q.Config, l: L.Ledger, e: Event)
    requires L.Good(cfg, l) && |l.q.entries| < cfg.maxsize
    ensures |QueueRuns.Do(cfg, l, QueueRuns.OpSend(e)).q.entries| == |l.q.entries| + 1
  {
    Q.Places(cfg, l.q);
    hide L.Conserved, L.Fifo, L.Told;
    assert l.q.nextId !in l.q.entries;
  }
}
