/**
  The life of one message, on its own: the VISIBLE / INVISIBLE / gone /
  DEAD-LETTER machine of the queue's module comment, with the record of its
  deliveries. Ledger.dfy proves that the whole queue moves one message at a
  time through this machine; what is proved here about one message therefore
  holds of every message in every run.
 */
module Lifecycle {
  import opened Sequences
  import opened Arithmetic
  import opened QueueSpec

  /**
    One delivery: its receipt and its time, when it was last reported failed
    (None while a heartbeat or nothing at all is the last word on it), and the
    deadline last set for it.
   */
  datatype Attempt = Attempt(handle: Handle, at: real, reportedAt: Option<real>, until: real)

  datatype Place = Visible | Lent(handle: Handle, deadline: real) | Acked | Dead(at: real)

  datatype Life = Life(place: Place, attempts: seq<Attempt>)

  // ---- the machine --------------------------------------------------------

  datatype Move =
    | Deliver(handle: Handle, deadline: real)
    | Return
    | Bury
    | Ack
    | Extend(until: real)
    | Report

  predicate CanMove(cfg: Config, l: Life, m: Move, now: real) {
    match m
    case Deliver(_, _) => l.place.Visible?
    case Return => l.place.Lent? && l.place.deadline <= now && |l.attempts| < cfg.maxReceives
    case Bury => l.place.Lent? && l.place.deadline <= now && |l.attempts| >= cfg.maxReceives
    case Ack => l.place.Lent?
    case Extend(_) => l.place.Lent?
    case Report => l.place.Lent? && |l.attempts| >= 1
  }

  /** The last delivery gets a new deadline, by a report or by a heartbeat. */
  function Mark(a: seq<Attempt>, reportedAt: Option<real>, until: real): (r: seq<Attempt>)
    ensures |r| == |a|
    ensures forall k :: 0 <= k < |a| ==> r[k].handle == a[k].handle && r[k].at == a[k].at
    ensures forall k :: 0 <= k < |a| - 1 ==> r[k] == a[k]
    ensures a != [] ==> r[|a| - 1].reportedAt == reportedAt && r[|a| - 1].until == until
  {
    if a == [] then a else a[|a| - 1 := a[|a| - 1].(reportedAt := reportedAt, until := until)]
  }

  function Moved(cfg: Config, l: Life, m: Move, now: real): Life
    requires CanMove(cfg, l, m, now)
  {
    match m
    case Deliver(h, d) => Life(Lent(h, d), l.attempts + [Attempt(h, now, None, d)])
    case Return => l.(place := Visible)
    case Bury => l.(place := Dead(now))
    case Ack => l.(place := Acked)
    case Extend(d) => Life(Lent(l.place.handle, d), Mark(l.attempts, None, d))
    case Report =>
      var d := now + Backoff(cfg, |l.attempts|);
      Life(Lent(l.place.handle, d), Mark(l.attempts, Some(now), d))
  }

  // ---- what every life keeps ----------------------------------------------

  ghost predicate CountsOk(cfg: Config, l: Life) {
    && |l.attempts| <= cfg.maxReceives
    && match l.place
       case Visible => |l.attempts| < cfg.maxReceives
       case Lent(h, _) => |l.attempts| >= 1 && l.attempts[|l.attempts| - 1].handle == h
       case Acked => |l.attempts| >= 1
       case Dead(_) => |l.attempts| == cfg.maxReceives
  }

  /** Delivery `k`, counted from 1: if reported, its deadline is the report's backoff. */
  ghost predicate AttemptOk(cfg: Config, a: seq<Attempt>, k: nat)
    requires 1 <= k <= |a|
  {
    var x := a[k - 1];
    && (x.reportedAt.Some? ==> x.at <= x.reportedAt.value && x.until == x.reportedAt.value + Backoff(cfg, k))
    && (k < |a| ==> x.until <= a[k].at)
  }

  ghost predicate GapsOk(cfg: Config, a: seq<Attempt>) {
    forall k {:trigger AttemptOk(cfg, a, k)} :: 1 <= k <= |a| ==> AttemptOk(cfg, a, k)
  }

  ghost predicate TimesOk(cfg: Config, l: Life, now: real) {
    && GapsOk(cfg, l.attempts)
    && (l.attempts != [] ==>
          var last := l.attempts[|l.attempts| - 1];
          && last.at <= now
          && match l.place
             case Visible => last.until <= now
             case Lent(_, deadline) => deadline == last.until
             case Acked => true
             case Dead(at) => last.until <= at <= now)
  }

  ghost predicate LifeOk(cfg: Config, l: Life, now: real) {
    CountsOk(cfg, l) && TimesOk(cfg, l, now)
  }

  lemma FreshLifeOk(cfg: Config, now: real)
    requires cfg.maxReceives >= 1
    ensures LifeOk(cfg, Life(Visible, []), now)
  {
  }

  lemma LaterOk(cfg: Config, l: Life, now: real, later: real)
    requires LifeOk(cfg, l, now) && now <= later
    ensures LifeOk(cfg, l, later)
  {
  }

  lemma MoveOk(cfg: Config, l: Life, m: Move, now: real)
    requires LifeOk(cfg, l, now) && CanMove(cfg, l, m, now)
    ensures LifeOk(cfg, Moved(cfg, l, m, now), now)
  {
    hide Backoff;
    var a, b := l.attempts, Moved(cfg, l, m, now).attempts;
    forall k | 1 <= k <= |b| ensures AttemptOk(cfg, b, k) {
      if k <= |a| {
        assert AttemptOk(cfg, a, k);
      }
    }
  }

  // ---- the retry budget ---------------------------------------------------

  /** Every delivery on which the last word is not a report was granted at least `v` seconds. */
  ghost predicate GrantedAtLeast(a: seq<Attempt>, v: real) {
    forall k :: 0 <= k < |a| && a[k].reportedAt == None ==> a[k].at + v <= a[k].until
  }

  /** What delivery `k`, counted from 1, keeps its message away: its backoff, or its window. */
  function Stay(cfg: Config, a: seq<Attempt>, v: real, k: nat): real
    requires 1 <= k <= |a|
  {
    if a[k - 1].reportedAt.Some? then Backoff(cfg, k) else v
  }

  /** The stays of the first `n` deliveries, end to end. */
  function Stays(cfg: Config, a: seq<Attempt>, v: real, n: nat): real
    requires n <= |a|
  {
    if n == 0 then 0.0 else Stays(cfg, a, v, n - 1) + Stay(cfg, a, v, n)
  }

  /** Backoff(1) + ... + Backoff(n). */
  function Budget(cfg: Config, n: nat): real {
    if n == 0 then 0.0 else Budget(cfg, n - 1) + Backoff(cfg, n)
  }

  ghost predicate AllReported(a: seq<Attempt>) {
    forall k :: 0 <= k < |a| ==> a[k].reportedAt.Some?
  }

  lemma {:induction false} AllReportedStays(cfg: Config, a: seq<Attempt>, v: real, n: nat)
    requires AllReported(a) && n <= |a|
    ensures Stays(cfg, a, v, n) == Budget(cfg, n)
  {
    hide Backoff;
    if n > 0 {
      AllReportedStays(cfg, a, v, n - 1);
    }
  }

  lemma StayIsOver(cfg: Config, a: seq<Attempt>, v: real, k: nat)
    requires GapsOk(cfg, a) && GrantedAtLeast(a, v) && 1 <= k <= |a|
    ensures a[k - 1].at + Stay(cfg, a, v, k) <= a[k - 1].until
    ensures k < |a| ==> a[k - 1].until <= a[k].at
  {
    hide Backoff;
    assert AttemptOk(cfg, a, k);
  }

  lemma {:induction false} SpreadOfDeliveries(cfg: Config, a: seq<Attempt>, v: real, n: nat)
    requires GapsOk(cfg, a) && GrantedAtLeast(a, v) && 1 <= n <= |a|
    ensures a[0].at + Stays(cfg, a, v, n) <= a[n - 1].until
  {
    hide Stay, GapsOk;
    StayIsOver(cfg, a, v, n);
    if n > 1 {
      SpreadOfDeliveries(cfg, a, v, n - 1);
      StayIsOver(cfg, a, v, n - 1);
    }
  }

  /** What deliveries `a`, the last word on each recorded, guarantee about the waits between them. */
  ghost predicate Spaced(cfg: Config, a: seq<Attempt>, v: real) {
    forall k {:trigger Stay(cfg, a, v, k)} :: 1 <= k < |a| ==>
      && a[k - 1].at + Stay(cfg, a, v, k) <= a[k].at
      && (a[k - 1].reportedAt.Some? ==> a[k - 1].reportedAt.value + Backoff(cfg, k) <= a[k].at)
  }

  /**
    The retry budget, delivery by delivery. One that was reported through
    `fail` is followed by the next no sooner than its backoff after the report;
    one that merely lapsed, no sooner than the least window granted. The
    message is dead-lettered no sooner than the sum of these after its first
    delivery.
   */
  lemma RetryBudget(cfg: Config, l: Life, now: real, v: real)
    requires LifeOk(cfg, l, now) && GrantedAtLeast(l.attempts, v)
    ensures Spaced(cfg, l.attempts, v)
    ensures l.place.Dead? && cfg.maxReceives >= 1 ==>
              l.attempts[0].at + Stays(cfg, l.attempts, v, cfg.maxReceives) <= l.place.at
  {
    hide Backoff, Stay, Stays;
    var a := l.attempts;
    forall k | 1 <= k < |a|
      ensures a[k - 1].at + Stay(cfg, a, v, k) <= a[k].at
      ensures a[k - 1].reportedAt.Some? ==> a[k - 1].reportedAt.value + Backoff(cfg, k) <= a[k].at
    {
      StayIsOver(cfg, a, v, k);
      assert AttemptOk(cfg, a, k);
    }
    if l.place.Dead? && cfg.maxReceives >= 1 {
      SpreadOfDeliveries(cfg, a, v, |a|);
    }
  }

  /** All attempts reported: the sum is that of the backoffs, whatever the windows. */
  lemma ReportedBudget(cfg: Config, l: Life, now: real)
    requires LifeOk(cfg, l, now) && AllReported(l.attempts)
    requires l.place.Dead? && cfg.maxReceives >= 1
    ensures l.attempts[0].at + Budget(cfg, cfg.maxReceives) <= l.place.at
  {
    hide Backoff, Stay, Stays, Budget, TimesOk;
    RetryBudget(cfg, l, now, 0.0);
    AllReportedStays(cfg, l.attempts, 0.0, cfg.maxReceives);
  }

  /** With no cap hit the budget is a geometric sum. */
  lemma {:induction false} UncappedBudget(cfg: Config, n: nat)
    requires cfg.visibility >= 0.0
    requires n >= 1 ==> cfg.visibility * Pow2(n - 1) as real <= BACKOFF_CAP_SECONDS
    ensures Budget(cfg, n) == cfg.visibility * (Pow2(n) - 1) as real
  {
    if n >= 1 {
      if n >= 2 {
        assert Pow2(n - 1) == 2 * Pow2(n - 2);
        var p := Pow2(n - 2) as real;
        assert Pow2(n - 1) as real == p + p;
        assert cfg.visibility * (p + p) == cfg.visibility * p + cfg.visibility * p;
        assert cfg.visibility * p >= 0.0;
      }
      UncappedBudget(cfg, n - 1);
      var v, p := cfg.visibility, Pow2(n - 1) as real;
      assert (Pow2(n) - 1) as real == p + (p - 1.0);
      assert v * (p + (p - 1.0)) == v * p + v * (p - 1.0);
    }
  }

  /**
    The first backoff is the visibility timeout and each later one twice the
    one before, but none exceeds 900 seconds, and one that has got there stays.
   */
  lemma BackoffDoubles(cfg: Config, n: nat, m: nat)
    requires 1 <= n <= m && cfg.visibility >= 0.0
    ensures Backoff(cfg, 1) == Min(cfg.visibility, 900.0)
    ensures Backoff(cfg, n + 1) == Min(2.0 * Backoff(cfg, n), 900.0)
    ensures Backoff(cfg, n) <= Backoff(cfg, m) <= 900.0
    ensures Backoff(cfg, n) == 900.0 ==> Backoff(cfg, m) == 900.0
  {
    DoubledNever(cfg.visibility);
    DoubledAgain(cfg.visibility, n - 1);
    DoublingGrows(cfg.visibility, n - 1, m - 1);
    DoublingGrows(cfg.visibility, 0, n - 1);
    hide Doubled;
  }

  /**
    No backoff undercuts the window that a consumer has exactly when the
    visibility timeout is within the cap.
   */
  lemma BackoffFloor(cfg: Config)
    requires cfg.visibility >= 0.0
    ensures (forall n: nat :: n >= 1 ==> Backoff(cfg, n) >= cfg.visibility)
       <==> cfg.visibility <= BACKOFF_CAP_SECONDS
  {
    if cfg.visibility <= BACKOFF_CAP_SECONDS {
      forall n: nat | n >= 1 ensures Backoff(cfg, n) >= cfg.visibility {
        var v, p := cfg.visibility, Pow2(n - 1) as real;
        assert v * p == v + v * (p - 1.0);
        ProductSign(v, p - 1.0);
      }
    } else {
      assert Backoff(cfg, 1) < cfg.visibility;
    }
  }

  /** Reported or lapsed, `n` deliveries take no less than `n` windows of `v` seconds. */
  lemma {:induction false} StaysAtLeastWindows(cfg: Config, a: seq<Attempt>, v: real, n: nat)
    requires 0.0 <= v <= cfg.visibility && v <= BACKOFF_CAP_SECONDS && n <= |a|
    ensures Stays(cfg, a, v, n) >= v * n as real
  {
    if n > 0 {
      StaysAtLeastWindows(cfg, a, v, n - 1);
      assert v * n as real == v * (n - 1) as real + v;
      var w, p := cfg.visibility, Pow2(n - 1) as real;
      assert w * p == w + w * (p - 1.0);
      ProductSign(w, p - 1.0);
    }
  }

  /** With a visibility timeout of 1000 seconds a retry may come after 900. */
  lemma BackoffUndercutsWindow(cfg: Config)
    requires cfg.visibility == 1000.0
    ensures Backoff(cfg, 1) == 900.0 < cfg.visibility
  {
    assert Pow2(0) == 1;
  }

  /** 30 + 60 + 120 + 240 + 480 = 930 seconds at the defaults. */
  lemma DefaultBudget(cfg: Config)
    requires cfg.visibility == 30.0 && cfg.maxReceives == 5
    ensures Budget(cfg, cfg.maxReceives) == 930.0
  {
    assert Pow2(2) == 4;
    assert Pow2(4) == 16;
    UncappedBudget(cfg, 5);
    assert Pow2(5) == 32;
  }
}
