/**
  What the live summary says about the stored events: every count, every total,
  and which events are in it at all.
 */
module LiveSummary {
  import opened Sequences
  import opened Arithmetic
  import opened Models
  import opened LiveBins

  // ---- counting events ----------------------------------------------------

  predicate Wanted(e: Event, only: Option<string>) {
    only == None || e.event_type == only.value
  }

  predicate Between(e: Event, only: Option<string>, lo: int, hi: int) {
    Wanted(e, only) && lo <= e.timestamp < hi
  }

  /** The wanted events of one type with lo <= timestamp < hi. */
  function CountOf(docs: seq<Event>, only: Option<string>, t: string, lo: int, hi: int): nat {
    if docs == [] then 0
    else
      CountOf(docs[1..], only, t, lo, hi) +
      if Between(docs[0], only, lo, hi) && docs[0].event_type == t then 1 else 0
  }

  /** The wanted events of all types with lo <= timestamp < hi. */
  function CountAll(docs: seq<Event>, only: Option<string>, lo: int, hi: int): nat {
    if docs == [] then 0
    else CountAll(docs[1..], only, lo, hi) + if Between(docs[0], only, lo, hi) then 1 else 0
  }

  lemma {:induction false} CountSplits(docs: seq<Event>, only: Option<string>, t: string, lo: int, mid: int, hi: int)
    requires lo <= mid <= hi
    ensures CountOf(docs, only, t, lo, hi) == CountOf(docs, only, t, lo, mid) + CountOf(docs, only, t, mid, hi)
  {
    if docs != [] {
      CountSplits(docs[1..], only, t, lo, mid, hi);
    }
  }

  lemma {:induction false} CountPositive(docs: seq<Event>, only: Option<string>, t: string, lo: int, hi: int)
    ensures CountOf(docs, only, t, lo, hi) > 0
       <==> exists e :: e in docs && Between(e, only, lo, hi) && e.event_type == t
  {
    if docs != [] {
      CountPositive(docs[1..], only, t, lo, hi);
      assert docs == [docs[0]] + docs[1..];
    }
  }

  // ---- a slot's sum is a count of events ----------------------------------

  lemma {:induction false} GroupNonEmpty(
    docs: seq<Event>, only: Option<string>, since: int, bin: nat, start: int, t: string)
    requires bin >= 1
    ensures GroupSize(docs, only, since, bin, start, t) > 0
       <==> exists e :: e in docs && InGroup(e, only, since, bin, start, t)
  {
    hide InGroup;
    if docs != [] {
      GroupNonEmpty(docs[1..], only, since, bin, start, t);
      assert docs == [docs[0]] + docs[1..];
    }
  }

  /** The rows of type `t` in slot `i` are those of the one group that starts there. */
  ghost predicate OneGroup(rows: seq<Row>, since: int, bin: nat, t: string, i: int, start: int)
    requires bin >= 1
  {
    && (forall j, k :: 0 <= j < k < |rows| ==> rows[j].bin != rows[k].bin || rows[j].event_type != rows[k].event_type)
    && (forall j :: 0 <= j < |rows| && rows[j].event_type == t ==>
          (SlotOf(rows[j].bin, since, bin) == i <==> rows[j].bin == start))
  }

  lemma {:induction false} SumOfOneGroup(rows: seq<Row>, since: int, bin: nat, t: string, i: int, start: int)
    requires bin >= 1 && OneGroup(rows, since, bin, t, i, start)
    ensures forall j :: 0 <= j < |rows| && rows[j].event_type == t && rows[j].bin == start ==>
              RowSum(rows, since, bin, t, i) == rows[j].count
    ensures (forall j :: 0 <= j < |rows| ==> rows[j].event_type != t || rows[j].bin != start) ==>
              RowSum(rows, since, bin, t, i) == 0
  {
    hide SlotOf;
    if rows != [] {
      var n := |rows| - 1;
      assert forall j :: 0 <= j < n ==> rows[..n][j] == rows[j];
      SumOfOneGroup(rows[..n], since, bin, t, i, start);
    }
  }

  lemma AggregationHasOneGroup(
    rows: seq<Row>, docs: seq<Event>, only: Option<string>, since: int, bin: nat, t: string, i: int)
    requires bin >= 1 && IsAggregation(rows, docs, only, since, bin)
    ensures OneGroup(rows, since, bin, t, i, SlotStart(since, bin, i))
  {
    hide SlotOf, SlotStart, GroupSize, DateTrunc, Matches;
    forall j | 0 <= j < |rows| && rows[j].event_type == t
      ensures SlotOf(rows[j].bin, since, bin) == i <==> rows[j].bin == SlotStart(since, bin, i)
    {
      GroupNonEmpty(docs, only, since, bin, rows[j].bin, t);
      var e :| e in docs && InGroup(e, only, since, bin, rows[j].bin, t);
      SlotCovers(e.timestamp, since, bin, i);
    }
  }

  lemma SumIsGroupSize(
    rows: seq<Row>, docs: seq<Event>, only: Option<string>, since: int, bin: nat, t: string, i: int)
    requires bin >= 1 && IsAggregation(rows, docs, only, since, bin)
    ensures RowSum(rows, since, bin, t, i) == GroupSize(docs, only, since, bin, SlotStart(since, bin, i), t)
  {
    hide SlotOf, SlotStart, RowSum, GroupSize, DateTrunc, Matches, OneGroup;
    var start := SlotStart(since, bin, i);
    AggregationHasOneGroup(rows, docs, only, since, bin, t, i);
    SumOfOneGroup(rows, since, bin, t, i, start);
    GroupNonEmpty(docs, only, since, bin, start, t);
    if GroupSize(docs, only, since, bin, start, t) > 0 {
      var e :| e in docs && InGroup(e, only, since, bin, start, t);
      var j :| 0 <= j < |rows| && rows[j].bin == DateTrunc(e.timestamp, bin) && rows[j].event_type == e.event_type;
    }
  }

  lemma {:induction false} GroupIsCount(
    docs: seq<Event>, only: Option<string>, since: int, bin: nat, t: string, i: nat)
    requires bin >= 1
    ensures GroupSize(docs, only, since, bin, SlotStart(since, bin, i), t)
         == CountOf(docs, only, t, SlotStart(since, bin, i), SlotStart(since, bin, i + 1))
  {
    hide SlotOf, SlotStart, DateTrunc;
    if docs != [] {
      GroupIsCount(docs[1..], only, since, bin, t, i);
      SlotCovers(docs[0].timestamp, since, bin, i);
      SlotWidth(since, bin, i);
      SlotsAfterStart(since, bin, i);
    }
  }

  lemma {:induction false} SlotsAfterStart(since: int, bin: nat, i: nat)
    requires bin >= 1
    ensures since * 1000 <= SlotStart(since, bin, 0) <= SlotStart(since, bin, i)
  {
    hide SlotStart;
    FirstSlotStart(since, bin);
    if i > 0 {
      SlotsAfterStart(since, bin, i - 1);
      SlotWidth(since, bin, i - 1);
    }
  }

  /**
    Every count is exact, for any bin width: slot `i` of a type holds the
    number of its wanted events between the slot's two bounds.
   */
  lemma SlotIsExact(
    rows: seq<Row>, docs: seq<Event>, only: Option<string>, since: int, bin: nat, t: string, i: nat)
    requires bin >= 1 && IsAggregation(rows, docs, only, since, bin)
    ensures RowSum(rows, since, bin, t, i)
         == CountOf(docs, only, t, SlotStart(since, bin, i), SlotStart(since, bin, i + 1))
  {
    SumIsGroupSize(rows, docs, only, since, bin, t, i);
    GroupIsCount(docs, only, since, bin, t, i);
  }

  // ---- which instants are counted -----------------------------------------

  /** Whether the slots of a window cover instant `ts`. */
  predicate InSlots(ts: int, since: int, bin: nat, slots: nat)
    requires bin >= 1
  {
    SlotStart(since, bin, 0) <= ts < SlotStart(since, bin, slots)
  }

  predicate InWindow(ts: int, since: int, end: int) {
    since * 1000 <= ts < end * 1000
  }

  /** The slots and the window [since, end) hold the same instants. */
  ghost predicate Covered(since: int, end: int, window: nat, bin: nat)
    requires bin >= 1
  {
    forall ts :: InSlots(ts, since, bin, window / bin) <==> InWindow(ts, since, end)
  }

  lemma {:induction false} SlotsEnd(since: int, bin: nat, slots: nat)
    requires bin >= 1
    ensures SlotStart(since, bin, slots) == SlotStart(since, bin, 0) + slots * bin * 1000
  {
    hide SlotStart;
    if slots > 0 {
      SlotsEnd(since, bin, slots - 1);
      SlotWidth(since, bin, slots - 1);
      assert slots * bin == (slots - 1) * bin + bin;
    }
  }

  /** Two intervals hold the same instants exactly when their ends agree or both are empty. */
  lemma SameIntervals(a: int, b: int, lo: int, hi: int)
    requires lo < hi
    ensures (forall ts {:trigger Inside(ts, a, b)} :: Inside(ts, a, b) <==> lo <= ts < hi) <==> a == lo && b == hi
  {
    if forall ts {:trigger Inside(ts, a, b)} :: Inside(ts, a, b) <==> lo <= ts < hi {
      assert Inside(lo, a, b) && !Inside(lo - 1, a, b);
      assert Inside(hi - 1, a, b) && !Inside(hi, a, b);
    }
  }

  predicate Inside(ts: int, a: int, b: int) {
    a <= ts < b
  }

  lemma CoveredByEnds(since: int, end: int, window: nat, bin: nat)
    requires bin >= 1 && since < end
    ensures Covered(since, end, window, bin)
       <==> SlotStart(since, bin, 0) == since * 1000 && SlotStart(since, bin, window / bin) == end * 1000
  {
    hide SlotStart;
    var a, b := SlotStart(since, bin, 0), SlotStart(since, bin, window / bin);
    SameIntervals(a, b, since * 1000, end * 1000);
    if Covered(since, end, window, bin) {
      forall ts ensures Inside(ts, a, b) <==> since * 1000 <= ts < end * 1000 {
        assert InSlots(ts, since, bin, window / bin) <==> InWindow(ts, since, end);
      }
    }
  }

  /**
    The slots are the window [since, end) exactly when the window starts on a
    bin boundary and is a whole number of bins long, or is empty.
   */
  lemma WindowCoveredIff(now: int, window: nat, bin: nat)
    requires bin >= 1
    ensures Covered(WindowStart(now, window, bin), WindowEnd(now, bin), window, bin)
       <==> window == 0
            || ((WindowStart(now, window, bin) - REFERENCE_SECONDS) % bin == 0 && window % bin == 0)
  {
    hide SlotStart, WindowEnd;
    var since, end, slots := WindowStart(now, window, bin), WindowEnd(now, bin), window / bin;
    if window > 0 {
      CoveredByEnds(since, end, window, bin);
      hide Covered;
      FirstSlotStart(since, bin);
      SlotsEnd(since, bin, slots);
      assert window == slots * bin + window % bin;
    }
  }

  /** Of the last 300 seconds in bins of nine, the newest are in no slot and the oldest are missing. */
  lemma NineSecondBinsShift()
    ensures !Covered(WindowStart(1_700_000_000, 300, 9), WindowEnd(1_700_000_000, 9), 300, 9)
  {
    WindowCoveredIff(1_700_000_000, 300, 9);
  }

  // ---- windows and minutes -----------------------------------------------

  /** Where the first slot begins, counted in multiples of sixty. */
  lemma ShiftOfMinutes(now: int, window: nat, bin: nat)
    requires bin >= 1
    ensures var j, w := 15_778_080 - now / 60, window % bin;
            (REFERENCE_SECONDS - WindowStart(now, window, bin)) % bin == (60 * j + w) % bin
  {
    var j, w := 15_778_080 - now / 60, window % bin;
    var m := now % 60;
    var q := window / bin - m / bin;
    assert now == now / 60 * 60 + m && m == m / bin * bin + m % bin && window == window / bin * bin + w;
    assert q * bin == window / bin * bin - m / bin * bin;
    var x := 60 * j + w;
    assert REFERENCE_SECONDS - WindowStart(now, window, bin) == x + q * bin;
    assert x == x / bin * bin + x % bin;
    assert (x / bin + q) * bin == x / bin * bin + q * bin;
    DivisionIsUnique(x + q * bin, bin, x / bin + q);
  }

  /** A bin that divides the minute and the window puts the window on its boundaries. */
  lemma DividingTheMinuteAligns(now: int, window: nat, bin: nat)
    requires bin >= 1 && 60 % bin == 0 && window % bin == 0
    ensures (WindowStart(now, window, bin) - REFERENCE_SECONDS) % bin == 0
  {
    hide WindowStart;
    var j, a := 15_778_080 - now / 60, 60 / bin;
    ShiftOfMinutes(now, window, bin);
    MinutesAreBins(j, a, bin);
    OppositeMultiple(REFERENCE_SECONDS - WindowStart(now, window, bin), bin);
  }

  lemma MinutesAreBins(j: int, a: int, bin: nat)
    requires bin >= 1 && 60 == a * bin
    ensures 60 * j % bin == 0
  {
    assert 60 * j == j * a * bin;
    MultipleHasNoRemainder(j * a, bin);
  }

  lemma MinuteStart(k: int) returns (now: int)
    ensures now % 60 == 0 && now / 60 == k
  {
    now := 60 * k;
  }

  /** A window is covered whatever the time exactly when the bin divides the minute and the window. */
  lemma AlwaysCoveredIff(window: nat, bin: nat)
    requires bin >= 1
    ensures (forall now: int :: Covered(WindowStart(now, window, bin), WindowEnd(now, bin), window, bin))
       <==> window == 0 || (60 % bin == 0 && window % bin == 0)
  {
    hide Covered, WindowStart, WindowEnd;
    if window == 0 || (60 % bin == 0 && window % bin == 0) {
      forall now: int ensures Covered(WindowStart(now, window, bin), WindowEnd(now, bin), window, bin) {
        WindowCoveredIff(now, window, bin);
        if window > 0 {
          DividingTheMinuteAligns(now, window, bin);
        }
      }
    } else {
      var now := MinuteStart(15_778_079);
      WindowCoveredIff(now, window, bin);
      ShiftOfMinutes(now, window, bin);
      OppositeMultiple(REFERENCE_SECONDS - WindowStart(now, window, bin), bin);
      assert !Covered(WindowStart(now, window, bin), WindowEnd(now, bin), window, bin);
    }
  }

  // ---- sorting by name ----------------------------------------------------

  predicate Before(a: string, b: string) {
    b != [] && (a == [] || a[0] < b[0] || (a[0] == b[0] && Before(a[1..], b[1..])))
  }

  lemma {:induction false} BeforeOrTie(a: string, b: string)
    ensures Before(a, b) || a == b || Before(b, a)
  {
    if a != [] && b != [] {
      BeforeOrTie(a[1..], b[1..]);
      assert a == [a[0]] + a[1..] && b == [b[0]] + b[1..];
    }
  }

  lemma {:induction false} BeforeTransitive(a: string, b: string, c: string)
    requires Before(a, b) && Before(b, c)
    ensures Before(a, c)
  {
    if a != [] && a[0] == b[0] && b[0] == c[0] {
      BeforeTransitive(a[1..], b[1..], c[1..]);
    }
  }

  ghost predicate ByName(ts: seq<string>) {
    forall i, j :: 0 <= i < j < |ts| ==> Before(ts[i], ts[j])
  }

  function Insert(ts: seq<string>, t: string): (r: seq<string>)
    ensures forall x :: x in r <==> x in ts || x == t
    ensures |r| == |ts| + 1
  {
    if ts == [] then [t]
    else if Before(t, ts[0]) then [t] + ts
    else [ts[0]] + Insert(ts[1..], t)
  }

  lemma {:induction false} InsertKeepsOrder(ts: seq<string>, t: string)
    requires ByName(ts) && t !in ts
    ensures ByName(Insert(ts, t))
  {
    hide Before;
    if ts != [] {
      if Before(t, ts[0]) {
        forall j | 0 <= j < |ts| ensures Before(t, ts[j]) {
          if j > 0 {
            BeforeTransitive(t, ts[0], ts[j]);
          }
        }
      } else {
        InsertKeepsOrder(ts[1..], t);
        BeforeOrTie(ts[0], t);
        var rest := Insert(ts[1..], t);
        forall j | 0 <= j < |rest| ensures Before(ts[0], rest[j]) {
          assert rest[j] in rest;
        }
      }
    }
  }

  method SortedKeys(keys: set<string>) returns (ts: seq<string>)
    ensures ByName(ts)
    ensures forall t :: t in ts <==> t in keys
  {
    hide Before, Insert;
    ts := [];
    var rest := keys;
    while rest != {}
      invariant rest <= keys && ByName(ts)
      invariant forall t :: t in ts <==> t in keys && t !in rest
      decreases rest
    {
      var t :| t in rest;
      rest := rest - {t};
      InsertKeepsOrder(ts, t);
      ts := Insert(ts, t);
    }
  }

  // ---- the summary --------------------------------------------------------

  datatype Series = Series(event_type: string, total: nat, counts: seq<nat>)

  datatype Summary = Summary(
    since: int, until: int, window_seconds: nat, bin_seconds: nat, total: nat, series: seq<Series>)

  function Sum(s: seq<nat>): nat {
    if s == [] then 0 else Sum(s[..|s| - 1]) + s[|s| - 1]
  }

  function Totals(s: seq<Series>): nat {
    if s == [] then 0 else Totals(s[..|s| - 1]) + s[|s| - 1].total
  }

  /** The dense series of one type: a count per slot, and their total. */
  ghost predicate IsSeries(x: Series, docs: seq<Event>, only: Option<string>, since: int, bin: nat, slots: nat)
    requires bin >= 1
  {
    && |x.counts| == slots
    && (forall i :: 0 <= i < slots ==>
          x.counts[i] == CountOf(docs, only, x.event_type, SlotStart(since, bin, i), SlotStart(since, bin, i + 1)))
    && x.total == CountOf(docs, only, x.event_type, SlotStart(since, bin, 0), SlotStart(since, bin, slots))
  }

  /** What a summary promises about the stored events. */
  ghost predicate IsSummary(s: Summary, docs: seq<Event>, only: Option<string>, now: int, window: nat, bin: nat)
    requires bin >= 1
  {
    var slots := window / bin;
    var lo, hi := SlotStart(s.since, bin, 0), SlotStart(s.since, bin, slots);
    && s.since == WindowStart(now, window, bin) && s.until == WindowEnd(now, bin)
    && s.window_seconds == window && s.bin_seconds == bin
    && (forall j, k :: 0 <= j < k < |s.series| ==> Before(s.series[j].event_type, s.series[k].event_type))
    && (forall j :: 0 <= j < |s.series| ==>
          s.series[j].total > 0 && IsSeries(s.series[j], docs, only, s.since, bin, slots))
    && (forall e :: e in docs && Between(e, only, lo, hi) ==>
          exists j :: 0 <= j < |s.series| && s.series[j].event_type == e.event_type)
    && s.total == CountAll(docs, only, lo, hi)
  }

  lemma {:induction false} SumOfSlots(
    counts: seq<nat>, docs: seq<Event>, only: Option<string>, t: string, since: int, bin: nat)
    requires bin >= 1
    requires forall i :: 0 <= i < |counts| ==>
               counts[i] == CountOf(docs, only, t, SlotStart(since, bin, i), SlotStart(since, bin, i + 1))
    ensures Sum(counts) == CountOf(docs, only, t, SlotStart(since, bin, 0), SlotStart(since, bin, |counts|))
  {
    hide SlotStart;
    if counts == [] {
      EmptySpan(docs, only, t, SlotStart(since, bin, 0));
    } else {
      var n := |counts| - 1;
      SumOfSlots(counts[..n], docs, only, t, since, bin);
      SlotsAfterStart(since, bin, n);
      SlotWidth(since, bin, n);
      CountSplits(docs, only, t, SlotStart(since, bin, 0), SlotStart(since, bin, n), SlotStart(since, bin, n + 1));
    }
  }

  lemma {:induction false} EmptySpan(docs: seq<Event>, only: Option<string>, t: string, lo: int)
    ensures CountOf(docs, only, t, lo, lo) == 0
  {
    if docs != [] {
      EmptySpan(docs[1..], only, t, lo);
    }
  }

  /** The number of the series, 0 or 1, that are of type `t`. */
  function Occurrences(names: seq<string>, t: string): nat {
    if names == [] then 0 else Occurrences(names[..|names| - 1], t) + if names[|names| - 1] == t then 1 else 0
  }

  /** Counts of the listed types, added up. */
  function SumOverTypes(names: seq<string>, docs: seq<Event>, only: Option<string>, lo: int, hi: int): nat {
    if names == [] then 0
    else SumOverTypes(names[..|names| - 1], docs, only, lo, hi) + CountOf(docs, only, names[|names| - 1], lo, hi)
  }

  lemma {:induction false} SumOverTypesSplits(
    names: seq<string>, docs: seq<Event>, only: Option<string>, lo: int, hi: int)
    requires docs != []
    ensures SumOverTypes(names, docs, only, lo, hi)
         == SumOverTypes(names, docs[1..], only, lo, hi)
            + if Between(docs[0], only, lo, hi) then Occurrences(names, docs[0].event_type) else 0
  {
    hide Between;
    if names != [] {
      SumOverTypesSplits(names[..|names| - 1], docs, only, lo, hi);
    }
  }

  lemma {:induction false} NoDocsNoSum(names: seq<string>, only: Option<string>, lo: int, hi: int)
    ensures SumOverTypes(names, [], only, lo, hi) == 0
  {
    if names != [] {
      NoDocsNoSum(names[..|names| - 1], only, lo, hi);
    }
  }

  lemma {:induction false} OccursOnce(names: seq<string>, t: string)
    requires Distinct(names)
    ensures Occurrences(names, t) == if t in names then 1 else 0
  {
    if names != [] {
      var n := |names| - 1;
      OccursOnce(names[..n], t);
      assert names == names[..n] + [names[n]];
    }
  }

  /** Each event is of exactly one of the listed types, so the types partition the events. */
  lemma {:induction false} TypesPartition(
    names: seq<string>, docs: seq<Event>, only: Option<string>, lo: int, hi: int)
    requires Distinct(names)
    requires forall e :: e in docs && Between(e, only, lo, hi) ==> e.event_type in names
    ensures SumOverTypes(names, docs, only, lo, hi) == CountAll(docs, only, lo, hi)
  {
    hide Between;
    if docs == [] {
      NoDocsNoSum(names, only, lo, hi);
    } else {
      SumOverTypesSplits(names, docs, only, lo, hi);
      OccursOnce(names, docs[0].event_type);
      TypesPartition(names, docs[1..], only, lo, hi);
    }
  }

  lemma {:induction false} HasRowIsHasEvent(
    rows: seq<Row>, all: seq<Row>, docs: seq<Event>, only: Option<string>, since: int, bin: nat, slots: nat, t: string)
    requires bin >= 1 && rows <= all && IsAggregation(all, docs, only, since, bin)
    requires HasRow(rows, since, bin, slots, t)
    ensures CountOf(docs, only, t, SlotStart(since, bin, 0), SlotStart(since, bin, slots)) > 0
  {
    hide SlotOf, SlotStart, GroupSize, DateTrunc;
    var n := |rows| - 1;
    if rows[n].event_type == t && 0 <= SlotOf(rows[n].bin, since, bin) < slots {
      var i := SlotOf(rows[n].bin, since, bin);
      assert rows[n] == all[n];
      GroupNonEmpty(docs, only, since, bin, rows[n].bin, t);
      var e :| e in docs && InGroup(e, only, since, bin, rows[n].bin, t);
      SlotCovers(e.timestamp, since, bin, i);
      SlotWidth(since, bin, i);
      SlotsIncrease(since, bin, 0, i);
      SlotsIncrease(since, bin, i + 1, slots);
      CountPositive(docs, only, t, SlotStart(since, bin, 0), SlotStart(since, bin, slots));
    } else {
      HasRowIsHasEvent(rows[..n], all, docs, only, since, bin, slots, t);
    }
  }

  lemma {:induction false} SlotsIncrease(since: int, bin: nat, i: int, j: int)
    requires bin >= 1 && i <= j
    ensures SlotStart(since, bin, i) <= SlotStart(since, bin, j)
    decreases j - i
  {
    hide SlotStart;
    if i < j {
      SlotsIncrease(since, bin, i, j - 1);
      SlotWidth(since, bin, j - 1);
    }
  }

  lemma {:induction false} RowGivesHasRow(rows: seq<Row>, since: int, bin: nat, slots: nat, t: string, j: nat)
    requires bin >= 1 && j < |rows| && rows[j].event_type == t && 0 <= SlotOf(rows[j].bin, since, bin) < slots
    ensures HasRow(rows, since, bin, slots, t)
  {
    hide SlotOf;
    if j < |rows| - 1 {
      RowGivesHasRow(rows[..|rows| - 1], since, bin, slots, t, j);
    }
  }

  /** An event between the bounds has a row in some slot. */
  lemma EventHasRow(
    rows: seq<Row>, docs: seq<Event>, only: Option<string>, since: int, bin: nat, slots: nat, e: Event)
    requires bin >= 1 && IsAggregation(rows, docs, only, since, bin) && e in docs
    requires Between(e, only, SlotStart(since, bin, 0), SlotStart(since, bin, slots))
    ensures HasRow(rows, since, bin, slots, e.event_type)
  {
    hide SlotOf, SlotStart, GroupSize, DateTrunc;
    SlotsAfterStart(since, bin, 0);
    var j :| 0 <= j < |rows| && rows[j].bin == DateTrunc(e.timestamp, bin) && rows[j].event_type == e.event_type;
    var i := SlotOf(DateTrunc(e.timestamp, bin), since, bin);
    SlotCovers(e.timestamp, since, bin, i);
    SlotWidth(since, bin, i);
    if i < 0 {
      SlotsIncrease(since, bin, i + 1, 0);
    } else if i >= slots {
      SlotsIncrease(since, bin, slots, i);
    }
    RowGivesHasRow(rows, since, bin, slots, e.event_type, j);
  }

  /** `if event_type:` - a missing or empty filter is no filter. */
  function OnlyType(eventType: Option<string>, normalise: string -> string): Option<string> {
    if eventType == None || eventType.value == "" then None else Some(normalise(eventType.value))
  }

  /** With a filter, nothing of another type is counted. */
  lemma OnlyWantedCount(docs: seq<Event>, only: Option<string>, t: string, lo: int, hi: int)
    requires CountOf(docs, only, t, lo, hi) > 0 && only.Some?
    ensures t == only.value
  {
    CountPositive(docs, only, t, lo, hi);
  }

  method BuildSeries(names: seq<string>, perType: map<string, seq<nat>>) returns (series: seq<Series>)
    requires forall t :: t in names ==> t in perType
    ensures |series| == |names|
    ensures forall j :: 0 <= j < |names| ==> series[j] == Series(names[j], Sum(perType[names[j]]), perType[names[j]])
  {
    series := [];
    for j := 0 to |names|
      invariant |series| == j
      invariant forall i :: 0 <= i < j ==> series[i] == Series(names[i], Sum(perType[names[i]]), perType[names[i]])
    {
      series := series + [Series(names[j], Sum(perType[names[j]]), perType[names[j]])];
    }
  }

  lemma {:induction false} TotalsAreSumOverTypes(
    series: seq<Series>, names: seq<string>, docs: seq<Event>, only: Option<string>, lo: int, hi: int)
    requires |series| == |names|
    requires forall j :: 0 <= j < |names| ==> series[j].total == CountOf(docs, only, names[j], lo, hi)
    ensures Totals(series) == SumOverTypes(names, docs, only, lo, hi)
  {
    if names != [] {
      TotalsAreSumOverTypes(series[..|series| - 1], names[..|names| - 1], docs, only, lo, hi);
    }
  }

  lemma SeriesFromBins(
    perType: map<string, seq<nat>>, rows: seq<Row>, docs: seq<Event>, only: Option<string>,
    since: int, bin: nat, slots: nat, t: string)
    requires bin >= 1 && IsAggregation(rows, docs, only, since, bin)
    requires Filled(perType, rows, since, bin, slots) && t in perType
    ensures IsSeries(Series(t, Sum(perType[t]), perType[t]), docs, only, since, bin, slots)
  {
    hide SlotStart, IsAggregation, HasRow;
    forall i | 0 <= i < slots
      ensures perType[t][i] == CountOf(docs, only, t, SlotStart(since, bin, i), SlotStart(since, bin, i + 1))
    {
      SlotIsExact(rows, docs, only, since, bin, t, i);
    }
    SumOfSlots(perType[t], docs, only, t, since, bin);
  }

  lemma SeriesTotal(x: Series, docs: seq<Event>, only: Option<string>, since: int, bin: nat, slots: nat)
    requires bin >= 1
    ensures IsSeries(x, docs, only, since, bin, slots) ==>
              x.total == CountOf(docs, only, x.event_type, SlotStart(since, bin, 0), SlotStart(since, bin, slots))
  {
  }

  lemma NamesDistinct(names: seq<string>)
    requires ByName(names)
    ensures Distinct(names)
  {
    forall i, j | 0 <= i < j < |names| ensures names[i] != names[j] {
      NotBeforeItself(names[i]);
    }
  }

  lemma {:induction false} NotBeforeItself(a: string)
    ensures !Before(a, a)
  {
    if a != [] {
      NotBeforeItself(a[1..]);
    }
  }

  /**
    The summary is exact for whatever rows the store answers with, in whatever
    order: it depends on the stored events alone.
   */
  method Summarise(
    rows: seq<Row>, ghost docs: seq<Event>, eventType: Option<string>, normalise: string -> string,
    now: int, window: nat, bin: nat) returns (s: Summary)
    requires bin >= 1
    requires IsAggregation(rows, docs, OnlyType(eventType, normalise), WindowStart(now, window, bin), bin)
    ensures eventType == None || eventType == Some("") ==> IsSummary(s, docs, None, now, window, bin)
    ensures eventType.Some? && eventType.value != "" ==>
              var wanted := normalise(eventType.value);
              && IsSummary(s, docs, Some(wanted), now, window, bin)
              && forall j :: 0 <= j < |s.series| ==> s.series[j].event_type == wanted
  {
    hide SlotStart, IsAggregation, HasRow, Filled, Before, IsSeries, DateTrunc, SlotOf, CountOf, CountAll,
         SumOverTypes, Sum, Totals, Between;
    ghost var only := OnlyType(eventType, normalise);
    var end := WindowEnd(now, bin);
    var since := end - window;
    var slots := window / bin;
    var perType := FillBins(rows, since, bin, slots);
    FilledKeys(perType, rows, since, bin, slots);
    var names := SortedKeys(perType.Keys);
    var series := BuildSeries(names, perType);
    ghost var lo, hi := SlotStart(since, bin, 0), SlotStart(since, bin, slots);
    forall j | 0 <= j < |names|
      ensures series[j].total > 0 && IsSeries(series[j], docs, only, since, bin, slots)
      ensures only.Some? ==> names[j] == only.value
    {
      HasRowIsHasEvent(rows, rows, docs, only, since, bin, slots, names[j]);
      SeriesTotal(series[j], docs, only, since, bin, slots);
      SeriesFromBins(perType, rows, docs, only, since, bin, slots, names[j]);
      if only.Some? {
        OnlyWantedCount(docs, only, names[j], lo, hi);
      }
    }
    forall e | e in docs && Between(e, only, lo, hi) ensures e.event_type in names {
      EventHasRow(rows, docs, only, since, bin, slots, e);
    }
    NamesDistinct(names);
    TypesPartition(names, docs, only, lo, hi);
    SeriesTotals(series, names, docs, only, since, bin, slots);
    s := Summary(since, end, window, bin, Totals(series), series);
  }

  lemma FilledKeys(perType: map<string, seq<nat>>, rows: seq<Row>, since: int, bin: nat, slots: nat)
    requires bin >= 1 && Filled(perType, rows, since, bin, slots)
    ensures forall t :: t in perType <==> HasRow(rows, since, bin, slots, t)
  {
  }

  lemma SeriesTotals(
    series: seq<Series>, names: seq<string>, docs: seq<Event>, only: Option<string>, since: int, bin: nat, slots: nat)
    requires bin >= 1 && |series| == |names|
    requires forall j :: 0 <= j < |names| ==> series[j].event_type == names[j]
    requires forall j :: 0 <= j < |names| ==> IsSeries(series[j], docs, only, since, bin, slots)
    ensures Totals(series)
         == SumOverTypes(names, docs, only, SlotStart(since, bin, 0), SlotStart(since, bin, slots))
  {
    hide SlotStart;
    TotalsAreSumOverTypes(series, names, docs, only, SlotStart(since, bin, 0), SlotStart(since, bin, slots));
  }

  // ---- windows on their boundaries ----------------------------------------

  lemma AlignedSlots(since: int, bin: nat, i: nat)
    requires bin >= 1 && (since - REFERENCE_SECONDS) % bin == 0
    ensures SlotStart(since, bin, i) == (since + i * bin) * 1000
  {
    hide SlotStart;
    FirstSlotStart(since, bin);
    SlotsEnd(since, bin, i);
  }

  /**
    With a bin that divides the minute and the window: slot `i` of every series
    counts the events of [since + i*bin, since + (i+1)*bin), its total those of
    [since, until), and the grand total all wanted events of [since, until).
   */
  lemma AlignedSummary(s: Summary, docs: seq<Event>, only: Option<string>, now: int, window: nat, bin: nat)
    requires bin >= 1 && 60 % bin == 0 && window % bin == 0
    requires IsSummary(s, docs, only, now, window, bin)
    ensures forall j :: 0 <= j < |s.series| ==>
              && |s.series[j].counts| == window / bin
              && s.series[j].total == CountOf(docs, only, s.series[j].event_type, s.since * 1000, s.until * 1000)
    ensures forall j, i :: 0 <= j < |s.series| && 0 <= i < |s.series[j].counts| ==>
              s.series[j].counts[i] == CountOf(docs, only, s.series[j].event_type,
                                               (s.since + i * bin) * 1000, (s.since + (i + 1) * bin) * 1000)
    ensures s.total == CountAll(docs, only, s.since * 1000, s.until * 1000)
  {
    hide SlotStart;
    DividingTheMinuteAligns(now, window, bin);
    var slots := window / bin;
    assert slots * bin == window;
    AlignedSlots(s.since, bin, 0);
    AlignedSlots(s.since, bin, slots);
    forall j | 0 <= j < |s.series|
      ensures |s.series[j].counts| == slots
      ensures s.series[j].total == CountOf(docs, only, s.series[j].event_type, s.since * 1000, s.until * 1000)
    {
      assert IsSeries(s.series[j], docs, only, s.since, bin, slots);
    }
    forall j, i | 0 <= j < |s.series| && 0 <= i < |s.series[j].counts|
      ensures s.series[j].counts[i] == CountOf(docs, only, s.series[j].event_type,
                                               (s.since + i * bin) * 1000, (s.since + (i + 1) * bin) * 1000)
    {
      assert IsSeries(s.series[j], docs, only, s.since, bin, slots);
      AlignedSlots(s.since, bin, i);
      AlignedSlots(s.since, bin, i + 1);
    }
  }

  predicate Shows(x: Series, t: string, i: nat) {
    x.event_type == t && i < |x.counts|
  }

  /** What a summary shows for a type in a slot; a type without a series shows nothing. */
  function Shown(series: seq<Series>, t: string, i: nat): nat {
    if series == [] then 0
    else if Shows(series[0], t, i) then series[0].counts[i]
    else Shown(series[1..], t, i)
  }

  lemma {:induction false} ShownIsSeries(series: seq<Series>, t: string, i: nat, n: nat)
    requires forall j :: 0 <= j < |series| && Shows(series[j], t, i) ==> series[j].counts[i] == n
    requires n == 0 || exists j :: 0 <= j < |series| && Shows(series[j], t, i)
    ensures Shown(series, t, i) == n
  {
    if series != [] && !Shows(series[0], t, i) {
      assert n != 0 ==> exists j :: 0 <= j < |series[1..]| && Shows(series[1..][j], t, i) by {
        if n != 0 {
          var j :| 0 <= j < |series| && Shows(series[j], t, i);
          assert series[1..][j - 1] == series[j];
        }
      }
      ShownIsSeries(series[1..], t, i, n);
    }
  }

  lemma ShownIsCount(
    s: Summary, docs: seq<Event>, only: Option<string>, now: int, window: nat, bin: nat, t: string, i: nat)
    requires bin >= 1 && IsSummary(s, docs, only, now, window, bin) && i < window / bin
    ensures Shown(s.series, t, i)
         == CountOf(docs, only, t, SlotStart(s.since, bin, i), SlotStart(s.since, bin, i + 1))
  {
    hide SlotStart, Before;
    var slots := window / bin;
    var lo, hi := SlotStart(s.since, bin, i), SlotStart(s.since, bin, i + 1);
    var n := CountOf(docs, only, t, lo, hi);
    assert forall j :: 0 <= j < |s.series| ==> IsSeries(s.series[j], docs, only, s.since, bin, slots);
    CountPositive(docs, only, t, lo, hi);
    SlotsIncrease(s.since, bin, 0, i);
    SlotsIncrease(s.since, bin, i + 1, slots);
    ShownIsSeries(s.series, t, i, n);
  }

  /**
    Two windows over the same stored events agree on every bin they share, for
    any width of bin: slots that begin at the same instant show the same count.
   */
  lemma SharedBinsAgree(
    s: Summary, s': Summary, docs: seq<Event>, only: Option<string>, now: int, now': int,
    window: nat, window': nat, bin: nat, t: string, i: nat, i': nat)
    requires bin >= 1
    requires IsSummary(s, docs, only, now, window, bin) && IsSummary(s', docs, only, now', window', bin)
    requires i < window / bin && i' < window' / bin
    requires SlotStart(s.since, bin, i) == SlotStart(s'.since, bin, i')
    ensures Shown(s.series, t, i) == Shown(s'.series, t, i')
  {
    hide SlotStart, Before, Shown;
    ShownIsCount(s, docs, only, now, window, bin, t, i);
    ShownIsCount(s', docs, only, now', window', bin, t, i');
    SlotWidth(s.since, bin, i);
    SlotWidth(s'.since, bin, i');
  }
}
