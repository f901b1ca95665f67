/**
  The live histogram: how the aggregation's rows become one dense series of
  counts per event type, and which instants each of the counts covers.

  Instants are milliseconds since the epoch, as MongoDB stores them; a window
  is given in whole seconds.
 */
module LiveBins {
  import opened Sequences
  import opened Arithmetic
  import opened Models

  /** $dateTrunc counts its bins from 2000-01-01T00:00:00Z. */
  const REFERENCE_SECONDS: int := 946_684_800

  // ---- the window ---------------------------------------------------------

  /** The end of the last completed bin of the current minute, in seconds. */
  function WindowEnd(now: int, bin: nat): int
    requires bin >= 1
  {
    now - now % 60 % bin
  }

  function WindowStart(now: int, window: nat, bin: nat): int
    requires bin >= 1
  {
    WindowEnd(now, bin) - window
  }

  // ---- the aggregation ----------------------------------------------------

  /** The start of the bin that holds instant `ts`. */
  function DateTrunc(ts: int, bin: nat): int
    requires bin >= 1
  {
    var ms := bin * 1000;
    REFERENCE_SECONDS * 1000 + (ts - REFERENCE_SECONDS * 1000) / ms * ms
  }

  /** The $match stage; a filter on type is already normalised. */
  predicate Matches(e: Event, only: Option<string>, since: int) {
    e.timestamp >= since * 1000 && (only == None || e.event_type == only.value)
  }

  datatype Row = Row(bin: int, event_type: string, count: nat)

  predicate InGroup(e: Event, only: Option<string>, since: int, bin: nat, start: int, event_type: string)
    requires bin >= 1
  {
    Matches(e, only, since) && DateTrunc(e.timestamp, bin) == start && e.event_type == event_type
  }

  function GroupSize(docs: seq<Event>, only: Option<string>, since: int, bin: nat, start: int, event_type: string): nat
    requires bin >= 1
  {
    if docs == [] then 0
    else
      GroupSize(docs[1..], only, since, bin, start, event_type) +
      if InGroup(docs[0], only, since, bin, start, event_type) then 1 else 0
  }

  /** `rows` is what the $group stage may answer: its groups, in any order. */
  ghost predicate IsAggregation(rows: seq<Row>, docs: seq<Event>, only: Option<string>, since: int, bin: nat)
    requires bin >= 1
  {
    && (forall i, j :: 0 <= i < j < |rows| ==> rows[i].bin != rows[j].bin || rows[i].event_type != rows[j].event_type)
    && (forall i :: 0 <= i < |rows| ==>
          rows[i].count >= 1 &&
          rows[i].count == GroupSize(docs, only, since, bin, rows[i].bin, rows[i].event_type))
    && (forall e :: e in docs && Matches(e, only, since) ==>
          exists i :: 0 <= i < |rows| &&
                      rows[i].bin == DateTrunc(e.timestamp, bin) && rows[i].event_type == e.event_type)
  }

  // ---- filling the bins ---------------------------------------------------

  /** Which slot a row goes to; bins start on whole seconds, so nothing is cut off. */
  function SlotOf(start: int, since: int, bin: nat): int
    requires bin >= 1
  {
    (start - since * 1000) / 1000 / bin
  }

  /** What the rows add up to in slot `i` of a type. */
  function RowSum(rows: seq<Row>, since: int, bin: nat, event_type: string, i: int): nat
    requires bin >= 1
  {
    if rows == [] then 0
    else
      var n := |rows| - 1;
      RowSum(rows[..n], since, bin, event_type, i) +
      if rows[n].event_type == event_type && SlotOf(rows[n].bin, since, bin) == i then rows[n].count else 0
  }

  /** Whether some row of the type has a slot in the window. */
  predicate HasRow(rows: seq<Row>, since: int, bin: nat, slots: int, event_type: string)
    requires bin >= 1
  {
    rows != [] &&
    var n := |rows| - 1;
    || (rows[n].event_type == event_type && 0 <= SlotOf(rows[n].bin, since, bin) < slots)
    || HasRow(rows[..n], since, bin, slots, event_type)
  }

  /** The dictionary of counts after `rows`. */
  ghost predicate Filled(
    perType: map<string, seq<nat>>, rows: seq<Row>, since: int, bin: nat, slots: nat)
    requires bin >= 1
  {
    && (forall t :: t in perType <==> HasRow(rows, since, bin, slots, t))
    && (forall t :: t in perType ==> |perType[t]| == slots)
    && (forall t, i :: t in perType && 0 <= i < slots ==> perType[t][i] == RowSum(rows, since, bin, t, i))
  }

  /** What row number `k` adds to type `t`. */
  lemma RowAdds(rows: seq<Row>, since: int, bin: nat, slots: nat, k: nat, t: string)
    requires bin >= 1 && k < |rows|
    ensures var r, slot := rows[k], SlotOf(rows[k].bin, since, bin);
            && (HasRow(rows[..k + 1], since, bin, slots, t)
                <==> HasRow(rows[..k], since, bin, slots, t) || (r.event_type == t && 0 <= slot < slots))
            && (forall i {:trigger RowSum(rows[..k + 1], since, bin, t, i)} ::
                  RowSum(rows[..k + 1], since, bin, t, i)
                  == RowSum(rows[..k], since, bin, t, i) + if r.event_type == t && slot == i then r.count else 0)
  {
    hide SlotOf;
    assert rows[..k + 1][..k] == rows[..k];
  }

  lemma FilledStep(
    perType: map<string, seq<nat>>, rows: seq<Row>, since: int, bin: nat, slots: nat, k: nat,
    perType': map<string, seq<nat>>)
    requires bin >= 1 && k < |rows| && Filled(perType, rows[..k], since, bin, slots)
    requires var r := rows[k];
             var slot := SlotOf(r.bin, since, bin);
             if 0 <= slot < slots then
               var counts: seq<nat> := if r.event_type in perType then perType[r.event_type] else seq(slots, _ => 0);
               perType' == perType[r.event_type := counts[slot := counts[slot] + r.count]]
             else perType' == perType
    ensures Filled(perType', rows[..k + 1], since, bin, slots)
  {
    hide SlotOf, HasRow, RowSum;
    forall t
      ensures t in perType' <==> HasRow(rows[..k + 1], since, bin, slots, t)
      ensures t in perType' ==> |perType'[t]| == slots
    {
      RowAdds(rows, since, bin, slots, k, t);
    }
    forall t, i | t in perType' && 0 <= i < slots
      ensures perType'[t][i] == RowSum(rows[..k + 1], since, bin, t, i)
    {
      RowAdds(rows, since, bin, slots, k, t);
      if t !in perType {
        NoRowNoSum(rows[..k], since, bin, slots, t, i);
      }
    }
  }

  lemma {:induction false} NoRowNoSum(rows: seq<Row>, since: int, bin: nat, slots: nat, t: string, i: int)
    requires bin >= 1 && !HasRow(rows, since, bin, slots, t) && 0 <= i < slots
    ensures RowSum(rows, since, bin, t, i) == 0
  {
    hide SlotOf;
    if rows != [] {
      var n := |rows| - 1;
      NoRowNoSum(rows[..n], since, bin, slots, t, i);
    }
  }

  method FillBins(rows: seq<Row>, since: int, bin: nat, slots: nat) returns (perType: map<string, seq<nat>>)
    requires bin >= 1
    ensures Filled(perType, rows, since, bin, slots)
  {
    hide SlotOf, RowSum, HasRow;
    perType := map[];
    NothingFilled(since, bin, slots);
    for k := 0 to |rows|
      invariant Filled(perType, rows[..k], since, bin, slots)
    {
      ghost var before := perType;
      var row := rows[k];
      var slot := SlotOf(row.bin, since, bin);
      if 0 <= slot < slots {
        var counts: seq<nat> := if row.event_type in perType then perType[row.event_type] else seq(slots, _ => 0);
        perType := perType[row.event_type := counts[slot := counts[slot] + row.count]];
      }
      FilledStep(before, rows, since, bin, slots, k, perType);
    }
    assert rows[..|rows|] == rows;
  }

  lemma NothingFilled(since: int, bin: nat, slots: nat)
    requires bin >= 1
    ensures Filled(map[], [], since, bin, slots)
  {
  }

  // ---- what a slot covers -------------------------------------------------

  /** The number of the first whole bin at or after `since`. */
  function FirstBin(since: int, bin: nat): int
    requires bin >= 1
  {
    -((REFERENCE_SECONDS - since) / bin)
  }

  /** The instant at which slot `i` begins. */
  function SlotStart(since: int, bin: nat, i: int): int
    requires bin >= 1
  {
    (REFERENCE_SECONDS + (FirstBin(since, bin) + i) * bin) * 1000
  }

  /** Bin number `q`, wherever it comes from, lands in slot `q - FirstBin`. */
  lemma SlotOfBin(since: int, bin: nat, q: int)
    requires bin >= 1
    ensures SlotOf((REFERENCE_SECONDS + q * bin) * 1000, since, bin) == q - FirstBin(since, bin)
  {
    var o := REFERENCE_SECONDS - since;
    var c := o / bin;
    var secs := o + q * bin;
    assert ((REFERENCE_SECONDS + q * bin) * 1000 - since * 1000) / 1000 == secs;
    assert c * bin <= o < c * bin + bin;
    assert (q + c) * bin == q * bin + c * bin;
    DivisionIsUnique(secs, bin, q + c);
  }

  /** An instant truncates to bin number `q` exactly when it lies in it. */
  lemma TruncOf(ts: int, bin: nat, q: int)
    requires bin >= 1
    ensures var start := (REFERENCE_SECONDS + q * bin) * 1000;
            DateTrunc(ts, bin) == start <==> start <= ts < start + bin * 1000
  {
    var ms, u := bin * 1000, ts - REFERENCE_SECONDS * 1000;
    var p := u / ms;
    assert p * ms <= u < p * ms + ms;
    assert q * ms == q * bin * 1000;
    if q * ms <= u < q * ms + ms {
      DivisionIsUnique(u, ms, q);
    }
    if p != q {
      SameProduct(p, q, ms);
    }
  }

  /** Every truncated instant is the start of some bin. */
  lemma TruncIsABin(ts: int, bin: nat) returns (q: int)
    requires bin >= 1
    ensures DateTrunc(ts, bin) == (REFERENCE_SECONDS + q * bin) * 1000
  {
    var ms := bin * 1000;
    q := (ts - REFERENCE_SECONDS * 1000) / ms;
    assert q * ms == q * bin * 1000;
  }

  /** An instant is counted in slot `i` exactly when it lies between its bounds. */
  lemma SlotCovers(ts: int, since: int, bin: nat, i: int)
    requires bin >= 1
    ensures SlotOf(DateTrunc(ts, bin), since, bin) == i
       <==> SlotStart(since, bin, i) <= ts < SlotStart(since, bin, i) + bin * 1000
    ensures SlotOf(DateTrunc(ts, bin), since, bin) == i <==> DateTrunc(ts, bin) == SlotStart(since, bin, i)
  {
    var q := TruncIsABin(ts, bin);
    var c := FirstBin(since, bin);
    SlotOfBin(since, bin, q);
    TruncOf(ts, bin, c + i);
    if q != c + i {
      SameProduct(q, c + i, bin);
    }
  }

  /** The first slot begins at the window's start, or less than a bin after it. */
  lemma FirstSlotStart(since: int, bin: nat)
    requires bin >= 1
    ensures since * 1000 <= SlotStart(since, bin, 0) < (since + bin) * 1000
    ensures SlotStart(since, bin, 0) == since * 1000 <==> (since - REFERENCE_SECONDS) % bin == 0
  {
    var o := REFERENCE_SECONDS - since;
    var c := o / bin;
    assert c * bin <= o < c * bin + bin;
    assert -c * bin == -(c * bin);
    var r := since - REFERENCE_SECONDS;
    assert r == (r / bin) * bin + r % bin;
    if r % bin == 0 {
      assert (-(r / bin)) * bin == -((r / bin) * bin);
      DivisionIsUnique(o, bin, -(r / bin));
    } else if c * bin == o {
      assert (-c) * bin == r;
      DivisionIsUnique(r, bin, -c);
    }
  }

  lemma SlotWidth(since: int, bin: nat, i: int)
    requires bin >= 1
    ensures SlotStart(since, bin, i + 1) == SlotStart(since, bin, i) + bin * 1000
  {
    var c := FirstBin(since, bin);
    assert (c + (i + 1)) * bin == (c + i) * bin + bin;
  }
}
