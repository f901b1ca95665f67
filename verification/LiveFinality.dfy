/**
  When a count of the live summary is final: which later arrivals change it,
  and for which windows and bins nothing stamped from now on ever does.
 */
module LiveFinality {
  import opened Sequences
  import opened Arithmetic
  import opened Models
  import opened LiveBins
  import opened LiveSummary

  // ---- what an arrival changes --------------------------------------------

  lemma {:induction false} CountAppend(
    docs: seq<Event>, more: seq<Event>, only: Option<string>, t: string, lo: int, hi: int)
    ensures CountOf(docs + more, only, t, lo, hi) == CountOf(docs, only, t, lo, hi) + CountOf(more, only, t, lo, hi)
  {
    if docs == [] {
      assert docs + more == more;
    } else {
      CountAppend(docs[1..], more, only, t, lo, hi);
      assert (docs + more)[1..] == docs[1..] + more;
    }
  }

  /** A count changes exactly when something that arrives is stamped in its slot. */
  lemma CountStaysIff(docs: seq<Event>, more: seq<Event>, only: Option<string>, t: string, lo: int, hi: int)
    ensures CountOf(docs + more, only, t, lo, hi) == CountOf(docs, only, t, lo, hi)
       <==> forall e :: e in more && e.event_type == t ==> !Between(e, only, lo, hi)
  {
    hide Between;
    CountAppend(docs, more, only, t, lo, hi);
    CountPositive(more, only, t, lo, hi);
  }

  /** The slot an instant between the bounds falls into. */
  lemma SlotAt(ts: int, since: int, bin: nat, slots: nat) returns (i: nat)
    requires bin >= 1 && InSlots(ts, since, bin, slots)
    ensures i < slots && SlotStart(since, bin, i) <= ts < SlotStart(since, bin, i + 1)
  {
    hide SlotStart, SlotOf, DateTrunc;
    var k := SlotOf(DateTrunc(ts, bin), since, bin);
    SlotCovers(ts, since, bin, k);
    SlotWidth(since, bin, k);
    if k < 0 {
      SlotsIncrease(since, bin, k + 1, 0);
    } else if k >= slots {
      SlotsIncrease(since, bin, slots, k);
    }
    i := k;
  }

  /** Two summaries show the same counts, for every type and every slot. */
  ghost predicate SameShown(s: Summary, s': Summary, slots: nat) {
    forall t: string, i: nat {:trigger Shown(s.series, t, i)} ::
      i < slots ==> Shown(s.series, t, i) == Shown(s'.series, t, i)
  }

  /** No wanted arrival is stamped inside the slots. */
  ghost predicate NoneInSlots(more: seq<Event>, only: Option<string>, since: int, bin: nat, slots: nat)
    requires bin >= 1
  {
    forall e :: e in more && Wanted(e, only) ==> !InSlots(e.timestamp, since, bin, slots)
  }

  /**
    A cached summary is exact for as long as, and no longer than, nothing that
    was stamped inside its slots has arrived since, back-dated or delayed.
   */
  lemma CachedIsExactIff(
    s: Summary, s': Summary, docs: seq<Event>, more: seq<Event>, only: Option<string>,
    now: int, window: nat, bin: nat)
    requires bin >= 1
    requires IsSummary(s, docs, only, now, window, bin) && IsSummary(s', docs + more, only, now, window, bin)
    ensures SameShown(s, s', window / bin)
       <==> NoneInSlots(more, only, WindowStart(now, window, bin), bin, window / bin)
  {
    hide SlotStart, Shown, InSlots, IsSummary;
    var since, slots := WindowStart(now, window, bin), window / bin;
    if NoneInSlots(more, only, since, bin, slots) {
      forall t: string, i: nat | i < slots ensures Shown(s.series, t, i) == Shown(s'.series, t, i) {
        ShownThen(s, s', docs, more, only, now, window, bin, t, i);
        NoneInSlot(more, only, since, bin, slots, t, i);
        CountStaysIff(docs, more, only, t, SlotStart(since, bin, i), SlotStart(since, bin, i + 1));
      }
    } else {
      var e :| e in more && Wanted(e, only) && InSlots(e.timestamp, since, bin, slots);
      var i := SlotAt(e.timestamp, since, bin, slots);
      ShownThen(s, s', docs, more, only, now, window, bin, e.event_type, i);
      CountStaysIff(docs, more, only, e.event_type, SlotStart(since, bin, i), SlotStart(since, bin, i + 1));
      assert Between(e, only, SlotStart(since, bin, i), SlotStart(since, bin, i + 1));
      assert Shown(s.series, e.event_type, i) != Shown(s'.series, e.event_type, i);
    }
  }

  lemma ShownThen(
    s: Summary, s': Summary, docs: seq<Event>, more: seq<Event>, only: Option<string>,
    now: int, window: nat, bin: nat, t: string, i: nat)
    requires bin >= 1 && i < window / bin
    requires IsSummary(s, docs, only, now, window, bin) && IsSummary(s', docs + more, only, now, window, bin)
    ensures var since := WindowStart(now, window, bin);
            var lo, hi := SlotStart(since, bin, i), SlotStart(since, bin, i + 1);
            && Shown(s.series, t, i) == CountOf(docs, only, t, lo, hi)
            && Shown(s'.series, t, i) == CountOf(docs + more, only, t, lo, hi)
  {
    hide SlotStart, Shown, Before;
    ShownIsCount(s, docs, only, now, window, bin, t, i);
    ShownIsCount(s', docs + more, only, now, window, bin, t, i);
  }

  lemma NoneInSlot(more: seq<Event>, only: Option<string>, since: int, bin: nat, slots: nat, t: string, i: nat)
    requires bin >= 1 && i < slots && NoneInSlots(more, only, since, bin, slots)
    ensures forall e :: e in more && e.event_type == t ==>
              !Between(e, only, SlotStart(since, bin, i), SlotStart(since, bin, i + 1))
  {
    hide SlotStart;
    SlotsIncrease(since, bin, 0, i);
    SlotsIncrease(since, bin, i + 1, slots);
  }

  // ---- what is stamped from now on ----------------------------------------

  predicate SlotOver(now: int, window: nat, bin: nat, i: nat)
    requires bin >= 1
  {
    SlotStart(WindowStart(now, window, bin), bin, i + 1) <= now * 1000
  }

  /** At `now` every slot that is returned is over. */
  ghost predicate AllOver(now: int, window: nat, bin: nat)
    requires bin >= 1
  {
    forall i: nat :: i < window / bin ==> SlotOver(now, window, bin, i)
  }

  ghost predicate StampedFrom(more: seq<Event>, instant: int) {
    forall e :: e in more ==> e.timestamp >= instant
  }

  /** Nothing that is stamped at `now` or later changes any count, whatever is stored already. */
  ghost predicate Final(now: int, window: nat, bin: nat)
    requires bin >= 1
  {
    forall docs: seq<Event>, more: seq<Event>, only: Option<string>, t: string, i: nat ::
      StampedFrom(more, now * 1000) && i < window / bin ==> SlotStays(docs, more, only, t, now, window, bin, i)
  }

  predicate SlotStays(
    docs: seq<Event>, more: seq<Event>, only: Option<string>, t: string, now: int, window: nat, bin: nat, i: nat)
    requires bin >= 1
  {
    var since := WindowStart(now, window, bin);
    var lo, hi := SlotStart(since, bin, i), SlotStart(since, bin, i + 1);
    CountOf(docs + more, only, t, lo, hi) == CountOf(docs, only, t, lo, hi)
  }

  function StampedAt(ts: int): Event {
    Event("id", "click", "user", "https://example.com", ts, ts, "")
  }

  lemma FinalMeansOver(now: int, window: nat, bin: nat)
    requires bin >= 1
    ensures Final(now, window, bin) <==> AllOver(now, window, bin)
  {
    hide SlotStart, WindowStart;
    var since := WindowStart(now, window, bin);
    if AllOver(now, window, bin) {
      forall docs: seq<Event>, more: seq<Event>, only: Option<string>, t: string, i: nat
        | StampedFrom(more, now * 1000) && i < window / bin
        ensures SlotStays(docs, more, only, t, now, window, bin, i)
      {
        assert SlotOver(now, window, bin, i);
        CountStaysIff(docs, more, only, t, SlotStart(since, bin, i), SlotStart(since, bin, i + 1));
      }
    } else {
      var i: nat :| i < window / bin && !SlotOver(now, window, bin, i);
      var e := StampedAt(SlotStart(since, bin, i + 1) - 1);
      SlotWidth(since, bin, i);
      CountStaysIff([], [e], None, e.event_type, SlotStart(since, bin, i), SlotStart(since, bin, i + 1));
      assert e in [e] && Between(e, None, SlotStart(since, bin, i), SlotStart(since, bin, i + 1));
      assert StampedFrom([e], now * 1000) && !SlotStays([], [e], None, e.event_type, now, window, bin, i);
    }
  }

  lemma LastIsOver(now: int, window: nat, bin: nat)
    requires bin >= 1
    ensures AllOver(now, window, bin)
       <==> window < bin || SlotStart(WindowStart(now, window, bin), bin, window / bin) <= now * 1000
  {
    hide SlotStart, WindowStart;
    var since, slots := WindowStart(now, window, bin), window / bin;
    NoSlots(window, bin);
    if slots > 0 && SlotStart(since, bin, slots) <= now * 1000 {
      forall i: nat | i < slots ensures SlotOver(now, window, bin, i) {
        SlotsIncrease(since, bin, i + 1, slots);
      }
    } else if slots > 0 {
      var last := slots - 1;
      assert SlotOver(now, window, bin, last) <==> SlotStart(since, bin, slots) <= now * 1000;
    }
  }

  lemma NoSlots(window: nat, bin: nat)
    requires bin >= 1
    ensures window / bin == 0 <==> window < bin
  {
    assert window == window / bin * bin + window % bin;
    if window < bin {
      DivisionIsUnique(window, bin, 0);
    }
  }

  /**
    At one given time, nothing stamped from now on matters exactly when no slot
    is returned, or when the shift of the first slot past the window's start is
    made up for by what the window leaves over after its last whole bin and by
    the seconds since the window's end.
   */
  lemma FinalIff(now: int, window: nat, bin: nat)
    requires bin >= 1
    ensures Final(now, window, bin)
       <==> || window < bin
            || (REFERENCE_SECONDS - WindowStart(now, window, bin)) % bin <= window % bin + now % 60 % bin
  {
    hide Final, AllOver, WindowStart;
    FinalMeansOver(now, window, bin);
    LastIsOver(now, window, bin);
    LastSlotEnd(now, window, bin);
  }

  lemma LastSlotEnd(now: int, window: nat, bin: nat)
    requires bin >= 1
    ensures var since := WindowStart(now, window, bin);
            SlotStart(since, bin, window / bin)
            == (now + (REFERENCE_SECONDS - since) % bin - window % bin - now % 60 % bin) * 1000
  {
    var since, slots := WindowStart(now, window, bin), window / bin;
    var o := REFERENCE_SECONDS - since;
    assert o == o / bin * bin + o % bin;
    assert (-(o / bin) + slots) * bin == -(o / bin * bin) + slots * bin;
    assert window == slots * bin + window % bin;
  }

  /** Between `w` and the next number congruent to it modulo the common divisor, no shift falls. */
  lemma NextShift(j: int, w: nat, bin: nat)
    requires w < bin
    ensures var x := (60 * j + w) % bin; x <= w || x >= w + Gcd(60, bin)
  {
    var y := 60 * j + w;
    assert y == y / bin * bin + y % bin;
    assert -(y / bin) * bin == -(y / bin * bin);
    NoSmallCombination(60, bin, j, -(y / bin));
  }

  /** A shift past `w` by the common divisor does occur. */
  lemma ShiftOccurs(w: nat, bin: nat) returns (u: int)
    requires w + Gcd(60, bin) < bin
    ensures (60 * u + w) % bin == w + Gcd(60, bin)
  {
    var v;
    u, v := GcdCombines(60, bin);
    assert (-v) * bin == -(bin * v);
    RemainderOf(60 * u + w, bin, -v, w + Gcd(60, bin));
  }

  /** Otherwise there is a minute at whose very start a slot that is returned reaches past the present. */
  lemma UnfinishedAt(window: nat, bin: nat) returns (now: int)
    requires bin >= 1 && window >= bin && window % bin + Gcd(60, bin) < bin
    ensures now % 60 == 0 && !Final(now, window, bin)
  {
    hide Final, Gcd, WindowStart;
    var u := ShiftOccurs(window % bin, bin);
    now := MinuteStart(15_778_080 - u);
    FinalIff(now, window, bin);
    ShiftOfMinutes(now, window, bin);
  }

  /**
    Whatever the time, nothing stamped from then on ever changes a count that
    was shown, exactly when the window is shorter than a bin, so that no slot is
    returned at all, or leaves over, after its last whole bin, all of a bin but
    what the bin has in common with the minute.
   */
  lemma AlwaysFinalIff(window: nat, bin: nat)
    requires bin >= 1
    ensures (forall now: int :: Final(now, window, bin)) <==> window < bin || window % bin + Gcd(60, bin) >= bin
  {
    hide Final;
    if window < bin || window % bin + Gcd(60, bin) >= bin {
      forall now: int ensures Final(now, window, bin) {
        FinalIff(now, window, bin);
        ShiftOfMinutes(now, window, bin);
        NextShift(15_778_080 - now / 60, window % bin, bin);
      }
    } else {
      var now := UnfinishedAt(window, bin);
      assert !Final(now, window, bin);
    }
  }

  /** Bins of nine seconds: at this time the newest slot ends a second from now. */
  lemma NineSecondBinsStillFill()
    ensures !Final(1_700_000_000, 300, 9)
  {
    hide Final;
    FinalIff(1_700_000_000, 300, 9);
  }

  /**
    A bin that divides the minute is over when it is returned, whatever the
    window: the last slot ends with the window, on the last boundary at or
    before now.
   */
  lemma EveryBinIsClosed(now: int, window: nat, bin: nat)
    requires bin >= 1 && 60 % bin == 0
    ensures var since, end := WindowStart(now, window, bin), WindowEnd(now, bin);
            && end <= now < end + bin && (end - REFERENCE_SECONDS) % bin == 0
            && SlotStart(since, bin, window / bin) == end * 1000
    ensures Final(now, window, bin)
  {
    hide Final;
    var end := WindowEnd(now, bin);
    DividingTheMinuteAligns(now, 0, bin);
    ClosedAtBoundary(WindowStart(now, window, bin), end, window, bin);
    FinalMeansOver(now, window, bin);
    LastIsOver(now, window, bin);
  }

  /** If the window ends on a boundary, so does its last slot. */
  lemma ClosedAtBoundary(since: int, end: int, window: nat, bin: nat)
    requires bin >= 1 && since == end - window && (end - REFERENCE_SECONDS) % bin == 0
    ensures SlotStart(since, bin, window / bin) == end * 1000
  {
    var q, slots := (end - REFERENCE_SECONDS) / bin, window / bin;
    assert end - REFERENCE_SECONDS == q * bin;
    assert window == slots * bin + window % bin;
    assert (slots - q) * bin == slots * bin - q * bin;
    DivisionIsUnique(REFERENCE_SECONDS - since, bin, slots - q);
  }

  // ---- what is stamped earlier --------------------------------------------

  /**
    "Final" ends where back-dating begins. With the bins and the window as
    shipped, an event stamped in any slot that was shown changes its count when
    it arrives afterwards: its stamp lies before the time of the summary.
   */
  lemma LateArrivalIsCounted(docs: seq<Event>, e: Event, only: Option<string>, now: int, i: nat)
    requires Wanted(e, only) && i < 150
    requires var since := WindowStart(now, 300, 2); SlotStart(since, 2, i) <= e.timestamp < SlotStart(since, 2, i + 1)
    ensures Final(now, 300, 2) && e.timestamp < now * 1000
    ensures var since := WindowStart(now, 300, 2);
            var lo, hi := SlotStart(since, 2, i), SlotStart(since, 2, i + 1);
            CountOf(docs + [e], only, e.event_type, lo, hi) == CountOf(docs, only, e.event_type, lo, hi) + 1
  {
    hide Final, SlotStart;
    var since := WindowStart(now, 300, 2);
    EveryBinIsClosed(now, 300, 2);
    SlotsIncrease(since, 2, i + 1, 150);
    CountAppend(docs, [e], only, e.event_type, SlotStart(since, 2, i), SlotStart(since, 2, i + 1));
  }

  /** For one, an event that its client dated ten seconds back. */
  lemma BackDatedInput()
    ensures var now, since := 1_700_000_000, WindowStart(1_700_000_000, 300, 2);
            && StampedAt((now - 10) * 1000).timestamp < now * 1000
            && !SlotStays([], [StampedAt((now - 10) * 1000)], None, "click", now, 300, 2, 145)
  {
    var now, e := 1_700_000_000, StampedAt((1_700_000_000 - 10) * 1000);
    AlignedSlots(WindowStart(now, 300, 2), 2, 145);
    AlignedSlots(WindowStart(now, 300, 2), 2, 146);
    LateArrivalIsCounted([], e, None, now, 145);
  }
}
