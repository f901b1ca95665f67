/**
  The search box's correction: the iterative distance with its single row, and
  the nearest of the values that the hits carry. `trim` and `toLowerCase` are
  the host's; they are parameters, and everything holds whatever they do.
 */
module Correction {
  import opened Sequences
  import opened EditDistance

  const MAX_EDITS: nat := 2

  /** A metadata value; only the strings matter. */
  datatype Value = Text(s: string) | Other

  /** `metadata` is None when the event carries none. */
  datatype Hit = Hit(event_type: string, user_id: string, metadata: Option<seq<Value>>)

  /** Row `i` of the table, up to column `n`. */
  ghost predicate IsRow(row: seq<nat>, a: string, i: nat, b: string, n: nat)
    requires i <= |a| && n <= |b|
  {
    |row| == n + 1 && forall j :: 0 <= j <= n ==> row[j] == Distance(a[..i], b[..j])
  }

  lemma Cell(a: string, i: nat, b: string, j: nat)
    requires 1 <= i <= |a| && 1 <= j <= |b|
    ensures Distance(a[..i], b[..j])
         == Least(Distance(a[..i - 1], b[..j]) + 1,
                  Distance(a[..i], b[..j - 1]) + 1,
                  Distance(a[..i - 1], b[..j - 1]) + Differs(a[i - 1], b[j - 1]))
  {
    assert a[..i][..i - 1] == a[..i - 1] && b[..j][..j - 1] == b[..j - 1];
  }

  lemma Edge(a: string, b: string)
    ensures Distance([], b) == |b| && Distance(a, []) == |a|
  {
  }

  method FirstRow(a: string, b: string) returns (row: seq<nat>)
    ensures IsRow(row, a, 0, b, |b|)
  {
    row := [0];
    for j := 1 to |b| + 1
      invariant IsRow(row, a, 0, b, j - 1)
    {
      row := row + [j];
    }
  }

  method NextRow(a: string, i: nat, b: string, prev: seq<nat>) returns (row: seq<nat>)
    requires 1 <= i <= |a| && IsRow(prev, a, i - 1, b, |b|)
    ensures IsRow(row, a, i, b, |b|)
  {
    hide Distance;
    Edge(a[..i], []);
    row := [i];
    for j := 1 to |b| + 1
      invariant IsRow(row, a, i, b, j - 1)
    {
      Cell(a, i, b, j);
      row := row + [Least(prev[j] + 1, row[j - 1] + 1, prev[j - 1] + Differs(a[i - 1], b[j - 1]))];
    }
  }

  /** The dynamic programme computes the length of a shortest edit script. */
  method ComputeDistance(a: string, b: string) returns (d: nat)
    ensures d == Distance(a, b)
    ensures exists script :: Rewrites(a, script, b) && |script| == d
    ensures forall script :: Rewrites(a, script, b) ==> d <= |script|
  {
    hide Distance, Rewrites;
    DistanceIsLeastScript(a, b);
    if a == b {
      ZeroIffEqual(a, b);
      return 0;
    }
    var prev := FirstRow(a, b);
    for i := 1 to |a| + 1
      invariant IsRow(prev, a, i - 1, b, |b|)
    {
      prev := NextRow(a, i, b, prev);
    }
    assert a[..|a|] == a && b[..|b|] == b;
    d := prev[|b|];
  }

  // ---- the candidates -----------------------------------------------------

  /** `Set.add`: a value keeps the place of its first insertion. */
  function Add(set_: seq<string>, s: string): seq<string> {
    if s in set_ then set_ else set_ + [s]
  }

  function MetadataTexts(m: Option<seq<Value>>): seq<string> {
    match m
    case None => []
    case Some(vs) => Texts(vs)
  }

  /** The strings a hit carries, in the order the code visits them. */
  function Strings(h: Hit): seq<string> {
    [h.event_type, h.user_id] + MetadataTexts(h.metadata)
  }

  function Texts(vs: seq<Value>): seq<string> {
    if vs == [] then []
    else
      var before := Texts(vs[..|vs| - 1]);
      match vs[|vs| - 1]
      case Text(s) => before + [s]
      case Other => before
  }

  function AllStrings(items: seq<Hit>): seq<string> {
    if items == [] then [] else AllStrings(items[..|items| - 1]) + Strings(items[|items| - 1])
  }

  /** The distinct elements of `s`, each where it first occurs. */
  function FirstOccurrences(s: seq<string>): (r: seq<string>)
    ensures forall x :: x in r <==> x in s
    ensures Distinct(r)
  {
    if s == [] then [] else Add(FirstOccurrences(s[..|s| - 1]), s[|s| - 1])
  }

  function Lowered(s: seq<string>, lower: string -> string): (r: seq<string>)
    ensures |r| == |s| && forall i :: 0 <= i < |s| ==> r[i] == lower(s[i])
  {
    seq(|s|, i requires 0 <= i < |s| => lower(s[i]))
  }

  /** The candidate values, in the order of the host's Set. */
  function Candidates(items: seq<Hit>, lower: string -> string): seq<string> {
    FirstOccurrences(Lowered(AllStrings(items), lower))
  }

  lemma AddLowered(s: seq<string>, x: string, lower: string -> string)
    ensures FirstOccurrences(Lowered(s + [x], lower)) == Add(FirstOccurrences(Lowered(s, lower)), lower(x))
  {
    assert Lowered(s + [x], lower) == Lowered(s, lower) + [lower(x)];
    assert (Lowered(s, lower) + [lower(x)])[..|s|] == Lowered(s, lower);
  }

  /** Earlier in the result means first seen earlier. */
  lemma {:induction false} OrderOfFirstOccurrence(s: seq<string>, i: nat, j: nat) returns (k: nat)
    requires i < j < |FirstOccurrences(s)|
    ensures k < |s| && s[k] == FirstOccurrences(s)[i] && FirstOccurrences(s)[j] !in s[..k + 1]
  {
    var n := |s| - 1;
    var before := FirstOccurrences(s[..n]);
    if j < |before| {
      k := OrderOfFirstOccurrence(s[..n], i, j);
      assert s[..n][..k + 1] == s[..k + 1];
    } else {
      assert before[i] in s[..n];
      k :| 0 <= k < n && s[..n][k] == before[i];
      forall x | x in s[..k + 1] ensures x in before {
        assert x in s[..n];
      }
    }
  }

  /** The loops that fill the Set. */
  method CollectCandidates(items: seq<Hit>, lower: string -> string) returns (set_: seq<string>)
    ensures set_ == Candidates(items, lower)
  {
    hide FirstOccurrences, Lowered, Strings;
    set_ := [];
    NoStrings(lower);
    for k := 0 to |items|
      invariant set_ == FirstOccurrences(Lowered(AllStrings(items[..k]), lower))
    {
      set_ := AddHit(set_, AllStrings(items[..k]), items[k], lower);
      assert items[..k + 1][..k] == items[..k];
    }
    assert items[..|items|] == items;
  }

  lemma NoStrings(lower: string -> string)
    ensures FirstOccurrences(Lowered([], lower)) == []
  {
  }

  method AddHit(set0: seq<string>, ghost seen: seq<string>, h: Hit, lower: string -> string)
    returns (set_: seq<string>)
    requires set0 == FirstOccurrences(Lowered(seen, lower))
    ensures set_ == FirstOccurrences(Lowered(seen + Strings(h), lower))
  {
    hide FirstOccurrences, Lowered, Add;
    AddLowered(seen, h.event_type, lower);
    set_ := Add(set0, lower(h.event_type));
    AddLowered(seen + [h.event_type], h.user_id, lower);
    set_ := Add(set_, lower(h.user_id));
    set_ := AddTexts(set_, seen + [h.event_type] + [h.user_id], h.metadata, lower);
    assert seen + [h.event_type] + [h.user_id] + MetadataTexts(h.metadata) == seen + Strings(h);
  }

  method AddTexts(set0: seq<string>, ghost seen: seq<string>, metadata: Option<seq<Value>>, lower: string -> string)
    returns (set_: seq<string>)
    requires set0 == FirstOccurrences(Lowered(seen, lower))
    ensures set_ == FirstOccurrences(Lowered(seen + MetadataTexts(metadata), lower))
  {
    hide FirstOccurrences, Lowered, Add;
    set_ := set0;
    var vs := if metadata.Some? then metadata.value else [];
    assert seen + [] == seen;
    for k := 0 to |vs|
      invariant set_ == FirstOccurrences(Lowered(seen + Texts(vs[..k]), lower))
    {
      assert vs[..k + 1][..k] == vs[..k];
      if vs[k].Text? {
        AddLowered(seen + Texts(vs[..k]), vs[k].s, lower);
        set_ := Add(set_, lower(vs[k].s));
        assert seen + Texts(vs[..k]) + [vs[k].s] == seen + Texts(vs[..k + 1]);
      }
    }
    assert vs[..|vs|] == vs;
  }

  // ---- what the candidates are, told from the hits ------------------------

  /**
    Hit `h` carries `x`, in lower case, at place `p`: its type is at place 0, its
    user at place 1, the values of its metadata follow.
   */
  predicate Carries(items: seq<Hit>, lower: string -> string, x: string, h: nat, p: nat) {
    && h < |items|
    && if p == 0 then x == lower(items[h].event_type)
       else if p == 1 then x == lower(items[h].user_id)
       else
         && items[h].metadata.Some? && p - 2 < |items[h].metadata.value|
         && items[h].metadata.value[p - 2].Text? && x == lower(items[h].metadata.value[p - 2].s)
  }

  ghost predicate Carried(items: seq<Hit>, lower: string -> string, x: string) {
    exists h: nat, p: nat :: Carries(items, lower, x, h, p)
  }

  predicate Earlier(h: nat, p: nat, h': nat, p': nat) {
    h < h' || (h == h' && p < p')
  }

  /** `x` is carried somewhere before every place that carries `y`. */
  ghost predicate SeenBefore(items: seq<Hit>, lower: string -> string, x: string, y: string) {
    exists h: nat, p: nat :: Carries(items, lower, x, h, p) &&
      forall h': nat, p': nat :: Carries(items, lower, y, h', p') ==> Earlier(h, p, h', p')
  }

  /** How many strings are visited before place `p` of hit `h`. */
  function Visited(items: seq<Hit>, h: nat, p: nat): nat
    requires h < |items|
  {
    |AllStrings(items[..h])| +
    if p < 2 then p
    else if items[h].metadata.None? || p - 2 > |items[h].metadata.value| then 2
    else 2 + |Texts(items[h].metadata.value[..p - 2])|
  }

  lemma {:induction false} TextsPrefix(vs: seq<Value>, j: nat)
    requires j < |vs| && vs[j].Text?
    ensures |Texts(vs[..j])| < |Texts(vs)| && Texts(vs)[|Texts(vs[..j])|] == vs[j].s
    decreases |vs|
  {
    var n := |vs| - 1;
    if j < n {
      TextsPrefix(vs[..n], j);
      assert vs[..n][..j] == vs[..j];
    }
  }

  lemma {:induction false} StringsGrow(items: seq<Hit>, h: nat, h': nat)
    requires h <= h' <= |items|
    ensures |AllStrings(items[..h])| <= |AllStrings(items[..h'])|
    decreases h'
  {
    hide Strings;
    if h < h' {
      StringsGrow(items, h, h' - 1);
      assert items[..h'][..h' - 1] == items[..h' - 1];
    }
  }

  /** The strings of hit `h` stand together, behind those of the hits before it. */
  lemma {:induction false} StringsOfHit(items: seq<Hit>, h: nat, k: nat)
    requires h < |items| && k < |Strings(items[h])|
    ensures var at := |AllStrings(items[..h])| + k;
            at < |AllStrings(items)| && AllStrings(items)[at] == Strings(items[h])[k]
    ensures |AllStrings(items[..h + 1])| == |AllStrings(items[..h])| + |Strings(items[h])|
    decreases |items|
  {
    hide Strings;
    var n := |items| - 1;
    assert items[..h + 1][..h] == items[..h];
    if h < n {
      StringsOfHit(items[..n], h, k);
      assert items[..n][..h] == items[..h];
    }
  }

  /** What a hit carries at place `p` is the string of that number. */
  lemma CarriedIsAString(items: seq<Hit>, lower: string -> string, x: string, h: nat, p: nat) returns (k: nat)
    requires Carries(items, lower, x, h, p)
    ensures h < |items| && k < |Strings(items[h])| && lower(Strings(items[h])[k]) == x
    ensures Visited(items, h, p) == |AllStrings(items[..h])| + k
  {
    hide AllStrings;
    if p < 2 {
      k := p;
    } else {
      var vs := items[h].metadata.value;
      TextsPrefix(vs, p - 2);
      k := 2 + |Texts(vs[..p - 2])|;
    }
  }

  /** What is carried is visited, at its place. */
  lemma CarriedIsVisited(items: seq<Hit>, lower: string -> string, x: string, h: nat, p: nat)
    requires Carries(items, lower, x, h, p)
    ensures h < |items|
    ensures var k := Visited(items, h, p);
            && k < |AllStrings(items)| && lower(AllStrings(items)[k]) == x
            && k < |AllStrings(items[..h + 1])|
  {
    hide AllStrings, Strings, Visited;
    var k := CarriedIsAString(items, lower, x, h, p);
    hide Carries;
    StringsOfHit(items, h, k);
  }

  lemma VisitedInOrder(
    items: seq<Hit>, lower: string -> string, x: string, h: nat, p: nat, y: string, h': nat, p': nat)
    requires Carries(items, lower, x, h, p) && Carries(items, lower, y, h', p') && Earlier(h, p, h', p')
    ensures Visited(items, h, p) < Visited(items, h', p')
  {
    hide AllStrings;
    CarriedIsVisited(items, lower, x, h, p);
    if h < h' {
      StringsGrow(items, h + 1, h');
    } else if p >= 2 {
      var vs := items[h].metadata.value;
      TextsPrefix(vs[..p' - 2], p - 2);
      assert vs[..p' - 2][..p - 2] == vs[..p - 2];
    }
  }

  lemma {:induction false} TextAt(vs: seq<Value>, k: nat) returns (j: nat)
    requires k < |Texts(vs)|
    ensures j < |vs| && vs[j].Text? && vs[j].s == Texts(vs)[k] && |Texts(vs[..j])| == k
  {
    var n := |vs| - 1;
    if k < |Texts(vs[..n])| {
      j := TextAt(vs[..n], k);
      assert vs[..n][..j] == vs[..j];
    } else {
      j := n;
    }
  }

  /** And what is visited is carried, at that place. */
  lemma {:induction false} VisitedIsCarried(items: seq<Hit>, lower: string -> string, k: nat) returns (h: nat, p: nat)
    requires k < |AllStrings(items)|
    ensures Carries(items, lower, lower(AllStrings(items)[k]), h, p) && Visited(items, h, p) == k
  {
    var n := |items| - 1;
    var before := AllStrings(items[..n]);
    if k < |before| {
      h, p := VisitedIsCarried(items[..n], lower, k);
      assert items[..n][..h] == items[..h];
    } else {
      h := n;
      p := StringAt(items, lower, n, k - |before|);
    }
  }

  lemma StringAt(items: seq<Hit>, lower: string -> string, h: nat, k: nat) returns (p: nat)
    requires h < |items| && k < |Strings(items[h])|
    ensures Carries(items, lower, lower(Strings(items[h])[k]), h, p)
    ensures Visited(items, h, p) == |AllStrings(items[..h])| + k
  {
    hide AllStrings;
    if k < 2 {
      p := k;
    } else {
      var j := TextAt(items[h].metadata.value, k - 2);
      p := j + 2;
    }
  }

  /** The candidates are the lowered types, users and texts that the hits carry, and nothing else. */
  lemma CandidatesAreCarried(items: seq<Hit>, lower: string -> string, x: string)
    ensures x in Candidates(items, lower) <==> Carried(items, lower, x)
  {
    hide FirstOccurrences, AllStrings, Carries;
    var all := AllStrings(items);
    if x in Lowered(all, lower) {
      var k :| 0 <= k < |all| && Lowered(all, lower)[k] == x;
      var h, p := VisitedIsCarried(items, lower, k);
      assert Carries(items, lower, x, h, p);
    }
    if Carried(items, lower, x) {
      var h: nat, p: nat :| Carries(items, lower, x, h, p);
      CarriedIsVisited(items, lower, x, h, p);
      assert Lowered(all, lower)[Visited(items, h, p)] == x;
    }
  }

  lemma NotAmongFirst(s: seq<string>, n: nat, k: nat)
    requires n <= |s| && k < |s| && s[k] !in s[..n]
    ensures k >= n
  {
    assert forall m :: 0 <= m < n ==> s[..n][m] == s[m];
  }

  /** They stand in the order of their first sighting: by hit, then type, user and metadata in order. */
  lemma CandidatesInOrder(items: seq<Hit>, lower: string -> string, i: nat, j: nat)
    requires i < j < |Candidates(items, lower)|
    ensures SeenBefore(items, lower, Candidates(items, lower)[i], Candidates(items, lower)[j])
  {
    hide FirstOccurrences, AllStrings, Carries, Visited;
    var c, low := Candidates(items, lower), Lowered(AllStrings(items), lower);
    var k := OrderOfFirstOccurrence(low, i, j);
    var h, p := VisitedIsCarried(items, lower, k);
    forall h': nat, p': nat | Carries(items, lower, c[j], h', p') ensures Earlier(h, p, h', p') {
      CarriedIsVisited(items, lower, c[j], h', p');
      var k' := Visited(items, h', p');
      assert low[k'] == c[j];
      NotAmongFirst(low, k + 1, k');
      if !Earlier(h, p, h', p') && (h, p) != (h', p') {
        VisitedInOrder(items, lower, c[j], h', p', c[i], h, p);
      }
    }
  }

  // ---- the correction -----------------------------------------------------

  /** `c[k]` is the first of the candidates closest to `typed`. */
  ghost predicate FirstClosest(typed: string, c: seq<string>, k: nat)
    requires k < |c|
  {
    && (forall j :: 0 <= j < k ==> Distance(typed, c[j]) > Distance(typed, c[k]))
    && (forall j :: k <= j < |c| ==> Distance(typed, c[j]) >= Distance(typed, c[k]))
  }

  /** `x` is carried, and of what is carried the closest; of several as close, the first seen. */
  ghost predicate Nearest(items: seq<Hit>, lower: string -> string, typed: string, x: string) {
    && Carried(items, lower, x)
    && forall y :: Carried(items, lower, y) && y != x ==>
         || Distance(typed, y) > Distance(typed, x)
         || (Distance(typed, y) == Distance(typed, x) && SeenBefore(items, lower, x, y))
  }

  lemma FirstClosestIsNearest(items: seq<Hit>, lower: string -> string, typed: string, k: nat)
    requires k < |Candidates(items, lower)| && FirstClosest(typed, Candidates(items, lower), k)
    ensures Nearest(items, lower, typed, Candidates(items, lower)[k])
  {
    hide Distance, Carried, Candidates, SeenBefore;
    var c := Candidates(items, lower);
    CandidatesAreCarried(items, lower, c[k]);
    forall y | Carried(items, lower, y) && y != c[k]
      ensures || Distance(typed, y) > Distance(typed, c[k])
              || (Distance(typed, y) == Distance(typed, c[k]) && SeenBefore(items, lower, c[k], y))
    {
      CandidatesAreCarried(items, lower, y);
      var j :| 0 <= j < |c| && c[j] == y;
      if j > k {
        CandidatesInOrder(items, lower, k, j);
      }
    }
  }

  /**
    Nothing to correct when nothing was typed, when a hit carries exactly what
    was typed, or when all that the hits carry is more than two edits away;
    otherwise the nearest.
   */
  method CorrectionFor(query: string, items: seq<Hit>, trim: string -> string, lower: string -> string)
    returns (r: Option<string>)
    ensures var typed := lower(trim(query));
            && (r.None? <==>
                  || typed == "" || Carried(items, lower, typed)
                  || forall x :: Carried(items, lower, x) ==> Distance(typed, x) > MAX_EDITS)
            && (r.Some? ==> Nearest(items, lower, typed, r.value) && 1 <= Distance(typed, r.value) <= MAX_EDITS)
  {
    hide Distance, Rewrites, Candidates, Carried, Nearest;
    var typed := lower(trim(query));
    if typed == "" {
      return None;
    }
    var c := CollectCandidates(items, lower);
    forall x ensures x in c <==> Carried(items, lower, x) {
      CandidatesAreCarried(items, lower, x);
    }
    if typed in c {
      return None;
    }
    var best, bestDistance := None, None;
    ghost var at := 0;
    for k := 0 to |c|
      invariant k == 0 <==> bestDistance.None?
      invariant bestDistance.Some? ==> at < k && best == Some(c[at]) && bestDistance.value == Distance(typed, c[at])
      invariant forall j :: 0 <= j < at ==> bestDistance.Some? && Distance(typed, c[j]) > bestDistance.value
      invariant forall j :: at <= j < k ==> bestDistance.Some? && Distance(typed, c[j]) >= bestDistance.value
    {
      var d := ComputeDistance(typed, c[k]);
      if bestDistance.None? || d < bestDistance.value {
        bestDistance, best, at := Some(d), Some(c[k]), k;
      }
    }
    if bestDistance.Some? && bestDistance.value <= MAX_EDITS {
      ZeroIffEqual(typed, c[at]);
      assert FirstClosest(typed, c, at);
      FirstClosestIsNearest(items, lower, typed, at);
      assert c[at] in c && Carried(items, lower, c[at]);
      return best;
    }
    r := None;
  }
}
