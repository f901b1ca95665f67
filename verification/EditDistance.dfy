/**
  Levenshtein distance: the recursive definition the dynamic programme
  computes, and the edit scripts that say what it means.
 */
module EditDistance {

  function Least(a: nat, b: nat, c: nat): nat {
    var m := if a < b then a else b;
    if m < c then m else c
  }

  function Differs(x: char, y: char): nat {
    if x == y then 0 else 1
  }

  /** The table entry for the prefixes `a` and `b`. */
  function Distance(a: string, b: string): nat
    decreases |a| + |b|
  {
    if a == [] then |b|
    else if b == [] then |a|
    else
      var a', b' := a[..|a| - 1], b[..|b| - 1];
      Least(Distance(a', b) + 1,
            Distance(a, b') + 1,
            Distance(a', b') + Differs(a[|a| - 1], b[|b| - 1]))
  }

  // ---- edit scripts -------------------------------------------------------

  datatype Edit =
    | Insert(at: nat, c: char)
    | Delete(at: nat)
    | Replace(at: nat, c: char)

  predicate Applies(s: string, e: Edit) {
    match e
    case Insert(i, _) => i <= |s|
    case Delete(i) => i < |s|
    case Replace(i, _) => i < |s|
  }

  function Apply(s: string, e: Edit): string
    requires Applies(s, e)
  {
    match e
    case Insert(i, c) => s[..i] + [c] + s[i..]
    case Delete(i) => s[..i] + s[i + 1..]
    case Replace(i, c) => s[i := c]
  }

  /** `script` turns `s` into `t`, one edit after the other. */
  predicate Rewrites(s: string, script: seq<Edit>, t: string)
    decreases |script|
  {
    if script == [] then s == t
    else Applies(s, script[0]) && Rewrites(Apply(s, script[0]), script[1..], t)
  }

  // ---- a metric -----------------------------------------------------------

  lemma {:induction false} ZeroIffEqual(a: string, b: string)
    ensures Distance(a, b) == 0 <==> a == b
    decreases |a| + |b|
  {
    if a != [] && b != [] {
      var a', b' := a[..|a| - 1], b[..|b| - 1];
      ZeroIffEqual(a', b');
      assert a == a' + [a[|a| - 1]] && b == b' + [b[|b| - 1]];
    }
  }

  lemma {:induction false} Symmetric(a: string, b: string)
    ensures Distance(a, b) == Distance(b, a)
    decreases |a| + |b|
  {
    if a != [] && b != [] {
      var a', b' := a[..|a| - 1], b[..|b| - 1];
      Symmetric(a', b);
      Symmetric(a, b');
      Symmetric(a', b');
    }
  }

  /** The entry for two prefixes is the least of its three neighbours' offers. */
  lemma Offers(a: string, b: string)
    requires a != [] && b != []
    ensures var a', b', d := a[..|a| - 1], b[..|b| - 1], Distance(a, b);
            var change := Distance(a', b') + Differs(a[|a| - 1], b[|b| - 1]);
            && d <= Distance(a', b) + 1 && d <= Distance(a, b') + 1 && d <= change
            && (d == Distance(a', b) + 1 || d == Distance(a, b') + 1 || d == change)
  {
  }

  lemma {:induction false} Triangle(a: string, b: string, c: string)
    ensures Distance(a, c) <= Distance(a, b) + Distance(b, c)
    decreases |a| + |b| + |c|
  {
    if a == [] || b == [] || c == [] {
      AtLeastLengths(a, b);
      AtLeastLengths(b, c);
      AtMostLengths(a, c);
    } else {
      var a', b', c' := a[..|a| - 1], b[..|b| - 1], c[..|c| - 1];
      Triangle(a', b, c);
      Triangle(a, b, c');
      Triangle(a, b', c);
      Triangle(a, b', c');
      Triangle(a', b', c);
      Triangle(a', b', c');
      hide Distance;
      Offers(a, b);
      Offers(b, c);
      Offers(a, c);
    }
  }

  lemma {:induction false} AtLeastLengths(a: string, b: string)
    ensures Distance(a, b) >= |a| - |b| && Distance(a, b) >= |b| - |a|
    decreases |a| + |b|
  {
    if a != [] && b != [] {
      var a', b' := a[..|a| - 1], b[..|b| - 1];
      AtLeastLengths(a', b);
      AtLeastLengths(a, b');
      AtLeastLengths(a', b');
    }
  }

  lemma {:induction false} AtMostLengths(a: string, b: string)
    ensures Distance(a, b) <= |a| + |b|
    decreases |a| + |b|
  {
    if a != [] && b != [] {
      AtMostLengths(a[..|a| - 1], b);
    }
  }

  // ---- the least edit script ----------------------------------------------

  lemma SameLast(a: string, b: string, c: char)
    ensures Distance(a + [c], b + [c]) <= Distance(a, b)
  {
    assert (a + [c])[..|a|] == a && (b + [c])[..|b|] == b;
  }

  /** Appending the same text to both sides never makes them further apart. */
  lemma {:induction false} SameTail(a: string, b: string, tail: string)
    ensures Distance(a + tail, b + tail) <= Distance(a, b)
    decreases |tail|
  {
    hide Distance;
    if tail == [] {
      assert a + tail == a && b + tail == b;
    } else {
      SameLast(a, b, tail[0]);
      SameTail(a + [tail[0]], b + [tail[0]], tail[1..]);
      assert a + [tail[0]] + tail[1..] == a + tail;
      assert b + [tail[0]] + tail[1..] == b + tail;
    }
  }

  lemma OneEditIsClose(s: string, e: Edit)
    requires Applies(s, e)
    ensures Distance(s, Apply(s, e)) <= 1
  {
    hide Distance;
    match e
    case Insert(i, c) =>
      LastInserted(s[..i], c);
      SameTail(s[..i], s[..i] + [c], s[i..]);
      assert s[..i] + s[i..] == s;
    case Delete(i) =>
      LastInserted(s[..i], s[i]);
      Symmetric(s[..i], s[..i] + [s[i]]);
      SameTail(s[..i] + [s[i]], s[..i], s[i + 1..]);
      assert s[..i] + [s[i]] + s[i + 1..] == s;
    case Replace(i, c) =>
      LastReplaced(s[..i], s[i], c);
      SameTail(s[..i] + [s[i]], s[..i] + [c], s[i + 1..]);
      assert s[..i] + [s[i]] + s[i + 1..] == s;
      assert s[..i] + [c] + s[i + 1..] == s[i := c];
  }

  lemma LastInserted(s: string, c: char)
    ensures Distance(s, s + [c]) <= 1
  {
    ZeroIffEqual(s, s);
    assert (s + [c])[..|s|] == s;
  }

  lemma LastReplaced(s: string, c: char, d: char)
    ensures Distance(s + [c], s + [d]) <= 1
  {
    ZeroIffEqual(s, s);
    assert (s + [c])[..|s|] == s && (s + [d])[..|s|] == s;
  }

  /** No script is shorter than the distance. */
  lemma {:induction false} NoShorterScript(s: string, script: seq<Edit>, t: string)
    requires Rewrites(s, script, t)
    ensures Distance(s, t) <= |script|
    decreases |script|
  {
    if script == [] {
      ZeroIffEqual(s, t);
    } else {
      var u := Apply(s, script[0]);
      NoShorterScript(u, script[1..], t);
      OneEditIsClose(s, script[0]);
      Triangle(s, u, t);
    }
  }

  lemma EditWithTail(s: string, e: Edit, tail: string)
    requires Applies(s, e)
    ensures Applies(s + tail, e) && Apply(s + tail, e) == Apply(s, e) + tail
  {
    match e
    case Insert(i, c) =>
      assert (s + tail)[..i] == s[..i] && (s + tail)[i..] == s[i..] + tail;
      assert s[..i] + [c] + (s[i..] + tail) == s[..i] + [c] + s[i..] + tail;
    case Delete(i) =>
      assert (s + tail)[..i] == s[..i] && (s + tail)[i + 1..] == s[i + 1..] + tail;
      assert s[..i] + (s[i + 1..] + tail) == s[..i] + s[i + 1..] + tail;
    case Replace(i, c) =>
      assert (s + tail)[i := c] == s[i := c] + tail;
  }

  /** A script carries over when both ends get the same tail. */
  lemma {:induction false} ScriptWithTail(s: string, script: seq<Edit>, t: string, tail: string)
    requires Rewrites(s, script, t)
    ensures Rewrites(s + tail, script, t + tail)
    decreases |script|
  {
    hide Apply, Applies;
    if script != [] {
      EditWithTail(s, script[0], tail);
      ScriptWithTail(Apply(s, script[0]), script[1..], t, tail);
    }
  }

  lemma {:induction false} OneMore(s: string, script: seq<Edit>, t: string, e: Edit)
    requires Rewrites(s, script, t) && Applies(t, e)
    ensures Rewrites(s, script + [e], Apply(t, e))
    decreases |script|
  {
    if script != [] {
      OneMore(Apply(s, script[0]), script[1..], t, e);
      assert (script + [e])[1..] == script[1..] + [e];
    } else {
      assert (script + [e])[1..] == [];
    }
  }

  lemma InsertLast(a: string, script: seq<Edit>, b: string)
    requires b != [] && Rewrites(a, script, b[..|b| - 1])
    ensures Rewrites(a, script + [Insert(|b| - 1, b[|b| - 1])], b)
  {
    hide Rewrites;
    var n := |b| - 1;
    OneMore(a, script, b[..n], Insert(n, b[n]));
    assert b[..n][..n] + [b[n]] + b[..n][n..] == b;
  }

  lemma DeleteLast(a: string, script: seq<Edit>, b: string)
    requires a != [] && Rewrites(a[..|a| - 1], script, b)
    ensures Rewrites(a, script + [Delete(|b|)], b)
  {
    hide Rewrites;
    var n := |a| - 1;
    ScriptWithTail(a[..n], script, b, [a[n]]);
    assert a[..n] + [a[n]] == a;
    OneMore(a, script, b + [a[n]], Delete(|b|));
    assert (b + [a[n]])[..|b|] + (b + [a[n]])[|b| + 1..] == b;
  }

  lemma KeepLast(a: string, script: seq<Edit>, b: string)
    requires a != [] && b != [] && Rewrites(a[..|a| - 1], script, b[..|b| - 1])
    ensures a[|a| - 1] == b[|b| - 1] ==> Rewrites(a, script, b)
    ensures Rewrites(a, script + [Replace(|b| - 1, b[|b| - 1])], b)
  {
    hide Rewrites;
    var n, m := |a| - 1, |b| - 1;
    ScriptWithTail(a[..n], script, b[..m], [a[n]]);
    assert a[..n] + [a[n]] == a;
    assert b[..m] + [b[m]] == b;
    OneMore(a, script, b[..m] + [a[n]], Replace(m, b[m]));
    assert (b[..m] + [a[n]])[m := b[m]] == b;
  }

  /** A script of exactly that length exists. */
  lemma {:induction false} ScriptOfThatLength(a: string, b: string) returns (script: seq<Edit>)
    ensures Rewrites(a, script, b) && |script| == Distance(a, b)
    decreases |a| + |b|
  {
    hide Rewrites;
    if a == [] && b == [] {
      script := [];
      NothingToDo(a);
    } else if a == [] || (b != [] && Distance(a, b) == Distance(a, b[..|b| - 1]) + 1) {
      script := ScriptOfThatLength(a, b[..|b| - 1]);
      InsertLast(a, script, b);
      script := script + [Insert(|b| - 1, b[|b| - 1])];
    } else if b == [] || Distance(a, b) == Distance(a[..|a| - 1], b) + 1 {
      script := ScriptOfThatLength(a[..|a| - 1], b);
      DeleteLast(a, script, b);
      script := script + [Delete(|b|)];
    } else {
      script := ScriptOfThatLength(a[..|a| - 1], b[..|b| - 1]);
      KeepLast(a, script, b);
      if a[|a| - 1] != b[|b| - 1] {
        script := script + [Replace(|b| - 1, b[|b| - 1])];
      }
    }
  }

  lemma NothingToDo(a: string)
    ensures Rewrites(a, [], a)
  {
  }

  /** The distance is the length of a shortest edit script. */
  lemma DistanceIsLeastScript(a: string, b: string)
    ensures exists script :: Rewrites(a, script, b) && |script| == Distance(a, b)
    ensures forall script :: Rewrites(a, script, b) ==> Distance(a, b) <= |script|
  {
    var script := ScriptOfThatLength(a, b);
    forall other | Rewrites(a, other, b) ensures Distance(a, b) <= |other| {
      NoShorterScript(a, other, b);
    }
  }
}
