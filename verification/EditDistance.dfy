/** Levenshtein distance by a two-row table, against single-element edit scripts. */
module EditDistances {

  // ---------------------------------------------------------------- edit scripts

  datatype Edit<T> =
    | Insert(at: nat, item: T)
    | Delete(at: nat)
    | Substitute(at: nat, item: T)

  predicate CanApply<T>(e: Edit<T>, s: seq<T>) {
    if e.Insert? then e.at <= |s| else e.at < |s|
  }

  function Apply<T>(e: Edit<T>, s: seq<T>): seq<T>
    requires CanApply(e, s)
  {
    match e
    case Insert(at, item) => s[..at] + [item] + s[at..]
    case Delete(at) => s[..at] + s[at + 1..]
    case Substitute(at, item) => s[..at] + [item] + s[at + 1..]
  }

  /** Running the edits in order turns `s` into `t`. */
  ghost predicate Transforms<T>(script: seq<Edit<T>>, s: seq<T>, t: seq<T>) {
    if script == [] then s == t
    else CanApply(script[0], s) && Transforms(script[1..], Apply(script[0], s), t)
  }

  // ---------------------------------------------------------------- the recurrence of the table

  function Min(a: nat, b: nat): nat {
    if a < b then a else b
  }

  function Cost<T(==)>(x: T, y: T): nat {
    if x == y then 0 else 1
  }

  function Init<T>(s: seq<T>): seq<T>
    requires s != []
  {
    s[..|s| - 1]
  }

  function Last<T>(s: seq<T>): T
    requires s != []
  {
    s[|s| - 1]
  }

  function Dist<T(==)>(s: seq<T>, t: seq<T>): nat
    decreases |s| + |t|
  {
    if s == [] then |t|
    else if t == [] then |s|
    else Min(Min(Dist(s, Init(t)), Dist(Init(s), t)) + 1, Dist(Init(s), Init(t)) + Cost(Last(s), Last(t)))
  }

  lemma {:induction false} DistIsSymmetric<T>(s: seq<T>, t: seq<T>)
    ensures Dist(s, t) == Dist(t, s)
    decreases |s| + |t|
  {
    if s != [] && t != [] {
      DistIsSymmetric(s, Init(t));
      DistIsSymmetric(Init(s), t);
      DistIsSymmetric(Init(s), Init(t));
    }
  }

  lemma {:induction false} DistIsZeroOnlyOnEqual<T>(s: seq<T>, t: seq<T>)
    ensures Dist(s, t) == 0 <==> s == t
    decreases |s| + |t|
  {
    if s != [] && t != [] {
      DistIsZeroOnlyOnEqual(Init(s), Init(t));
      assert s == Init(s) + [Last(s)] && t == Init(t) + [Last(t)];
    }
  }

  lemma {:induction false} DistTriangle<T>(s: seq<T>, t: seq<T>, u: seq<T>)
    ensures Dist(s, u) <= Dist(s, t) + Dist(t, u)
    decreases |s| + |t| + |u|
  {
    if s == [] {
      DistIsAtLeastLengthGap(t, u);
    } else if u == [] {
      DistIsAtLeastLengthGap(s, t);
    } else if t == [] {
      DistIsAtMostSum(s, u);
    } else {
      DistTriangle(Init(s), t, u);
      DistTriangle(s, t, Init(u));
      DistTriangle(s, Init(t), u);
      DistTriangle(s, Init(t), Init(u));
      DistTriangle(Init(s), Init(t), u);
      DistTriangle(Init(s), Init(t), Init(u));
    }
  }

  lemma {:induction false} DistIsAtLeastLengthGap<T>(s: seq<T>, t: seq<T>)
    ensures Dist(s, t) >= |s| - |t| && Dist(s, t) >= |t| - |s|
    decreases |s| + |t|
  {
    if s != [] && t != [] {
      DistIsAtLeastLengthGap(s, Init(t));
      DistIsAtLeastLengthGap(Init(s), t);
      DistIsAtLeastLengthGap(Init(s), Init(t));
    }
  }

  lemma {:induction false} DistIsAtMostSum<T>(s: seq<T>, t: seq<T>)
    ensures Dist(s, t) <= |s| + |t|
    decreases |s| + |t|
  {
    if s != [] && t != [] {
      DistIsAtMostSum(Init(s), t);
    }
  }

  // ---------------------------------------------------------------- no script is shorter

  lemma {:induction false} CommonTailKeepsDist<T>(s: seq<T>, t: seq<T>, tail: seq<T>)
    ensures Dist(s + tail, t + tail) <= Dist(s, t)
    decreases |tail|
  {
    if tail == [] {
      assert s + tail == s && t + tail == t;
    } else {
      CommonTailKeepsDist(s, t, Init(tail));
      assert Init(s + tail) == s + Init(tail) && Init(t + tail) == t + Init(tail);
    }
  }

  lemma DistOfDelete<T>(p: seq<T>, x: T, tail: seq<T>)
    ensures Dist(p + [x] + tail, p + tail) <= 1
  {
    DistIsZeroOnlyOnEqual(p, p);
    assert Init(p + [x]) == p;
    assert Dist(p + [x], p) <= 1;
    CommonTailKeepsDist(p + [x], p, tail);
  }

  lemma DistOfSubstitute<T>(p: seq<T>, x: T, y: T, tail: seq<T>)
    ensures Dist(p + [x] + tail, p + [y] + tail) <= 1
  {
    DistIsZeroOnlyOnEqual(p, p);
    assert Init(p + [x]) == p && Init(p + [y]) == p;
    assert Dist(p + [x], p + [y]) <= 1;
    CommonTailKeepsDist(p + [x], p + [y], tail);
  }

  lemma OneEditCostsAtMostOne<T>(e: Edit<T>, s: seq<T>)
    requires CanApply(e, s)
    ensures Dist(s, Apply(e, s)) <= 1
  {
    var p, tail := s[..e.at], s[e.at..];
    assert s == p + tail;
    if e.Insert? {
      DistOfDelete(p, e.item, tail);
      DistIsSymmetric(s, Apply(e, s));
    } else {
      assert tail == [s[e.at]] + s[e.at + 1..];
      assert s == p + [s[e.at]] + s[e.at + 1..];
      if e.Delete? {
        DistOfDelete(p, s[e.at], s[e.at + 1..]);
      } else {
        DistOfSubstitute(p, s[e.at], e.item, s[e.at + 1..]);
      }
    }
  }

  lemma {:induction false} NoScriptIsShorter<T>(script: seq<Edit<T>>, s: seq<T>, t: seq<T>)
    requires Transforms(script, s, t)
    ensures Dist(s, t) <= |script|
  {
    if script == [] {
      DistIsZeroOnlyOnEqual(s, t);
    } else {
      var next := Apply(script[0], s);
      NoScriptIsShorter(script[1..], next, t);
      OneEditCostsAtMostOne(script[0], s);
      DistTriangle(s, next, t);
    }
  }

  // ---------------------------------------------------------------- some script is that short

  /** A script works unchanged in front of a common tail. */
  lemma {:induction false} TransformsBeforeTail<T>(script: seq<Edit<T>>, s: seq<T>, t: seq<T>, tail: seq<T>)
    requires Transforms(script, s, t)
    ensures Transforms(script, s + tail, t + tail)
  {
    if script != [] {
      var e := script[0];
      assert Apply(e, s + tail) == Apply(e, s) + tail;
      TransformsBeforeTail(script[1..], Apply(e, s), t, tail);
    }
  }

  lemma {:induction false} TransformsThen<T>(script: seq<Edit<T>>, s: seq<T>, t: seq<T>, e: Edit<T>)
    requires Transforms(script, s, t) && CanApply(e, t)
    ensures Transforms(script + [e], s, Apply(e, t))
  {
    if script == [] {
      assert script + [e] == [e] && [e][1..] == [];
    } else {
      TransformsThen(script[1..], Apply(script[0], s), t, e);
      assert (script + [e])[1..] == script[1..] + [e];
    }
  }

  /** Some script of `n` edits turns `s` into `t`. */
  ghost predicate InEdits<T(!new)>(s: seq<T>, t: seq<T>, n: nat) {
    exists script :: Transforms(script, s, t) && |script| == n
  }

  lemma OneMoreEdit<T(!new)>(s: seq<T>, mid: seq<T>, t: seq<T>, n: nat, e: Edit<T>)
    requires InEdits(s, mid, n) && CanApply(e, mid) && Apply(e, mid) == t
    ensures InEdits(s, t, n + 1)
  {
    var script :| Transforms(script, s, mid) && |script| == n;
    TransformsThen(script, s, mid, e);
    assert |script + [e]| == n + 1;
  }

  lemma SameEditsBeforeTail<T(!new)>(s: seq<T>, t: seq<T>, n: nat, tail: seq<T>)
    requires InEdits(s, t, n)
    ensures InEdits(s + tail, t + tail, n)
  {
    var script :| Transforms(script, s, t) && |script| == n;
    TransformsBeforeTail(script, s, t, tail);
  }

  lemma ThenInsertLast<T(!new)>(s: seq<T>, front: seq<T>, x: T, n: nat)
    requires InEdits(s, front, n)
    ensures InEdits(s, front + [x], n + 1)
  {
    OneMoreEdit(s, front, front + [x], n, Insert(|front|, x));
  }

  lemma ThenDeleteLast<T(!new)>(front: seq<T>, x: T, t: seq<T>, n: nat)
    requires InEdits(front, t, n)
    ensures InEdits(front + [x], t, n + 1)
  {
    SameEditsBeforeTail(front, t, n, [x]);
    OneMoreEdit(front + [x], t + [x], t, n, Delete(|t|));
  }

  lemma ThenSubstituteLast<T(!new)>(s: seq<T>, x: T, t: seq<T>, y: T, n: nat)
    requires InEdits(s, t, n)
    ensures InEdits(s + [x], t + [y], n + 1)
  {
    SameEditsBeforeTail(s, t, n, [x]);
    OneMoreEdit(s + [x], t + [x], t + [y], n, Substitute(|t|, y));
  }

  lemma InitAndLast<T>(s: seq<T>)
    requires s != []
    ensures Init(s) + [Last(s)] == s
  {
  }

  lemma {:induction false} DistEditsSuffice<T(!new)>(s: seq<T>, t: seq<T>)
    ensures InEdits(s, t, Dist(s, t))
    decreases |s| + |t|
  {
    if s == [] && t == [] {
      assert Transforms([], s, t);
    } else if s == [] || (t != [] && Dist(s, t) == Dist(s, Init(t)) + 1) {
      DistEditsSuffice(s, Init(t));
      ThenInsertLast(s, Init(t), Last(t), Dist(s, Init(t)));
      InitAndLast(t);
    } else if t == [] || Dist(s, t) == Dist(Init(s), t) + 1 {
      DistEditsSuffice(Init(s), t);
      ThenDeleteLast(Init(s), Last(s), t, Dist(Init(s), t));
      InitAndLast(s);
    } else {
      var n := Dist(Init(s), Init(t));
      DistEditsSuffice(Init(s), Init(t));
      InitAndLast(s);
      InitAndLast(t);
      if Last(s) == Last(t) {
        SameEditsBeforeTail(Init(s), Init(t), n, [Last(s)]);
      } else {
        ThenSubstituteLast(Init(s), Last(s), Init(t), Last(t), n);
      }
    }
  }

  /** `d` is the length of a shortest script from `s` to `t`. */
  ghost predicate IsFewestEdits<T(!new)>(s: seq<T>, t: seq<T>, d: nat) {
    InEdits(s, t, d) && forall script :: Transforms(script, s, t) ==> d <= |script|
  }

  lemma DistIsFewestEdits<T(!new)>(s: seq<T>, t: seq<T>)
    ensures IsFewestEdits(s, t, Dist(s, t))
  {
    DistEditsSuffice(s, t);
    forall script | Transforms(script, s, t)
      ensures Dist(s, t) <= |script|
    {
      NoScriptIsShorter(script, s, t);
    }
  }

  // ---------------------------------------------------------------- the two-row algorithm

  /** `row` holds the distances from `s` to the prefixes of `t` shorter than its own length. */
  ghost predicate IsRow<T>(row: seq<nat>, s: seq<T>, t: seq<T>) {
    |row| <= |t| + 1 && forall j :: 0 <= j < |row| ==> row[j] == Dist(s, t[..j])
  }

  lemma DistOfPrefixes<T>(s: seq<T>, t: seq<T>, i: nat, j: nat)
    requires i < |s| && j < |t|
    ensures Dist(s[..i + 1], t[..j + 1])
         == Min(Min(Dist(s[..i + 1], t[..j]), Dist(s[..i], t[..j + 1])) + 1,
                Dist(s[..i], t[..j]) + Cost(s[i], t[j]))
  {
    assert Init(s[..i + 1]) == s[..i] && Init(t[..j + 1]) == t[..j];
  }

  lemma RowExtends<T>(row: seq<nat>, entry: nat, s: seq<T>, t: seq<T>)
    requires IsRow(row, s, t) && |row| <= |t| && entry == Dist(s, t[..|row|])
    ensures IsRow(row + [entry], s, t)
  {
  }

  /** The next row of the table, left to right. */
  method NextRow<T(==)>(s: seq<T>, i: nat, t: seq<T>, previous: seq<nat>) returns (current: seq<nat>)
    requires i < |s| && |previous| == |t| + 1 && IsRow(previous, s[..i], t)
    ensures |current| == |t| + 1 && IsRow(current, s[..i + 1], t)
  {
    current := [i + 1];
    for j := 0 to |t|
      invariant |current| == j + 1 && IsRow(current, s[..i + 1], t)
    {
      DistOfPrefixes(s, t, i, j);
      var entry := Min(Min(current[j] + 1, previous[j + 1] + 1), previous[j] + Cost(s[i], t[j]));
      RowExtends(current, entry, s[..i + 1], t);
      current := current + [entry];
    }
  }

  function FirstRow(n: nat): (row: seq<nat>)
    ensures |row| == n + 1 && forall j :: 0 <= j <= n ==> row[j] == j
  {
    seq(n + 1, j requires 0 <= j => j)
  }

  lemma FirstRowIsRow<T>(t: seq<T>)
    ensures IsRow(FirstRow(|t|), [], t)
  {
    assert forall j :: 0 <= j <= |t| ==> Dist([], t[..j]) == j;
  }

  /** The longer sequence indexes the rows. */
  method FillRows<T(==)>(long: seq<T>, short: seq<T>) returns (distance: nat)
    ensures distance == Dist(long, short)
  {
    var previous := FirstRow(|short|);
    FirstRowIsRow(short);
    assert long[..0] == [];
    for i := 0 to |long|
      invariant |previous| == |short| + 1 && IsRow(previous, long[..i], short)
    {
      previous := NextRow(long, i, short, previous);
    }
    assert long[..|long|] == long && short[..|short|] == short;
    distance := previous[|short|];
  }

  method EditDistance<T(==, !new)>(reference: seq<T>, prediction: seq<T>) returns (distance: nat)
    ensures distance == Dist(reference, prediction)
    ensures IsFewestEdits(reference, prediction, distance)
  {
    DistIsSymmetric(reference, prediction);
    DistIsFewestEdits(reference, prediction);
    if |reference| < |prediction| {
      distance := FillRows(prediction, reference);
    } else {
      distance := FillRows(reference, prediction);
    }
  }
}
