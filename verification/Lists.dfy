/** Filtering, stable selection and insertion on sequences. */
module Lists {

  /** The elements that satisfy `ok`, in order. */
  function Filter<T>(s: seq<T>, ok: T -> bool): seq<T> {
    if s == [] then [] else Filter(s[..|s| - 1], ok) + if ok(s[|s| - 1]) then [s[|s| - 1]] else []
  }

  lemma {:induction false} FilterMember<T>(s: seq<T>, ok: T -> bool, x: T)
    ensures x in Filter(s, ok) <==> x in s && ok(x)
  {
    if s != [] {
      FilterMember(s[..|s| - 1], ok, x);
      assert s == s[..|s| - 1] + [s[|s| - 1]];
    }
  }

  lemma {:induction false} FilterAll<T>(s: seq<T>, ok: T -> bool)
    requires forall i :: 0 <= i < |s| ==> ok(s[i])
    ensures Filter(s, ok) == s
  {
    if s != [] {
      FilterAll(s[..|s| - 1], ok);
    }
  }

  lemma {:induction false} FilterConcat<T>(a: seq<T>, b: seq<T>, ok: T -> bool)
    ensures Filter(a + b, ok) == Filter(a, ok) + Filter(b, ok)
  {
    if b == [] {
      assert a + b == a;
    } else {
      assert (a + b)[..|a + b| - 1] == a + b[..|b| - 1];
      FilterConcat(a, b[..|b| - 1], ok);
    }
  }

  predicate All<T>(s: seq<T>, ok: T -> bool) {
    forall i :: 0 <= i < |s| ==> ok(s[i])
  }

  lemma AllOfPrefix<T>(s: seq<T>, i: nat, ok: T -> bool)
    requires i < |s|
    ensures All(s[..i + 1], ok) <==> All(s[..i], ok) && ok(s[i])
  {
    assert s[..i + 1] == s[..i] + [s[i]];
    assert forall k :: 0 <= k < i ==> s[..i][k] == s[..i + 1][k];
  }

  function Insert<T>(s: seq<T>, k: nat, v: T): seq<T>
    requires k <= |s|
  {
    s[..k] + [v] + s[k..]
  }

  /** Where position `i` moves when something is inserted at `k`. */
  function Shift(i: nat, k: nat): nat {
    if i < k then i else i + 1
  }

  function Unshift(j: nat, k: nat): int {
    if j < k then j else j - 1
  }

  lemma InsertAt<T>(s: seq<T>, k: nat, v: T)
    requires k <= |s|
    ensures |Insert(s, k, v)| == |s| + 1 && Insert(s, k, v)[k] == v
    ensures forall i {:trigger Shift(i, k)} :: 0 <= i < |s| ==> Insert(s, k, v)[Shift(i, k)] == s[i]
    ensures forall j {:trigger Unshift(j, k)} :: 0 <= j < |s| + 1 && j != k ==> Insert(s, k, v)[j] == s[Unshift(j, k)]
  {
  }

  lemma AllOfInsert<T>(s: seq<T>, k: nat, v: T, ok: T -> bool)
    requires k <= |s| && ok(v)
    ensures All(Insert(s, k, v), ok) <==> All(s, ok)
  {
    var more := Insert(s, k, v);
    InsertAt(s, k, v);
    if All(s, ok) {
      forall j | 0 <= j < |more|
        ensures ok(more[j])
      {
        assert j == k || more[j] == s[Unshift(j, k)];
      }
    }
    if All(more, ok) {
      forall i | 0 <= i < |s|
        ensures ok(s[i])
      {
        assert more[Shift(i, k)] == s[i];
      }
    }
  }

  lemma FilterInsert<T>(s: seq<T>, k: nat, v: T, ok: T -> bool) returns (m: nat)
    requires k <= |s|
    ensures m <= |Filter(s, ok)|
    ensures Filter(Insert(s, k, v), ok) == if ok(v) then Insert(Filter(s, ok), m, v) else Filter(s, ok)
  {
    assert s == s[..k] + s[k..];
    FilterConcat(s[..k], s[k..], ok);
    FilterConcat(s[..k] + [v], s[k..], ok);
    FilterConcat(s[..k], [v], ok);
    assert Filter([v], ok) == if ok(v) then [v] else [] by {
      assert [v][..0] == [];
    }
    m := |Filter(s[..k], ok)|;
  }

  /** The first position of least rank, which a stable sort would put in front. */
  function Best<T>(s: seq<T>, rank: T -> nat): nat
    requires s != []
    ensures Best(s, rank) < |s|
  {
    var n := |s| - 1;
    if n == 0 then 0
    else
      var b := Best(s[..n], rank);
      if rank(s[n]) < rank(s[b]) then n else b
  }

  ghost predicate IsBest<T>(s: seq<T>, rank: T -> nat, b: nat) {
    && b < |s|
    && (forall j :: 0 <= j < b ==> rank(s[b]) < rank(s[j]))
    && (forall j :: b <= j < |s| ==> rank(s[b]) <= rank(s[j]))
  }

  lemma {:induction false} BestIsBest<T>(s: seq<T>, rank: T -> nat)
    requires s != []
    ensures IsBest(s, rank, Best(s, rank))
    ensures forall b :: IsBest(s, rank, b) ==> b == Best(s, rank)
  {
    var n := |s| - 1;
    if n > 0 {
      BestIsBest(s[..n], rank);
      assert forall j :: 0 <= j < n ==> s[..n][j] == s[j];
    }
  }

  /** Inserting something of worse rank leaves the best where it was. */
  lemma BestOfInsert<T>(s: seq<T>, k: nat, v: T, rank: T -> nat, j: nat)
    requires k <= |s| && j < |s| && rank(s[j]) < rank(v)
    ensures Best(Insert(s, k, v), rank) == Shift(Best(s, rank), k)
  {
    var b, more := Best(s, rank), Insert(s, k, v);
    BestIsBest(s, rank);
    BestIsBest(more, rank);
    InsertAt(s, k, v);
    var b' := Shift(b, k);
    forall i | 0 <= i < |more|
      ensures if i < b' then rank(more[b']) < rank(more[i]) else rank(more[b']) <= rank(more[i])
    {
      assert i == k || more[i] == s[Unshift(i, k)];
    }
    assert IsBest(more, rank, b');
  }

  /** All elements but the one at `b` that satisfy `ok`. */
  function Others<T>(s: seq<T>, b: nat, ok: T -> bool): seq<T>
    requires b < |s|
  {
    Filter(s[..b], ok) + Filter(s[b + 1..], ok)
  }

  lemma OthersMember<T>(s: seq<T>, b: nat, ok: T -> bool, x: T)
    requires b < |s|
    ensures x in Others(s, b, ok) <==> ok(x) && exists j :: 0 <= j < |s| && j != b && s[j] == x
  {
    var front, back := s[..b], s[b + 1..];
    FilterMember(front, ok, x);
    FilterMember(back, ok, x);
    forall j | 0 <= j < |s| && j != b && s[j] == x
      ensures x in front || x in back
    {
      assert if j < b then front[j] == x else back[j - b - 1] == x;
    }
    if x in back {
      var j :| 0 <= j < |back| && back[j] == x;
      assert s[b + 1 + j] == x;
    }
  }

  lemma InsertAfter<T>(s: seq<T>, k: nat, v: T, b: nat)
    requires b < k <= |s|
    ensures Insert(s, k, v)[..b] == s[..b]
    ensures Insert(s, k, v)[b + 1..] == Insert(s[b + 1..], k - b - 1, v)
  {
    assert s[..k][b + 1..] == s[b + 1..][..k - b - 1];
  }

  lemma InsertBefore<T>(s: seq<T>, k: nat, v: T, b: nat)
    requires k <= b < |s|
    ensures Insert(s, k, v)[..b + 1] == Insert(s[..b], k, v)
    ensures Insert(s, k, v)[b + 2..] == s[b + 1..]
  {
    assert s[k..][..b - k] == s[..b][k..];
  }

  lemma OthersOfInsert<T>(s: seq<T>, k: nat, v: T, b: nat, ok: T -> bool)
    requires k <= |s| && b < |s| && !ok(v)
    ensures Others(Insert(s, k, v), Shift(b, k), ok) == Others(s, b, ok)
  {
    if b < k {
      InsertAfter(s, k, v, b);
      var _ := FilterInsert(s[b + 1..], k - b - 1, v, ok);
    } else {
      InsertBefore(s, k, v, b);
      var _ := FilterInsert(s[..b], k, v, ok);
    }
  }

  // ---------------------------------------------------------------- leaving one out

  function Without<T>(s: seq<T>, j: nat): seq<T>
    requires j < |s|
  {
    s[..j] + s[j + 1..]
  }

  lemma WithoutKeepsRest<T>(s: seq<T>, j: nat)
    requires j < |s|
    ensures multiset(Without(s, j)) == multiset(s) - multiset{s[j]}
  {
    assert s == s[..j] + [s[j]] + s[j + 1..];
  }

  // ---------------------------------------------------------------- stable sorting

  /** Insertion behind everything that may stand in front of `x`. */
  function InOrder<T>(s: seq<T>, x: T, mayPrecede: (T, T) -> bool): seq<T> {
    if s == [] || mayPrecede(s[|s| - 1], x) then s + [x]
    else InOrder(s[..|s| - 1], x, mayPrecede) + [s[|s| - 1]]
  }

  function Sorted<T>(s: seq<T>, mayPrecede: (T, T) -> bool): seq<T> {
    if s == [] then [] else InOrder(Sorted(s[..|s| - 1], mayPrecede), s[|s| - 1], mayPrecede)
  }

  lemma {:induction false} InOrderKeeps<T>(s: seq<T>, x: T, mayPrecede: (T, T) -> bool)
    ensures multiset(InOrder(s, x, mayPrecede)) == multiset(s) + multiset{x}
    ensures |InOrder(s, x, mayPrecede)| == |s| + 1
  {
    if s != [] && !mayPrecede(s[|s| - 1], x) {
      InOrderKeeps(s[..|s| - 1], x, mayPrecede);
      assert s == s[..|s| - 1] + [s[|s| - 1]];
    }
  }

  lemma {:induction false} SortedKeeps<T>(s: seq<T>, mayPrecede: (T, T) -> bool)
    ensures multiset(Sorted(s, mayPrecede)) == multiset(s) && |Sorted(s, mayPrecede)| == |s|
  {
    if s != [] {
      var front, last := s[..|s| - 1], s[|s| - 1];
      SortedKeeps(front, mayPrecede);
      InOrderKeeps(Sorted(front, mayPrecede), last, mayPrecede);
      assert multiset(front + [last]) == multiset(front) + multiset{last};
      assert s == front + [last];
    }
  }

  ghost predicate IsTotalOrder<T(!new)>(mayPrecede: (T, T) -> bool) {
    && (forall x, y :: mayPrecede(x, y) || mayPrecede(y, x))
    && (forall x, y, z :: mayPrecede(x, y) && mayPrecede(y, z) ==> mayPrecede(x, z))
  }

  ghost predicate IsOrdered<T>(s: seq<T>, mayPrecede: (T, T) -> bool) {
    forall i, j :: 0 <= i < j < |s| ==> mayPrecede(s[i], s[j])
  }

  lemma {:induction false} InOrderStaysOrdered<T(!new)>(s: seq<T>, x: T, mayPrecede: (T, T) -> bool)
    requires IsTotalOrder(mayPrecede) && IsOrdered(s, mayPrecede)
    ensures IsOrdered(InOrder(s, x, mayPrecede), mayPrecede)
    ensures forall y :: y in InOrder(s, x, mayPrecede) ==> y in s || y == x
  {
    if s != [] && !mayPrecede(s[|s| - 1], x) {
      var n := |s| - 1;
      InOrderStaysOrdered(s[..n], x, mayPrecede);
      forall y | y in InOrder(s[..n], x, mayPrecede)
        ensures mayPrecede(y, s[n])
      {
        assert y in s[..n] || y == x;
      }
    }
  }

  lemma {:induction false} SortedIsOrdered<T(!new)>(s: seq<T>, mayPrecede: (T, T) -> bool)
    requires IsTotalOrder(mayPrecede)
    ensures IsOrdered(Sorted(s, mayPrecede), mayPrecede)
  {
    if s != [] {
      SortedIsOrdered(s[..|s| - 1], mayPrecede);
      InOrderStaysOrdered(Sorted(s[..|s| - 1], mayPrecede), s[|s| - 1], mayPrecede);
    }
  }

  // ---------------------------------------------------------------- grouping by key

  function HasKey<T>(key: T -> nat, k: nat): T -> bool {
    x => key(x) == k
  }

  /** The elements of key `k`, in order. */
  function Grouped<T>(s: seq<T>, key: T -> nat, k: nat): seq<T> {
    Filter(s, HasKey(key, k))
  }

  /** The dictionary of the groups of `s`. */
  ghost predicate IsGrouping<T>(m: map<nat, seq<T>>, s: seq<T>, key: T -> nat) {
    && (forall k :: k in m <==> exists x :: x in s && key(x) == k)
    && (forall k :: k in m ==> IsGroup(m[k], s, key, k))
  }

  ghost predicate IsGroup<T>(group: seq<T>, s: seq<T>, key: T -> nat, k: nat) {
    group == Grouped(s, key, k) && group != []
  }

  lemma {:induction false} FilterNone<T>(s: seq<T>, ok: T -> bool)
    requires forall x :: x in s ==> !ok(x)
    ensures Filter(s, ok) == []
  {
    if s != [] {
      FilterNone(s[..|s| - 1], ok);
    }
  }

  lemma GroupOfAppend<T>(s: seq<T>, key: T -> nat, x: T, k: nat)
    ensures Grouped(s + [x], key, k) == Grouped(s, key, k) + if key(x) == k then [x] else []
  {
    assert (s + [x])[..|s|] == s;
  }

  /** The dictionary with `x` at the end of group `k`. */
  function Appended<T>(m: map<nat, seq<T>>, k: nat, x: T): map<nat, seq<T>> {
    m[k := (if k in m then m[k] else []) + [x]]
  }

  /** Appending `x` to its group keeps a grouping. */
  lemma AppendKeepsGrouping<T>(m: map<nat, seq<T>>, s: seq<T>, key: T -> nat, x: T)
    requires IsGrouping(m, s, key)
    ensures IsGrouping(Appended(m, key(x), x), s + [x], key)
  {
    var k, more := key(x), s + [x];
    var after := Appended(m, k, x);
    if k !in m {
      FilterNone(s, HasKey(key, k));
    }
    forall l | l in after
      ensures IsGroup(after[l], more, key, l)
    {
      GroupOfAppend(s, key, x, l);
      assert l in m ==> IsGroup(m[l], s, key, l);
    }
    forall l
      ensures l in after <==> exists y :: y in more && key(y) == l
    {
      assert x in more && forall y :: y in s ==> y in more;
    }
  }

  method GroupBy<T>(s: seq<T>, key: T -> nat) returns (m: map<nat, seq<T>>)
    ensures IsGrouping(m, s, key)
  {
    m := map[];
    for i := 0 to |s|
      invariant IsGrouping(m, s[..i], key)
    {
      AppendKeepsGrouping(m, s[..i], key, s[i]);
      assert s[..i + 1] == s[..i] + [s[i]];
      m := Appended(m, key(s[i]), s[i]);
    }
    assert s[..|s|] == s;
  }

  // ---------------------------------------------------------------- ascending keys

  ghost predicate IsLeast(s: set<nat>, x: nat) {
    x in s && forall y :: y in s ==> x <= y
  }

  lemma {:induction false} LeastExists(s: set<nat>)
    requires s != {}
    ensures exists x :: IsLeast(s, x)
  {
    var x :| x in s;
    var rest := s - {x};
    assert forall y :: y in s ==> y == x || y in rest;
    if rest == {} {
      assert IsLeast(s, x);
    } else {
      LeastExists(rest);
      var y :| IsLeast(rest, y);
      assert IsLeast(s, if x < y then x else y);
    }
  }

  ghost predicate IsAscending(s: seq<nat>) {
    forall i, j :: 0 <= i < j < |s| ==> s[i] < s[j]
  }

  lemma AppendAscends(s: seq<nat>, x: nat)
    requires IsAscending(s) && forall y :: y in s ==> y < x
    ensures IsAscending(s + [x])
  {
    forall i | 0 <= i < |s|
      ensures s[i] < x
    {
      assert s[i] in s;
    }
  }

  method Ascending(s: set<nat>) returns (t: seq<nat>)
    ensures IsAscending(t) && forall x :: x in t <==> x in s
  {
    t := [];
    var left := s;
    while left != {}
      invariant left <= s && IsAscending(t)
      invariant forall x :: x in t <==> x in s && x !in left
      invariant forall x, y :: x in t && y in left ==> x < y
    {
      LeastExists(left);
      var x :| x in left && forall y :: y in left ==> x <= y;
      AppendAscends(t, x);
      t, left := t + [x], left - {x};
    }
  }

  // ---------------------------------------------------------------- duplicates

  ghost predicate HasNoDuplicates<T>(s: seq<T>) {
    forall i, j :: 0 <= i < j < |s| ==> s[i] != s[j]
  }

  lemma JoinedHasNoDuplicates<T>(a: seq<T>, b: seq<T>)
    requires HasNoDuplicates(a) && HasNoDuplicates(b) && forall x :: x in b ==> x !in a
    ensures HasNoDuplicates(a + b)
  {
    var c := a + b;
    forall i, j | 0 <= i < j < |c|
      ensures c[i] != c[j]
    {
      assert i < |a| ==> c[i] in a;
      assert j >= |a| ==> c[j] in b;
    }
  }

  lemma {:induction false} OnceWithoutDuplicates<T>(a: seq<T>, x: T)
    requires HasNoDuplicates(a)
    ensures multiset(a)[x] <= 1
  {
    if a != [] {
      var n := |a| - 1;
      OnceWithoutDuplicates(a[..n], x);
      assert a == a[..n] + [a[n]];
      if a[n] == x {
        assert x !in a[..n];
      }
    }
  }

  lemma PermutedHasNoDuplicates<T>(a: seq<T>, b: seq<T>)
    requires multiset(a) == multiset(b) && HasNoDuplicates(a)
    ensures HasNoDuplicates(b)
  {
    forall i, j | 0 <= i < j < |b|
      ensures b[i] != b[j]
    {
      if b[i] == b[j] {
        assert b == b[..j] + [b[j]] + b[j + 1..];
        assert b[i] in b[..j];
        assert multiset(b)[b[i]] >= 2;
        OnceWithoutDuplicates(a, b[i]);
      }
    }
  }

  lemma SubsetIsSmaller<T>(a: set<T>, b: set<T>)
    requires a <= b
    ensures |a| <= |b| && (|a| == |b| <==> a == b)
  {
    assert b == a + (b - a);
  }
}
