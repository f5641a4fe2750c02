/** The subset-sum that picks whole connected components as a holdout. */
module Holdouts {
  import opened UnionFinds
  import opened Lists

  datatype Group<T> = Group(id: Id, rows: seq<T>)

  ghost predicate DistinctIds<T>(groups: seq<Group<T>>) {
    forall i, j :: 0 <= i < j < |groups| ==> groups[i].id != groups[j].id
  }

  ghost function Ids<T>(groups: seq<Group<T>>): set<Id> {
    set g | g in groups :: g.id
  }

  /** Number of rows in the groups named by `chosen`. */
  ghost function Held<T>(groups: seq<Group<T>>, chosen: set<Id>): nat {
    if groups == [] then 0
    else
      var g := groups[|groups| - 1];
      Held(groups[..|groups| - 1], chosen) + if g.id in chosen then |g.rows| else 0
  }

  function Distance(n: int, target: int): int {
    if n < target then target - n else n - target
  }

  /** The order on totals: distance to the target first, then not above the target, then size. */
  predicate NotWorse(n: int, m: int, target: int) {
    || Distance(n, target) < Distance(m, target)
    || (Distance(n, target) == Distance(m, target)
        && (n > target ==> m > target)
        && ((n > target <==> m > target) ==> n <= m))
  }

  /** Totals above this are never extended. */
  function Ceiling(target: int): int {
    if target * 2 < target + 50 then target + 50 else target * 2
  }

  // ---------------------------------------------------------------- facts about Held

  lemma HeldOfNext<T>(groups: seq<Group<T>>, k: nat, chosen: set<Id>)
    requires k < |groups|
    ensures Held(groups[..k + 1], chosen)
         == Held(groups[..k], chosen) + if groups[k].id in chosen then |groups[k].rows| else 0
  {
    assert groups[..k + 1][..k] == groups[..k];
  }

  lemma {:induction false} HeldIgnoresOthers<T>(groups: seq<Group<T>>, chosen: set<Id>, id: Id)
    requires forall g :: g in groups ==> g.id != id
    ensures Held(groups, chosen + {id}) == Held(groups, chosen)
  {
    if groups != [] {
      HeldIgnoresOthers(groups[..|groups| - 1], chosen, id);
    }
  }

  lemma HeldOfAppend<T>(front: seq<Group<T>>, g: Group<T>, chosen: set<Id>)
    ensures Held(front + [g], chosen) == Held(front, chosen) + if g.id in chosen then |g.rows| else 0
  {
    assert (front + [g])[..|front|] == front;
  }

  lemma {:induction false} HeldWithoutOne<T>(groups: seq<Group<T>>, j: nat, chosen: set<Id>)
    requires j < |groups|
    ensures Held(groups, chosen)
         == Held(Without(groups, j), chosen) + if groups[j].id in chosen then |groups[j].rows| else 0
  {
    hide Held;
    var n := |groups| - 1;
    var front, last := groups[..n], groups[n];
    assert groups == front + [last];
    HeldOfAppend(front, last, chosen);
    if j == n {
      assert Without(groups, j) == front;
    } else {
      HeldWithoutOne(front, j, chosen);
      assert Without(groups, j) == Without(front, j) + [last];
      HeldOfAppend(Without(front, j), last, chosen);
    }
  }

  /** Shuffling the groups changes no total. */
  lemma {:induction false} HeldIgnoresOrder<T>(a: seq<Group<T>>, b: seq<Group<T>>, chosen: set<Id>)
    requires multiset(a) == multiset(b)
    ensures Held(a, chosen) == Held(b, chosen)
  {
    hide Held;
    if a == [] {
      assert |multiset(a)| == |multiset(b)| == 0;
    } else {
      var n := |a| - 1;
      assert a[n] in multiset(b);
      var j :| 0 <= j < |b| && b[j] == a[n];
      WithoutKeepsRest(a, n);
      WithoutKeepsRest(b, j);
      HeldWithoutOne(a, n, chosen);
      HeldWithoutOne(b, j, chosen);
      HeldIgnoresOrder(Without(a, n), Without(b, j), chosen);
    }
  }

  lemma {:induction false} HeldIsAtLeastSmallest<T>(groups: seq<Group<T>>, chosen: set<Id>, least: nat)
    requires forall g :: g in groups ==> g.rows == [] || least <= |g.rows|
    ensures Held(groups, chosen) == 0 || least <= Held(groups, chosen)
  {
    if groups != [] {
      HeldIsAtLeastSmallest(groups[..|groups| - 1], chosen, least);
    }
  }

  lemma {:induction false} HeldOfOne<T>(groups: seq<Group<T>>, j: nat)
    requires j < |groups| && DistinctIds(groups)
    ensures Held(groups, {groups[j].id}) == |groups[j].rows|
  {
    var n := |groups| - 1;
    if j < n {
      HeldOfOne(groups[..n], j);
    } else {
      HeldIgnoresOthers(groups[..n], {}, groups[j].id);
      HeldOfNobody(groups[..n]);
      assert {} + {groups[j].id} == {groups[j].id};
    }
  }

  lemma {:induction false} HeldOfNobody<T>(groups: seq<Group<T>>)
    ensures Held(groups, {}) == 0
  {
    if groups != [] {
      HeldOfNobody(groups[..|groups| - 1]);
    }
  }

  // ---------------------------------------------------------------- the table of reachable totals

  type Table = map<nat, seq<Id>>

  function AsSet(selection: seq<Id>): set<Id> {
    set id | id in selection
  }

  /** Every entry is a selection of the given groups with the stated total. */
  ghost predicate IsSound<T>(table: Table, groups: seq<Group<T>>) {
    forall n {:trigger table[n]} :: n in table ==> AsSet(table[n]) <= Ids(groups) && Held(groups, AsSet(table[n])) == n
  }

  /** Every total of a subset of the groups that is not pruned has an entry. */
  ghost predicate IsComplete<T>(table: Table, groups: seq<Group<T>>, ceiling: int) {
    0 in table && forall chosen :: Held(groups, chosen) <= ceiling ==> Held(groups, chosen) in table
  }

  ghost predicate IsWithin(table: Table, ceiling: int) {
    forall n :: n in table ==> n == 0 || n <= ceiling
  }

  /** `next` adds one more group to entries of `table`, for the totals in `done`. */
  ghost predicate IsGrown<T>(table: Table, next: Table, g: Group<T>, ceiling: int, done: set<nat>) {
    && (forall n {:trigger next[n]} {:trigger n in next} :: n in table ==> n in next && next[n] == table[n])
    && (forall n {:trigger n in table} :: n in done && n + |g.rows| <= ceiling ==> n + |g.rows| in next)
    && (forall m {:trigger next[m]} :: m in next && m !in table ==>
          m <= ceiling && m - |g.rows| in table && next[m] == table[m - |g.rows|] + [g.id])
  }

  lemma GrownIsSound<T>(table: Table, next: Table, groups: seq<Group<T>>, k: nat, ceiling: int)
    requires k < |groups| && DistinctIds(groups) && IsSound(table, groups[..k])
    requires IsGrown(table, next, groups[k], ceiling, table.Keys)
    ensures IsSound(next, groups[..k + 1])
  {
    hide Held;
    var g := groups[k];
    assert groups[..k + 1] == groups[..k] + [g];
    forall n | n in next
      ensures AsSet(next[n]) <= Ids(groups[..k + 1]) && Held(groups[..k + 1], AsSet(next[n])) == n
    {
      assert Ids(groups[..k]) <= Ids(groups[..k + 1]);
      HeldOfNext(groups, k, AsSet(next[n]));
      if n !in table {
        var before := table[n - |g.rows|];
        assert AsSet(next[n]) == AsSet(before) + {g.id};
        HeldIgnoresOthers(groups[..k], AsSet(before), g.id);
      }
    }
  }

  lemma GrownIsComplete<T>(table: Table, next: Table, groups: seq<Group<T>>, k: nat, ceiling: int)
    requires k < |groups| && IsComplete(table, groups[..k], ceiling)
    requires IsGrown(table, next, groups[k], ceiling, table.Keys)
    ensures IsComplete(next, groups[..k + 1], ceiling)
  {
    var more := groups[..k + 1];
    forall chosen | Held(more, chosen) <= ceiling
      ensures Held(more, chosen) in next
    {
      HeldOfNext(groups, k, chosen);
      assert Held(groups[..k], chosen) in table;
    }
  }

  // ---------------------------------------------------------------- optimality

  /** `chosen` names some of the groups, and no set of them that holds any row has a better total. */
  ghost predicate IsBestHoldout<T>(groups: seq<Group<T>>, target: int, chosen: set<Id>) {
    && chosen <= Ids(groups)
    && (groups != [] ==> chosen != {})
    && forall other :: Held(groups, other) > 0 ==> NotWorse(Held(groups, chosen), Held(groups, other), target)
  }

  /** A choice of no rows, or above the ceiling, is only made when no total lies between; the latter also
      means that no group is empty. */
  ghost predicate IsForced<T>(groups: seq<Group<T>>, target: int, chosen: set<Id>) {
    && (Held(groups, chosen) == 0 ==> forall other :: Held(groups, other) == 0 || Held(groups, other) > Ceiling(target))
    && (Held(groups, chosen) > 0 && Held(groups, chosen) > Ceiling(target) ==> forall g :: g in groups ==> g.rows != [])
  }

  /** Pruning is harmless: a total above the ceiling never beats a positive one below it. */
  lemma PrunedIsWorse(n: nat, pruned: nat, target: int)
    requires 0 < n <= Ceiling(target) < pruned
    ensures NotWorse(n, pruned, target)
  {
  }

  /** Above the ceiling the smaller total wins. */
  lemma AboveCeilingSmallerWins(n: nat, m: nat, target: int)
    requires n == 0 || n > Ceiling(target)
    requires m > Ceiling(target) && n <= m
    ensures NotWorse(n, m, target)
  {
  }

  lemma TableYieldsBest<T>(table: Table, groups: seq<Group<T>>, target: int, best: nat)
    requires IsSound(table, groups) && IsComplete(table, groups, Ceiling(target)) && IsWithin(table, Ceiling(target))
    requires best in table && best > 0
    requires forall n :: n in table && n > 0 ==> NotWorse(best, n, target)
    ensures IsBestHoldout(groups, target, AsSet(table[best]))
  {
    if AsSet(table[best]) == {} {
      HeldOfNobody(groups);
      assert false;
    }
    forall other | Held(groups, other) > 0
      ensures NotWorse(best, Held(groups, other), target)
    {
      if Held(groups, other) > Ceiling(target) {
        PrunedIsWorse(best, Held(groups, other), target);
      }
    }
  }

  lemma SmallestGroupIsBest<T>(table: Table, groups: seq<Group<T>>, target: int, j: nat)
    requires DistinctIds(groups) && IsComplete(table, groups, Ceiling(target)) && table.Keys == {0}
    requires j < |groups| && forall g :: g in groups ==> |groups[j].rows| <= |g.rows|
    ensures IsBestHoldout(groups, target, {groups[j].id})
  {
    HeldOfOne(groups, j);
    forall other | Held(groups, other) > 0
      ensures NotWorse(|groups[j].rows|, Held(groups, other), target)
    {
      HeldIsAtLeastSmallest(groups, other, |groups[j].rows|);
      assert Held(groups, {groups[j].id}) <= Ceiling(target) ==> |groups[j].rows| in table;
      AboveCeilingSmallerWins(|groups[j].rows|, Held(groups, other), target);
    }
  }

  lemma BestIgnoresOrder<T>(a: seq<Group<T>>, b: seq<Group<T>>, target: int, chosen: set<Id>)
    requires multiset(a) == multiset(b) && IsBestHoldout(a, target, chosen) && IsForced(a, target, chosen)
    ensures IsBestHoldout(b, target, chosen) && IsForced(b, target, chosen)
  {
    assert forall g :: g in a <==> g in multiset(a);
    assert forall g :: g in b <==> g in multiset(b);
    HeldIgnoresOrder(a, b, chosen);
    forall other | Held(b, other) > 0
      ensures NotWorse(Held(b, chosen), Held(b, other), target) && Held(a, other) == Held(b, other)
    {
      HeldIgnoresOrder(a, b, other);
    }
  }

  lemma TableChoiceIsForced<T>(table: Table, groups: seq<Group<T>>, target: int, best: nat)
    requires IsSound(table, groups) && IsWithin(table, Ceiling(target)) && best in table && best > 0
    ensures IsForced(groups, target, AsSet(table[best]))
  {
  }

  lemma SmallestGroupIsForced<T>(table: Table, groups: seq<Group<T>>, target: int, j: nat)
    requires DistinctIds(groups) && IsComplete(table, groups, Ceiling(target)) && table.Keys == {0}
    requires j < |groups| && forall g :: g in groups ==> |groups[j].rows| <= |g.rows|
    ensures IsForced(groups, target, {groups[j].id})
  {
    HeldOfOne(groups, j);
    forall other
      ensures Held(groups, other) == 0 || Held(groups, other) > Ceiling(target)
    {
      assert Held(groups, other) <= Ceiling(target) ==> Held(groups, other) in table.Keys;
    }
  }

  // ---------------------------------------------------------------- the algorithm

  /** One entry extended by group `g`, unless its total is pruned or known. */
  function Extended<T>(table: Table, next: Table, g: Group<T>, ceiling: int, count: nat): Table
    requires count in table
  {
    var total := count + |g.rows|;
    if total <= ceiling && total !in next then next[total := table[count] + [g.id]] else next
  }

  lemma ExtendedIsGrown<T>(table: Table, next: Table, g: Group<T>, ceiling: int, done: set<nat>, count: nat)
    requires count in table && done <= table.Keys && IsWithin(next, ceiling) && IsGrown(table, next, g, ceiling, done)
    ensures var after := Extended(table, next, g, ceiling, count);
            IsGrown(table, after, g, ceiling, done + {count}) && IsWithin(after, ceiling)
  {
  }

  /** One pass of the outer loop: extend a snapshot of the entries by group `g`.
      The entries are visited in no particular order. */
  method Grow<T>(table: Table, g: Group<T>, ceiling: int) returns (next: Table)
    requires IsWithin(table, ceiling)
    ensures IsGrown(table, next, g, ceiling, table.Keys) && IsWithin(next, ceiling)
  {
    next := table;
    var todo := table.Keys;
    ghost var done: set<nat> := {};
    while todo != {}
      invariant todo + done == table.Keys
      invariant IsGrown(table, next, g, ceiling, done) && IsWithin(next, ceiling)
    {
      var count :| count in todo;
      ExtendedIsGrown(table, next, g, ceiling, done, count);
      next := Extended(table, next, g, ceiling, count);
      todo, done := todo - {count}, done + {count};
    }
  }

  method BestTotal(totals: set<nat>, target: int) returns (best: nat)
    requires totals != {}
    ensures best in totals && forall n :: n in totals ==> NotWorse(best, n, target)
  {
    best :| best in totals;
    var todo := totals - {best};
    while todo != {}
      invariant todo <= totals && best in totals
      invariant forall n :: n in totals && n !in todo ==> NotWorse(best, n, target)
    {
      var n :| n in todo;
      if !NotWorse(best, n, target) {
        best := n;
      }
      todo := todo - {n};
    }
  }

  method SmallestGroup<T>(groups: seq<Group<T>>) returns (j: nat)
    requires groups != []
    ensures j < |groups| && forall g :: g in groups ==> |groups[j].rows| <= |g.rows|
  {
    j := 0;
    for i := 1 to |groups|
      invariant j < |groups| && forall k :: 0 <= k < i ==> |groups[j].rows| <= |groups[k].rows|
    {
      if |groups[i].rows| < |groups[j].rows| {
        j := i;
      }
    }
  }

  lemma TableOfNothing<T>(ordered: seq<Group<T>>, ceiling: int)
    ensures IsSound(map[0 := []], ordered[..0]) && IsComplete(map[0 := []], ordered[..0], ceiling)
    ensures IsWithin(map[0 := []], ceiling)
  {
  }

  /** The outer loop: all totals up to the ceiling with a selection for each. */
  method FillTable<T>(ordered: seq<Group<T>>, ceiling: int) returns (table: Table)
    requires DistinctIds(ordered)
    ensures IsSound(table, ordered) && IsComplete(table, ordered, ceiling) && IsWithin(table, ceiling)
  {
    hide IsSound, IsComplete, IsWithin, IsGrown;
    table := map[0 := []];
    TableOfNothing(ordered, ceiling);
    for k := 0 to |ordered|
      invariant IsSound(table, ordered[..k]) && IsComplete(table, ordered[..k], ceiling)
      invariant IsWithin(table, ceiling)
    {
      var next := Grow(table, ordered[k], ceiling);
      GrownIsSound(table, next, ordered, k, ceiling);
      GrownIsComplete(table, next, ordered, k, ceiling);
      table := next;
    }
    assert ordered[..|ordered|] == ordered;
  }

  lemma NothingIsBest<T>(ordered: seq<Group<T>>, target: int)
    requires ordered == []
    ensures IsBestHoldout(ordered, target, {}) && IsForced(ordered, target, {})
  {
  }

  /** `ordered` is the shuffled copy of `groups`; any shuffle will do. */
  method ChooseHoldout<T>(groups: seq<Group<T>>, ordered: seq<Group<T>>, target: int) returns (chosen: set<Id>)
    requires DistinctIds(ordered) && multiset(ordered) == multiset(groups)
    ensures IsBestHoldout(groups, target, chosen) && IsForced(groups, target, chosen)
  {
    var table := FillTable(ordered, Ceiling(target));
    assert 0 in table;
    hide IsSound, IsComplete, IsWithin, IsBestHoldout, IsForced, DistinctIds;
    var nonzero := set n | n in table.Keys && n != 0;
    if nonzero == {} {
      if ordered == [] {
        chosen := {};
        NothingIsBest(ordered, target);
      } else {
        var j := SmallestGroup(ordered);
        chosen := {ordered[j].id};
        assert table.Keys == {0};
        SmallestGroupIsBest(table, ordered, target, j);
        SmallestGroupIsForced(table, ordered, target, j);
      }
    } else {
      var best := BestTotal(nonzero, target);
      chosen := AsSet(table[best]);
      TableYieldsBest(table, ordered, target, best);
      TableChoiceIsForced(table, ordered, target, best);
    }
    BestIgnoresOrder(ordered, groups, target, chosen);
  }

  // ---------------------------------------------------------------- groups without rows

  ghost predicate IsSmallestNonempty<T>(groups: seq<Group<T>>, g: Group<T>) {
    g in groups && g.rows != [] && forall h :: h in groups ==> h.rows == [] || |g.rows| <= |h.rows|
  }

  /** Some group is empty, and the smallest other one has at least twice the target and is not pruned. */
  ghost predicate PrefersEmptyGroup<T>(groups: seq<Group<T>>, target: int) {
    && (exists e :: e in groups && e.rows == [])
    && exists g :: g in groups && IsSmallestNonempty(groups, g) && 2 * target <= |g.rows| <= Ceiling(target)
  }

  ghost predicate IsBestOfAll<T>(groups: seq<Group<T>>, target: int, chosen: set<Id>) {
    forall other :: other <= Ids(groups) && other != {} ==> NotWorse(Held(groups, chosen), Held(groups, other), target)
  }

  lemma HeldOfMember<T>(groups: seq<Group<T>>, g: Group<T>)
    requires DistinctIds(groups) && g in groups
    ensures {g.id} <= Ids(groups) && Held(groups, {g.id}) == |g.rows|
  {
    var j :| 0 <= j < |groups| && groups[j] == g;
    HeldOfOne(groups, j);
  }

  lemma EmptyChoiceHasEmptyGroup<T>(groups: seq<Group<T>>, other: set<Id>)
    requires other <= Ids(groups) && other != {} && Held(groups, other) == 0
    ensures exists e :: e in groups && e.rows == []
  {
    var id :| id in other;
    var g :| g in groups && g.id == id;
    var j :| 0 <= j < |groups| && groups[j] == g;
    HeldWithoutOne(groups, j, other);
  }

  lemma {:induction false} SmallestNonemptyExists<T>(groups: seq<Group<T>>, chosen: set<Id>)
    requires Held(groups, chosen) > 0
    ensures exists g :: IsSmallestNonempty(groups, g)
  {
    var n := |groups| - 1;
    var front, last := groups[..n], groups[n];
    assert groups == front + [last];
    if Held(front, chosen) > 0 {
      SmallestNonemptyExists(front, chosen);
      var g :| IsSmallestNonempty(front, g);
      assert IsSmallestNonempty(groups, if last.rows != [] && |last.rows| < |g.rows| then last else g);
    } else {
      LastOrSmaller(front, last);
    }
  }

  lemma {:induction false} LastOrSmaller<T>(front: seq<Group<T>>, last: Group<T>)
    requires last.rows != []
    ensures exists g :: IsSmallestNonempty(front + [last], g)
  {
    if front == [] {
      assert IsSmallestNonempty(front + [last], last);
    } else {
      var n := |front| - 1;
      var rest := front[..n];
      assert front == rest + [front[n]];
      LastOrSmaller(rest, last);
      var g :| IsSmallestNonempty(rest + [last], g);
      assert IsSmallestNonempty(front + [last], if front[n].rows != [] && |front[n].rows| < |g.rows| then front[n] else g);
    }
  }

  /** What is chosen is optimal among all nonempty sets of groups, empty groups included, exactly when
      the sizes do not prefer an empty group. */
  lemma BestOfAllExactly<T>(groups: seq<Group<T>>, target: int, chosen: set<Id>)
    requires target >= 1 && DistinctIds(groups) && IsBestHoldout(groups, target, chosen) && IsForced(groups, target, chosen)
    ensures IsBestOfAll(groups, target, chosen) <==> !PrefersEmptyGroup(groups, target)
  {
    if PrefersEmptyGroup(groups, target) {
      EmptyGroupIsBetter(groups, target, chosen);
    } else {
      forall other | other <= Ids(groups) && other != {}
        ensures NotWorse(Held(groups, chosen), Held(groups, other), target)
      {
        if Held(groups, other) == 0 && Held(groups, chosen) > 0 {
          EmptyChoiceHasEmptyGroup(groups, other);
          SmallestNonemptyExists(groups, chosen);
          var g :| IsSmallestNonempty(groups, g);
          HeldOfMember(groups, g);
          HeldIsAtLeastSmallest(groups, chosen, |g.rows|);
        }
      }
    }
  }

  lemma EmptyGroupIsBetter<T>(groups: seq<Group<T>>, target: int, chosen: set<Id>)
    requires target >= 1 && DistinctIds(groups) && IsForced(groups, target, chosen) && PrefersEmptyGroup(groups, target)
    ensures !IsBestOfAll(groups, target, chosen)
  {
    var e :| e in groups && e.rows == [];
    var g :| g in groups && IsSmallestNonempty(groups, g) && 2 * target <= |g.rows| <= Ceiling(target);
    HeldOfMember(groups, e);
    HeldOfMember(groups, g);
    HeldIsAtLeastSmallest(groups, chosen, |g.rows|);
    assert !NotWorse(Held(groups, chosen), Held(groups, {e.id}), target);
  }

  /** With a target of one, a group of two rows is chosen although an empty group would be nearer in order. */
  lemma EmptyGroupCanBePreferable()
    ensures PrefersEmptyGroup([Group(0, []), Group(1, [7, 7])], 1)
  {
    var groups := [Group(0, []), Group(1, [7, 7])];
    assert groups[0] in groups && groups[1] in groups;
    assert IsSmallestNonempty(groups, groups[1]);
  }

  /** With no empty group, as in the components of a release, the choice is always optimal. */
  lemma BestAmongAllNonempty<T>(groups: seq<Group<T>>, target: int, chosen: set<Id>)
    requires IsBestHoldout(groups, target, chosen) && forall g :: g in groups ==> g.rows != []
    ensures IsBestOfAll(groups, target, chosen)
  {
    forall other | other <= Ids(groups) && other != {}
      ensures NotWorse(Held(groups, chosen), Held(groups, other), target)
    {
      if Held(groups, other) == 0 {
        EmptyChoiceHasEmptyGroup(groups, other);
      }
    }
  }
}
