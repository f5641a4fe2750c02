/** Whole connected components of documents become train, validation and test. */
module ReleaseSplits {
  import opened UnionFinds
  import opened Holdouts
  import opened LeakChecks
  import opened Deduplication
  import opened Lists
  import opened Wrappers

  datatype Row = Row(question: Question, family: Id, split: Split)

  datatype Failure = TooFewComponents | NoHoldout

  datatype Release = Released(rows: seq<Row>, test: set<Id>, validation: set<Id>) | Failed(why: Failure)

  // ---------------------------------------------------------------- components

  /** Larger components first, then by name. */
  predicate LargerFirst(a: Group<Question>, b: Group<Question>) {
    |a.rows| > |b.rows| || (|a.rows| == |b.rows| && a.id <= b.id)
  }

  /** The questions grouped by family, in the order of `LargerFirst`. */
  ghost predicate AreComponents(groups: seq<Group<Question>>, questions: seq<Question>, key: Question -> Id) {
    && DistinctIds(groups) && IsOrdered(groups, LargerFirst)
    && (forall g :: g in groups ==> IsGroup(g.rows, questions, key, g.id))
    && (forall q :: q in questions ==> key(q) in Ids(groups))
  }

  method GroupByFamily(uf: UnionFind, questions: seq<Question>, ghost key: Question -> Id)
    returns (components: map<nat, seq<Question>>)
    requires uf.Valid() && forall q :: q in questions ==> q.kept.source in uf.parent
    requires forall q :: q in questions ==> Root(uf.parent, q.kept.source) == key(q)
    modifies uf`parent
    ensures uf.Valid() && uf.parent.Keys == old(uf.parent.Keys) && SameRoots(old(uf.parent), uf.parent)
    ensures IsGrouping(components, questions, key)
  {
    components := map[];
    assert IsGrouping(components, questions[..0], key);
    hide IsGrouping, Appended, Root, Represents;
    for i := 0 to |questions|
      invariant uf.Valid() && uf.parent.Keys == old(uf.parent.Keys) && SameRoots(old(uf.parent), uf.parent)
      invariant IsGrouping(components, questions[..i], key)
    {
      AppendKeepsGrouping(components, questions[..i], key, questions[i]);
      assert questions[..i + 1] == questions[..i] + [questions[i]];
      var root := uf.Find(questions[i].kept.source);
      components := Appended(components, root, questions[i]);
    }
    assert questions[..|questions|] == questions;
  }

  lemma IdsOfNext<T>(groups: seq<Group<T>>, g: Group<T>)
    ensures Ids(groups + [g]) == Ids(groups) + {g.id}
  {
    assert forall h :: h in groups ==> h in groups + [g];
    assert g in groups + [g];
  }

  /** The entries of a dictionary, in no particular order. */
  method Items(m: map<nat, seq<Question>>) returns (groups: seq<Group<Question>>)
    ensures DistinctIds(groups) && Ids(groups) == m.Keys
    ensures forall g :: g in groups ==> g.id in m && g.rows == m[g.id]
  {
    groups := [];
    var left := m.Keys;
    while left != {}
      invariant left <= m.Keys && DistinctIds(groups) && Ids(groups) == m.Keys - left
      invariant forall g :: g in groups ==> g.id in m && g.id !in left && g.rows == m[g.id]
    {
      var id :| id in left;
      assert forall i :: 0 <= i < |groups| ==> groups[i] in groups;
      IdsOfNext(groups, Group(id, m[id]));
      groups := groups + [Group(id, m[id])];
      left := left - {id};
    }
  }

  lemma PermutedGroups<T>(a: seq<Group<T>>, b: seq<Group<T>>)
    requires multiset(a) == multiset(b) && DistinctIds(a)
    ensures DistinctIds(b) && Ids(b) == Ids(a) && forall g :: g in b <==> g in a
  {
    assert forall g :: g in b <==> g in multiset(b);
    assert forall g :: g in a <==> g in multiset(a);
    PermutedHasNoDuplicates(a, b);
    forall i, j | 0 <= i < j < |b|
      ensures b[i].id != b[j].id
    {
      assert b[i] in a && b[j] in a;
    }
  }

  lemma LargerFirstIsTotal()
    ensures IsTotalOrder(LargerFirst)
  {
  }

  method SortComponents(components: map<nat, seq<Question>>, ghost questions: seq<Question>, ghost key: Question -> Id)
    returns (groups: seq<Group<Question>>)
    requires IsGrouping(components, questions, key)
    ensures AreComponents(groups, questions, key)
  {
    var items := Items(components);
    groups := Sorted(items, LargerFirst);
    SortedKeeps(items, LargerFirst);
    LargerFirstIsTotal();
    SortedIsOrdered(items, LargerFirst);
    PermutedGroups(items, groups);
  }

  // ---------------------------------------------------------------- when no validation set is left

  lemma {:induction false} HeldIsMonotone<T>(groups: seq<Group<T>>, some: set<Id>, more: set<Id>)
    requires some <= more
    ensures Held(groups, some) <= Held(groups, more)
  {
    if groups != [] {
      HeldIsMonotone(groups[..|groups| - 1], some, more);
    }
  }

  /** Number of rows in all groups. */
  ghost function Size<T>(groups: seq<Group<T>>): nat {
    Held(groups, Ids(groups))
  }

  lemma MissedGroupIsLost<T>(groups: seq<Group<T>>, k: nat, chosen: set<Id>)
    requires k < |groups| && chosen <= Ids(groups) && groups[k].id !in chosen
    ensures Held(groups, chosen) + |groups[k].rows| <= Size(groups)
  {
    HeldWithoutOne(groups, k, chosen);
    HeldWithoutOne(groups, k, Ids(groups));
    HeldIsMonotone(Without(groups, k), chosen, Ids(groups));
  }

  lemma AllButOne<T>(groups: seq<Group<T>>, k: nat)
    requires k < |groups| && DistinctIds(groups)
    ensures Held(groups, Ids(groups) - {groups[k].id}) + |groups[k].rows| == Size(groups)
  {
    var rest, all := Without(groups, k), Ids(groups);
    HeldWithoutOne(groups, k, all - {groups[k].id});
    HeldWithoutOne(groups, k, all);
    HeldIgnoresOthers(rest, all - {groups[k].id}, groups[k].id);
    assert all - {groups[k].id} + {groups[k].id} == all;
  }

  /** A best holdout takes every group, and leaves none for a second one, exactly when all rows together
      overshoot the target by less than half the smallest group. */
  lemma TakesAllExactly<T>(groups: seq<Group<T>>, target: int, chosen: set<Id>, k: nat)
    requires IsBestHoldout(groups, target, chosen) && DistinctIds(groups) && |groups| > 1 && k < |groups|
    requires forall g :: g in groups ==> 0 < |groups[k].rows| <= |g.rows|
    ensures chosen == Ids(groups) <==> 2 * Size(groups) < 2 * target + |groups[k].rows|
  {
    var all, least := Ids(groups), |groups[k].rows|;
    if chosen == all {
      AllButOne(groups, k);
      HeldWithoutOne(groups, if k == 0 then 1 else 0, all - {groups[k].id});
      assert groups[if k == 0 then 1 else 0].id in all - {groups[k].id};
      assert NotWorse(Size(groups), Held(groups, all - {groups[k].id}), target);
    } else {
      var id :| id in all && id !in chosen;
      var g :| g in groups && g.id == id;
      var j :| 0 <= j < |groups| && groups[j] == g;
      MissedGroupIsLost(groups, j, chosen);
      HeldWithoutOne(groups, j, all);
      assert NotWorse(Held(groups, chosen), Size(groups), target);
    }
  }

  // ---------------------------------------------------------------- the release

  /** A tenth, rounded to the nearest whole number and to an even one from halfway, but at least one. */
  function Target(n: nat): (t: nat)
    ensures if n < 6 then t == 1 else -5 <= 10 * t - n <= 5 && (n % 10 == 5 ==> t % 2 == 0)
  {
    var q, r := n / 10, n % 10;
    var rounded := if r < 5 || (r == 5 && q % 2 == 0) then q else q + 1;
    if rounded < 1 then 1 else rounded
  }

  function IsOutside(chosen: set<Id>): Group<Question> -> bool {
    (g: Group<Question>) => g.id !in chosen
  }

  function SplitOf(family: Id, test: set<Id>, validation: set<Id>): Split {
    if family in test then Test else if family in validation then Validation else Train
  }

  ghost function RowsOf(questions: seq<Question>, key: Question -> Id, test: set<Id>, validation: set<Id>): seq<Row> {
    seq(|questions|, i requires 0 <= i < |questions| =>
      Row(questions[i], key(questions[i]), SplitOf(key(questions[i]), test, validation)))
  }

  /** One question is kept for every content with an undisputed answer. */
  ghost predicate KeepsOnePerContent(valid: seq<Record>, questions: seq<Question>) {
    && (forall q :: q in questions ==> StandsFor(q, valid))
    && (forall i, j :: 0 <= i < j < |questions| ==> questions[i].kept.content < questions[j].kept.content)
    && (forall r :: r in valid ==>
          IsConflict(Grouped(valid, ContentOf(), r.content)) || exists q :: q in questions && q.kept.content == r.content)
  }

  /** Both holdouts are best choices: the test set among all components but the largest,
      the validation set among those that are left. */
  ghost predicate AreHoldouts(components: seq<Group<Question>>, target: nat, test: set<Id>, validation: set<Id>) {
    && |components| >= 3 && test != {} && validation != {}
    && IsBestHoldout(components[1..], target, test)
    && IsBestHoldout(Filter(components[1..], IsOutside(test)), target, validation)
  }

  ghost predicate IsReleased(valid: seq<Record>, questions: seq<Question>, components: seq<Group<Question>>,
                             rows: seq<Row>, test: set<Id>, validation: set<Id>)
  {
    && KeepsOnePerContent(valid, questions)
    && AreComponents(components, questions, FamilyOf(valid, questions))
    && AreHoldouts(components, Target(|questions|), test, validation)
    && rows == RowsOf(questions, FamilyOf(valid, questions), test, validation)
  }

  /** The rows outside the largest component overshoot the target by less than half the smallest one. */
  ghost predicate TestTakesAll(components: seq<Group<Question>>, target: nat)
    requires components != []
  {
    2 * Size(components[1..]) < 2 * target + |components[|components| - 1].rows|
  }

  // ---------------------------------------------------------------- the code

  method Shuffle<T>(s: seq<T>) returns (t: seq<T>)
    ensures multiset(t) == multiset(s)
  {
    t := s;
    var i := |s|;
    while i > 1
      invariant 0 <= i <= |s| == |t| && multiset(t) == multiset(s)
    {
      i := i - 1;
      var j :| 0 <= j <= i;
      t := t[i := t[j]][j := t[i]];
    }
  }

  method ChooseShuffled(groups: seq<Group<Question>>, target: nat) returns (chosen: set<Id>)
    requires DistinctIds(groups)
    ensures IsBestHoldout(groups, target, chosen)
  {
    var ordered := Shuffle(groups);
    PermutedGroups(groups, ordered);
    chosen := ChooseHoldout(groups, ordered, target);
  }

  lemma {:induction false} FilterKeepsDistinct<T>(groups: seq<Group<T>>, ok: Group<T> -> bool)
    requires DistinctIds(groups)
    ensures DistinctIds(Filter(groups, ok))
  {
    if groups != [] {
      var n := |groups| - 1;
      FilterKeepsDistinct(groups[..n], ok);
      var kept := Filter(groups[..n], ok);
      forall i | 0 <= i < |kept|
        ensures kept[i].id != groups[n].id
      {
        FilterMember(groups[..n], ok, kept[i]);
      }
    }
  }

  method AssignSplits(uf: UnionFind, questions: seq<Question>, test: set<Id>, validation: set<Id>, ghost key: Question -> Id)
    returns (rows: seq<Row>)
    requires uf.Valid() && forall q :: q in questions ==> q.kept.source in uf.parent
    requires forall q :: q in questions ==> Root(uf.parent, q.kept.source) == key(q)
    modifies uf`parent
    ensures rows == RowsOf(questions, key, test, validation)
  {
    rows := [];
    for i := 0 to |questions|
      invariant uf.Valid() && uf.parent.Keys == old(uf.parent.Keys) && SameRoots(old(uf.parent), uf.parent)
      invariant rows == RowsOf(questions, key, test, validation)[..i]
    {
      var family := uf.Find(questions[i].kept.source);
      rows := rows + [Row(questions[i], family, SplitOf(family, test, validation))];
    }
  }

  lemma NothingOutsideExactly(groups: seq<Group<Question>>, chosen: set<Id>)
    ensures Filter(groups, IsOutside(chosen)) == [] <==> Ids(groups) <= chosen
  {
    var rest := Filter(groups, IsOutside(chosen));
    if rest != [] {
      FilterMember(groups, IsOutside(chosen), rest[0]);
    }
    forall g | g in groups && rest == []
      ensures g.id in chosen
    {
      FilterMember(groups, IsOutside(chosen), g);
    }
  }

  lemma LastIsSmallest(components: seq<Group<Question>>, questions: seq<Question>, key: Question -> Id)
    requires AreComponents(components, questions, key) && components != []
    ensures forall g :: g in components ==> 0 < |components[|components| - 1].rows| <= |g.rows|
  {
    forall g | g in components
      ensures 0 < |components[|components| - 1].rows| <= |g.rows|
    {
      var i :| 0 <= i < |components| && components[i] == g;
      assert i < |components| - 1 ==> LargerFirst(components[i], components[|components| - 1]);
      assert components[|components| - 1] in components;
    }
  }

  lemma RestIsEmptyExactly(components: seq<Group<Question>>, questions: seq<Question>, key: Question -> Id, target: nat, test: set<Id>)
    requires AreComponents(components, questions, key) && |components| >= 3
    requires IsBestHoldout(components[1..], target, test)
    ensures Filter(components[1..], IsOutside(test)) == [] <==> TestTakesAll(components, target)
  {
    var groups := components[1..];
    LastIsSmallest(components, questions, key);
    assert forall g :: g in groups ==> g in components;
    TakesAllExactly(groups, target, test, |groups| - 1);
    NothingOutsideExactly(groups, test);
  }

  /** Once the unions stand for all links, the roots are the families. */
  lemma RootsAreFamilies(parent: map<Id, Id>, edges: set<Edge>, valid: seq<Record>, questions: seq<Question>)
    requires Represents(parent, edges) && parent.Keys == Sources(valid)
    requires edges <= Links(valid, questions) && Replaces(edges, Links(valid, questions))
    ensures forall q :: q in questions && q.kept.source in parent ==>
              Root(parent, q.kept.source) == FamilyOf(valid, questions)(q)
  {
    forall q | q in questions && q.kept.source in parent
      ensures Root(parent, q.kept.source) == FamilyOf(valid, questions)(q)
    {
      RootIsLeastConnected(parent, edges, q.kept.source);
      SameComponents(edges, Links(valid, questions), Sources(valid), q.kept.source, Root(parent, q.kept.source));
    }
  }

  /** Labels and links: after all unions, roots are the families. */
  method LinkDocuments(valid: seq<Record>) returns (uf: UnionFind, questions: seq<Question>)
    ensures fresh(uf) && uf.Valid() && KeepsOnePerContent(valid, questions)
    ensures forall q :: q in questions ==> q.kept.source in uf.parent
    ensures forall q :: q in questions ==> Root(uf.parent, q.kept.source) == FamilyOf(valid, questions)(q)
  {
    var byContent := GroupBy(valid, ContentOf());
    uf := new UnionFind(set r | r in valid :: r.source);
    var contents := Ascending(byContent.Keys);
    questions := MergeContents(uf, valid, byContent, contents);
    forall q | q in questions
      ensures q.kept.source in uf.parent
    {
      GroupedMember(valid, q.kept.content, q.kept);
    }
    ghost var merged := uf.edges;
    LinkNear(uf, questions);
    assert forall r :: r in valid ==> r.content in byContent;
    UnionsReplaceLinks(uf.edges, merged, valid, contents, questions);
    RootsAreFamilies(uf.parent, uf.edges, valid, questions);
  }

  method PrepareRecords(valid: seq<Record>)
    returns (release: Release, questions: seq<Question>, components: seq<Group<Question>>)
    ensures KeepsOnePerContent(valid, questions)
    ensures AreComponents(components, questions, FamilyOf(valid, questions))
    ensures release == Failed(TooFewComponents) <==> |components| < 3
    ensures release == Failed(NoHoldout) <==> |components| >= 3 && TestTakesAll(components, Target(|questions|))
    ensures release.Released? ==>
      IsReleased(valid, questions, components, release.rows, release.test, release.validation)
  {
    var uf;
    uf, questions := LinkDocuments(valid);
    ghost var key := FamilyOf(valid, questions);
    var byFamily := GroupByFamily(uf, questions, key);
    components := SortComponents(byFamily, questions, key);
    if |components| < 3 {
      return Failed(TooFewComponents), questions, components;
    }
    var target := Target(|questions|);
    var test := ChooseShuffled(components[1..], target);
    RestIsEmptyExactly(components, questions, key, target, test);
    var rest := Filter(components[1..], IsOutside(test));
    FilterKeepsDistinct(components[1..], IsOutside(test));
    var validation := ChooseShuffled(rest, target);
    if test == {} || validation == {} {
      return Failed(NoHoldout), questions, components;
    }
    var rows := AssignSplits(uf, questions, test, validation, key);
    release := Released(rows, test, validation);
  }

  // ---------------------------------------------------------------- no leak

  lemma OriginsMember(valid: seq<Record>, q: Question, r: Record)
    requires StandsFor(q, valid)
    ensures r in q.origins <==> r in valid && r.content == q.kept.content
    ensures q.kept in valid
  {
    var group := Grouped(valid, ContentOf(), q.kept.content);
    SortedKeeps(group, IdsAscend);
    assert r in q.origins <==> r in multiset(q.origins);
    assert r in group <==> r in multiset(group);
    GroupedMember(valid, q.kept.content, r);
    GroupedMember(valid, q.kept.content, q.kept);
  }

  /** Two questions are of one family exactly when links connect their documents. */
  lemma FamilyIsConnection(valid: seq<Record>, questions: seq<Question>, p: Question, q: Question)
    requires StandsFor(p, valid) && StandsFor(q, valid)
    ensures FamilyOf(valid, questions)(p) == FamilyOf(valid, questions)(q)
       <==> Connected(Links(valid, questions), p.kept.source, q.kept.source)
  {
    OriginsMember(valid, p, p.kept);
    OriginsMember(valid, q, q.kept);
    SameComponentExactly(Sources(valid), Links(valid, questions), p.kept.source, q.kept.source);
  }

  /** No document spans two families, not even as the origin of a removed duplicate. */
  lemma SharedDocumentSharesFamily(valid: seq<Record>, questions: seq<Question>, p: Question, q: Question, r: Record, s: Record)
    requires StandsFor(p, valid) && StandsFor(q, valid)
    requires r in p.origins && s in q.origins && r.source == s.source
    ensures FamilyOf(valid, questions)(p) == FamilyOf(valid, questions)(q)
  {
    var links := Links(valid, questions);
    OriginsMember(valid, p, r);
    OriginsMember(valid, q, s);
    assert Adjacent(links, p.kept.source, r.source) && Adjacent(links, s.source, q.kept.source);
    ConnectedByEdge(links, p.kept.source, r.source);
    ConnectedByEdge(links, s.source, q.kept.source);
    ConnectedIsTransitive(links, p.kept.source, r.source, q.kept.source);
    FamilyIsConnection(valid, questions, p, q);
  }

  lemma NearDuplicatesShareFamily(valid: seq<Record>, questions: seq<Question>, p: Question, q: Question)
    requires KeepsOnePerContent(valid, questions) && p in questions && q in questions && IsNear(p.kept, q.kept)
    ensures FamilyOf(valid, questions)(p) == FamilyOf(valid, questions)(q)
  {
    assert Adjacent(Links(valid, questions), p.kept.source, q.kept.source);
    ConnectedByEdge(Links(valid, questions), p.kept.source, q.kept.source);
    FamilyIsConnection(valid, questions, p, q);
  }

  /** Rows of one family are in one split; so no document, no duplicate and no near-duplicate spans two. */
  lemma NoLeakBetweenSplits(valid: seq<Record>, questions: seq<Question>, components: seq<Group<Question>>,
                            rows: seq<Row>, test: set<Id>, validation: set<Id>, a: Row, b: Row)
    requires IsReleased(valid, questions, components, rows, test, validation) && a in rows && b in rows
    ensures a.family == b.family ==> a.split == b.split
    ensures IsNear(a.question.kept, b.question.kept) ==> a.family == b.family
    ensures (exists r, s :: r in a.question.origins && s in b.question.origins && r.source == s.source) ==>
      a.family == b.family
  {
    assert a.question in questions && b.question in questions;
    if IsNear(a.question.kept, b.question.kept) {
      NearDuplicatesShareFamily(valid, questions, a.question, b.question);
    }
    if r, s :| r in a.question.origins && s in b.question.origins && r.source == s.source {
      SharedDocumentSharesFamily(valid, questions, a.question, b.question, r, s);
    }
  }

  /** Every record whose content has an undisputed answer is the origin of exactly one row. */
  lemma EveryRecordIsOriginOnce(valid: seq<Record>, questions: seq<Question>, r: Record)
    requires KeepsOnePerContent(valid, questions) && r in valid
    requires !IsConflict(Grouped(valid, ContentOf(), r.content))
    ensures exists i :: 0 <= i < |questions| && r in questions[i].origins
    ensures forall i, j :: 0 <= i < j < |questions| ==> !(r in questions[i].origins && r in questions[j].origins)
  {
    forall q | q in questions
      ensures r in q.origins <==> r.content == q.kept.content
    {
      OriginsMember(valid, q, r);
    }
    var q :| q in questions && q.kept.content == r.content;
  }

  lemma ComponentHasRow(valid: seq<Record>, questions: seq<Question>, components: seq<Group<Question>>,
                        rows: seq<Row>, test: set<Id>, validation: set<Id>, g: Group<Question>)
    requires IsReleased(valid, questions, components, rows, test, validation) && g in components
    ensures exists row :: row in rows && row.family == g.id && row.split == SplitOf(g.id, test, validation)
  {
    var key := FamilyOf(valid, questions);
    FilterMember(questions, HasKey(key, g.id), g.rows[0]);
    var i :| 0 <= i < |questions| && questions[i] == g.rows[0];
    assert rows[i] in rows;
  }

  lemma HoldoutNamesComponent(components: seq<Group<Question>>, chosen: set<Id>, id: Id)
    requires components != [] && id in Ids(Filter(components[1..], IsOutside(chosen)))
    ensures id !in chosen && id in Ids(components[1..])
  {
    var g :| g in Filter(components[1..], IsOutside(chosen)) && g.id == id;
    FilterMember(components[1..], IsOutside(chosen), g);
  }

  /** All three splits have rows; the largest component is trained on. */
  lemma AllSplitsAreNonempty(valid: seq<Record>, questions: seq<Question>, components: seq<Group<Question>>,
                             rows: seq<Row>, test: set<Id>, validation: set<Id>, split: Split)
    requires IsReleased(valid, questions, components, rows, test, validation)
    ensures exists row :: row in rows && row.split == split
    ensures SplitOf(components[0].id, test, validation) == Train && test !! validation
  {
    var others := components[1..];
    forall id | id in validation
      ensures id !in test && id in Ids(others)
    {
      HoldoutNamesComponent(components, test, id);
    }
    assert components[0].id !in Ids(others);
    var family :| family in if split == Train then {components[0].id} else if split == Test then test else validation;
    var g :| g in components && g.id == family;
    ComponentHasRow(valid, questions, components, rows, test, validation, g);
  }

  // ---------------------------------------------------------------- the release passes the leak check

  ghost function OriginSources(origins: seq<Record>): seq<Id> {
    seq(|origins|, i requires 0 <= i < |origins| => origins[i].source)
  }

  ghost function MetadataOf(row: Row): Entry {
    Entry(row.split, Some(row.split), Known(row.question.kept.id), Known(row.family), Known(row.question.kept.content),
          OriginSources(row.question.origins), Some(row.question.kept.source))
  }

  ghost function Metadata(rows: seq<Row>): seq<Entry> {
    seq(|rows|, i requires 0 <= i < |rows| => MetadataOf(rows[i]))
  }

  ghost predicate IdsAreUnique(valid: seq<Record>) {
    forall r, s :: r in valid && s in valid && r.id == s.id ==> r == s
  }

  lemma MetadataNamesOrigins(valid: seq<Record>, row: Row, x: Id)
    requires StandsFor(row.question, valid) && x in SourcesOf(MetadataOf(row))
    ensures exists r :: r in row.question.origins && r.source == x
  {
    OriginsMember(valid, row.question, row.question.kept);
    var sources := OriginSources(row.question.origins);
    if x in sources {
      var i :| 0 <= i < |sources| && sources[i] == x;
      assert row.question.origins[i].source == x;
    }
  }

  lemma SharedSourceSharesFamily(valid: seq<Record>, questions: seq<Question>, a: Row, b: Row)
    requires StandsFor(a.question, valid) && StandsFor(b.question, valid)
    requires ShareSource(MetadataOf(a), MetadataOf(b))
    ensures FamilyOf(valid, questions)(a.question) == FamilyOf(valid, questions)(b.question)
  {
    var x :| x in SourcesOf(MetadataOf(a)) && x in SourcesOf(MetadataOf(b));
    MetadataNamesOrigins(valid, a, x);
    MetadataNamesOrigins(valid, b, x);
    var r :| r in a.question.origins && r.source == x;
    var s :| s in b.question.origins && s.source == x;
    SharedDocumentSharesFamily(valid, questions, a.question, b.question, r, s);
  }

  lemma DifferentContentsClashById(a: Row, b: Row)
    requires a.question.kept.content != b.question.kept.content
    requires a.family == b.family ==> a.split == b.split
    requires ShareSource(MetadataOf(a), MetadataOf(b)) ==> a.family == b.family
    ensures Clash(MetadataOf(a), MetadataOf(b), false) <==> a.question.kept.id == b.question.kept.id
  {
  }

  lemma MetadataClashesById(valid: seq<Record>, questions: seq<Question>, components: seq<Group<Question>>,
                            rows: seq<Row>, test: set<Id>, validation: set<Id>, i: nat, j: nat)
    requires IsReleased(valid, questions, components, rows, test, validation) && i < j < |rows|
    ensures Clash(MetadataOf(rows[i]), MetadataOf(rows[j]), false)
       <==> rows[i].question.kept.id == rows[j].question.kept.id
  {
    var a, b := rows[i], rows[j];
    assert a.question == questions[i] && b.question == questions[j];
    if ShareSource(MetadataOf(a), MetadataOf(b)) {
      SharedSourceSharesFamily(valid, questions, a, b);
    }
    DifferentContentsClashById(a, b);
  }

  ghost predicate HaveDistinctIds(rows: seq<Row>) {
    forall i, j :: 0 <= i < j < |rows| ==> rows[i].question.kept.id != rows[j].question.kept.id
  }

  ghost predicate ArePickedFrom(picked: seq<Row>, rows: seq<Row>, picks: seq<nat>) {
    && ArePicks(picks, |rows|) && |picked| == |picks|
    && forall i :: 0 <= i < |picks| ==> picked[i] == rows[picks[i]]
  }

  /** The files of a release, and of any part of it in any order, pass the strict check exactly
      when no two of their rows share an identifier. */
  lemma ReleasePassesExactly(valid: seq<Record>, questions: seq<Question>, components: seq<Group<Question>>,
                             rows: seq<Row>, test: set<Id>, validation: set<Id>, picks: seq<nat>, picked: seq<Row>)
    requires IsReleased(valid, questions, components, rows, test, validation) && ArePickedFrom(picked, rows, picks)
    ensures IsLeakFree(Metadata(picked), false) <==> HaveDistinctIds(picked)
    ensures IsLeakFree(Metadata(picked), true) <==> HaveDistinctIds(picked)
  {
    var all := Metadata(picked);
    forall i, j | 0 <= i < j < |all|
      ensures Clash(all[i], all[j], false) <==> picked[i].question.kept.id == picked[j].question.kept.id
    {
      hide IsReleased, Clash, MetadataOf;
      var m, n := picks[i], picks[j];
      if m < n {
        MetadataClashesById(valid, questions, components, rows, test, validation, m, n);
      } else {
        MetadataClashesById(valid, questions, components, rows, test, validation, n, m);
      }
      ClashIsSymmetric(all[i], all[j], false);
    }
    if IsLeakFree(all, false) {
      StrictPassesSharedExactly(all);
    }
    if i, j :| 0 <= i < j < |picked| && picked[i].question.kept.id == picked[j].question.kept.id {
      assert Clash(all[i], all[j], true);
    }
  }

  lemma QuestionsDiffer(valid: seq<Record>, questions: seq<Question>, i: nat, j: nat)
    requires KeepsOnePerContent(valid, questions) && IdsAreUnique(valid) && i < j < |questions|
    ensures questions[i].kept.content != questions[j].kept.content && questions[i].kept.id != questions[j].kept.id
  {
    OriginsMember(valid, questions[i], questions[i].kept);
    OriginsMember(valid, questions[j], questions[j].kept);
  }

  /** With unique identifiers everything that is built passes. */
  lemma ReleasePassesCheck(valid: seq<Record>, questions: seq<Question>, components: seq<Group<Question>>,
                           rows: seq<Row>, test: set<Id>, validation: set<Id>)
    requires IsReleased(valid, questions, components, rows, test, validation) && IdsAreUnique(valid)
    ensures IsLeakFree(Metadata(rows), false) && IsLeakFree(Metadata(rows), true)
  {
    var picks: seq<nat> := seq(|rows|, i requires 0 <= i < |rows| => i);
    forall i, j | 0 <= i < j < |rows|
      ensures rows[i].question.kept.id != rows[j].question.kept.id
    {
      QuestionsDiffer(valid, questions, i, j);
    }
    ReleasePassesExactly(valid, questions, components, rows, test, validation, picks, rows);
  }

  /** Two rows under one identifier are refused, however different they are. */
  lemma SharedIdFailsCheck(shared: bool)
    ensures var a, b := Record(7, 0, 0, 0, 0, 0, 0, 0, {}, {}), Record(7, 1, 1, 1, 0, 0, 0, 0, {}, {});
            !IsLeakFree(Metadata([Row(Question(a, [a]), 0, Train), Row(Question(b, [b]), 1, Test)]), shared)
  {
    var a, b := Record(7, 0, 0, 0, 0, 0, 0, 0, {}, {}), Record(7, 1, 1, 1, 0, 0, 0, 0, {}, {});
    var all := Metadata([Row(Question(a, [a]), 0, Train), Row(Question(b, [b]), 1, Test)]);
    assert Clash(all[0], all[1], shared);
  }
}
