/** Splitting by question family: documents may be shared, question templates and near-duplicates may not. */
module QuestionFamilies {
  import opened UnionFinds
  import opened Holdouts
  import opened LeakChecks
  import opened Deduplication
  import opened ReleaseSplits
  import opened Lists
  import opened Wrappers

  /** Linking questions works like linking documents, each question being its own document
      and its template the content that it shares. */
  function ByTemplate(r: Record): Record {
    r.(source := r.id, content := r.template)
  }

  function View(row: Row): Question {
    Question(ByTemplate(row.question.kept), [])
  }

  function Views(rows: seq<Row>): seq<Question> {
    seq(|rows|, i requires 0 <= i < |rows| => View(rows[i]))
  }

  function KeptOf(questions: seq<Question>): seq<Record> {
    seq(|questions|, i requires 0 <= i < |questions| => questions[i].kept)
  }

  /** The family of a question: the least identifier linked to it. */
  ghost function FamilyIn(views: seq<Question>): Question -> Id {
    FamilyOf(KeptOf(views), views)
  }

  method LinkQuestions(views: seq<Question>) returns (uf: UnionFind)
    ensures fresh(uf) && uf.Valid()
    ensures forall q :: q in views ==> q.kept.source in uf.parent && Root(uf.parent, q.kept.source) == FamilyIn(views)(q)
  {
    var records := KeptOf(views);
    var byTemplate := GroupBy(records, ContentOf());
    uf := new UnionFind(set r | r in records :: r.source);
    var templates := Ascending(byTemplate.Keys);
    for k := 0 to |templates|
      invariant fresh(uf) && uf.Valid() && uf.parent.Keys == Sources(records)
      invariant AreMerged(uf.edges, records, templates[..k])
    {
      assert templates[..k + 1] == templates[..k] + [templates[k]];
      LinkGroup(uf, byTemplate[templates[k]], records, templates[..k], templates[k]);
    }
    assert templates[..|templates|] == templates;
    forall q | q in views
      ensures q.kept.source in uf.parent
    {
      var i :| 0 <= i < |views| && views[i] == q;
      assert records[i] in records;
    }
    ghost var merged := uf.edges;
    LinkNear(uf, views);
    assert forall r :: r in records ==> r.content in byTemplate;
    UnionsReplaceLinks(uf.edges, merged, records, templates, views);
    RootsAreFamilies(uf.parent, uf.edges, records, views);
  }

  // ---------------------------------------------------------------- strata

  function Occurrences(course: nat, rows: seq<Question>): nat {
    if rows == [] then 0
    else Occurrences(course, rows[..|rows| - 1]) + if rows[|rows| - 1].kept.course == course then 1 else 0
  }

  function RarityIn(rows: seq<Question>): Question -> nat {
    (q: Question) => if Occurrences(q.kept.course, rows) <= |rows| then |rows| - Occurrences(q.kept.course, rows) else 0
  }

  /** The most common course of a family; of several the one that occurs first. */
  function CourseOf(g: Group<Question>): nat {
    if g.rows == [] then 0 else g.rows[Best(g.rows, RarityIn(g.rows))].kept.course
  }

  lemma {:induction false} OccurrencesAreBounded(course: nat, rows: seq<Question>)
    ensures Occurrences(course, rows) <= |rows|
  {
    if rows != [] {
      OccurrencesAreBounded(course, rows[..|rows| - 1]);
    }
  }

  lemma CourseIsMostCommon(g: Group<Question>, i: nat)
    requires i < |g.rows|
    ensures Occurrences(g.rows[i].kept.course, g.rows) <= Occurrences(CourseOf(g), g.rows)
  {
    var b := Best(g.rows, RarityIn(g.rows));
    BestIsBest(g.rows, RarityIn(g.rows));
    OccurrencesAreBounded(g.rows[i].kept.course, g.rows);
    OccurrencesAreBounded(CourseOf(g), g.rows);
  }

  datatype Holdout = Holdout(test: set<Id>, validation: set<Id>)

  /** Both holdouts of a course are best choices among all its families but the largest;
      a course with fewer than three families gives none. */
  ghost predicate IsStratumHoldout(groups: seq<Group<Question>>, h: Holdout) {
    if |groups| < 3 then h == Holdout({}, {})
    else
      var target := Target(Size(groups));
      && IsBestHoldout(groups[1..], target, h.test)
      && IsBestHoldout(Filter(groups[1..], IsOutside(h.test)), target, h.validation)
  }

  /** The families of one course, largest first. */
  ghost predicate IsStratum(groups: seq<Group<Question>>, families: seq<Group<Question>>, course: nat) {
    && DistinctIds(groups) && IsOrdered(groups, LargerFirst)
    && forall g :: g in groups <==> g in families && CourseOf(g) == course
  }

  function CourseKey(): Group<Question> -> nat {
    (g: Group<Question>) => CourseOf(g)
  }

  lemma {:induction false} SizeOfNext(groups: seq<Group<Question>>, i: nat)
    requires i < |groups| && DistinctIds(groups)
    ensures Size(groups[..i + 1]) == Size(groups[..i]) + |groups[i].rows|
  {
    var front, g := groups[..i], groups[i];
    assert groups[..i + 1] == front + [g];
    IdsOfNext(front, g);
    HeldOfNext(groups[..i + 1], i, Ids(groups[..i + 1]));
    assert groups[..i + 1][..i] == front && groups[..i + 1][..i + 1] == groups[..i + 1];
    HeldIgnoresOthers(front, Ids(front), g.id);
  }

  method TotalRows(groups: seq<Group<Question>>) returns (n: nat)
    requires DistinctIds(groups)
    ensures n == Size(groups)
  {
    n := 0;
    for i := 0 to |groups|
      invariant n == Size(groups[..i])
    {
      SizeOfNext(groups, i);
      n := n + |groups[i].rows|;
    }
    assert groups[..|groups|] == groups;
  }

  method HoldOut(groups: seq<Group<Question>>) returns (h: Holdout)
    requires DistinctIds(groups)
    ensures IsStratumHoldout(groups, h)
  {
    if |groups| < 3 {
      return Holdout({}, {});
    }
    var size := TotalRows(groups);
    var test := ChooseShuffled(groups[1..], Target(size));
    FilterKeepsDistinct(groups[1..], IsOutside(test));
    var validation := ChooseShuffled(Filter(groups[1..], IsOutside(test)), Target(size));
    return Holdout(test, validation);
  }

  // ---------------------------------------------------------------- the plan for all courses

  ghost predicate AreFamilies(families: seq<Group<Question>>, views: seq<Question>) {
    && DistinctIds(families)
    && (forall g :: g in families ==> IsGroup(g.rows, views, FamilyIn(views), g.id))
    && (forall q :: q in views ==> FamilyIn(views)(q) in Ids(families))
  }

  type Plan = map<nat, Holdout>

  /** Every course of a family has its holdouts. */
  ghost predicate IsPlan(plan: Plan, families: seq<Group<Question>>) {
    && (forall g :: g in families ==> CourseOf(g) in plan)
    && (forall c :: c in plan ==> IsPlanned(plan[c], families, c))
  }

  ghost predicate IsPlanned(h: Holdout, families: seq<Group<Question>>, course: nat) {
    exists groups :: IsStratum(groups, families, course) && IsStratumHoldout(groups, h)
  }

  function Tests(plan: Plan): set<Id> {
    set c, id | c in plan && id in plan[c].test :: id
  }

  function Validations(plan: Plan): set<Id> {
    set c, id | c in plan && id in plan[c].validation :: id
  }

  lemma FilteredIds(groups: seq<Group<Question>>, chosen: set<Id>, id: Id)
    requires id in Ids(Filter(groups, IsOutside(chosen)))
    ensures id !in chosen && id in Ids(groups)
  {
    var g :| g in Filter(groups, IsOutside(chosen)) && g.id == id;
    FilterMember(groups, IsOutside(chosen), g);
  }

  /** A course only holds out its own families, none of them twice, and never its largest. */
  lemma HeldOutFamilyIsOfCourse(plan: Plan, families: seq<Group<Question>>, course: nat, id: Id)
    requires IsPlan(plan, families) && course in plan && id in plan[course].test + plan[course].validation
    ensures exists g :: g in families && CourseOf(g) == course && g.id == id
    ensures !(id in plan[course].test && id in plan[course].validation)
    ensures exists top :: top in families && CourseOf(top) == course && top.id != id
                       && forall g :: g in families && CourseOf(g) == course ==> |g.rows| <= |top.rows|
  {
    assert IsPlanned(plan[course], families, course);
    var groups: seq<Group<Question>> :| IsStratum(groups, families, course) && IsStratumHoldout(groups, plan[course]);
    if id in plan[course].validation {
      FilteredIds(groups[1..], plan[course].test, id);
    }
    assert id in Ids(groups[1..]);
    var i :| 0 <= i < |groups[1..]| && groups[1..][i].id == id;
    assert groups[i + 1].id == id && groups[i + 1] in groups;
    assert groups[0] in groups && groups[0].id != id;
    forall g | g in families && CourseOf(g) == course
      ensures |g.rows| <= |groups[0].rows|
    {
      var j :| 0 <= j < |groups| && groups[j] == g;
      assert j > 0 ==> LargerFirst(groups[0], groups[j]);
    }
  }

  lemma SameIdSameFamily(families: seq<Group<Question>>, g: Group<Question>, h: Group<Question>)
    requires DistinctIds(families) && g in families && h in families && g.id == h.id
    ensures g == h
  {
  }

  /** The split of a family is decided by the holdouts of its own course alone. */
  lemma SplitIsByCourse(plan: Plan, families: seq<Group<Question>>, g: Group<Question>)
    requires IsPlan(plan, families) && DistinctIds(families) && g in families
    ensures SplitOf(g.id, Tests(plan), Validations(plan))
         == SplitOf(g.id, plan[CourseOf(g)].test, plan[CourseOf(g)].validation)
  {
    forall c | c in plan && g.id in plan[c].test + plan[c].validation
      ensures c == CourseOf(g)
    {
      HeldOutFamilyIsOfCourse(plan, families, c, g.id);
      var h :| h in families && CourseOf(h) == c && h.id == g.id;
      SameIdSameFamily(families, g, h);
    }
  }

  // ---------------------------------------------------------------- the code

  lemma SortedGroupIsStratum(families: seq<Group<Question>>, group: seq<Group<Question>>, course: nat)
    requires DistinctIds(families) && IsGroup(group, families, CourseKey(), course)
    ensures IsStratum(Sorted(group, LargerFirst), families, course)
  {
    FilterKeepsDistinct(families, HasKey(CourseKey(), course));
    SortedKeeps(group, LargerFirst);
    LargerFirstIsTotal();
    SortedIsOrdered(group, LargerFirst);
    PermutedGroups(group, Sorted(group, LargerFirst));
    forall g
      ensures g in group <==> g in families && CourseOf(g) == course
    {
      FilterMember(families, HasKey(CourseKey(), course), g);
    }
  }

  method PlanStrata(families: seq<Group<Question>>) returns (plan: Plan)
    requires DistinctIds(families)
    ensures IsPlan(plan, families)
  {
    var strata := GroupBy(families, CourseKey());
    hide IsStratumHoldout, IsGroup, CourseOf;
    plan := map[];
    var todo := strata.Keys;
    while todo != {}
      invariant todo <= strata.Keys && plan.Keys == strata.Keys - todo
      invariant forall c :: c in plan ==> IsPlanned(plan[c], families, c)
    {
      var course :| course in todo;
      assert IsGroup(strata[course], families, CourseKey(), course);
      SortedGroupIsStratum(families, strata[course], course);
      var h := HoldOut(Sorted(strata[course], LargerFirst));
      plan := plan[course := h];
      todo := todo - {course};
    }
    assert forall g :: g in families ==> CourseKey()(g) in strata;
  }

  /** Families and splits are written into the rows. */
  method AssignRows(rows: array<Row>, uf: UnionFind, plan: Plan, ghost views: seq<Question>)
    requires views == Views(rows[..]) && uf.Valid()
    requires forall q :: q in views ==> q.kept.source in uf.parent && Root(uf.parent, q.kept.source) == FamilyIn(views)(q)
    modifies rows, uf`parent
    ensures rows[..] == AssignedRows(old(rows[..]), plan)
  {
    hide FamilyIn, Tests, Validations, Root, Represents;
    ghost var before, after := rows[..], AssignedRows(rows[..], plan);
    for i := 0 to rows.Length
      invariant uf.Valid() && uf.parent.Keys == old(uf.parent.Keys) && SameRoots(old(uf.parent), uf.parent)
      invariant forall k :: 0 <= k < i ==> rows[k] == after[k]
      invariant forall k :: i <= k < rows.Length ==> rows[k] == before[k]
    {
      assert View(before[i]) == views[i] && views[i] in views;
      var family := uf.Find(rows[i].question.kept.id);
      rows[i] := Row(rows[i].question, family, SplitOf(family, Tests(plan), Validations(plan)));
    }
  }

  ghost function AssignedRow(views: seq<Question>, row: Row, plan: Plan): Row {
    var family := FamilyIn(views)(View(row));
    Row(row.question, family, SplitOf(family, Tests(plan), Validations(plan)))
  }

  ghost function AssignedRows(rows: seq<Row>, plan: Plan): seq<Row> {
    seq(|rows|, i requires 0 <= i < |rows| => AssignedRow(Views(rows), rows[i], plan))
  }

  method AssignQuestionFamilies(rows: array<Row>) returns (families: seq<Group<Question>>, plan: Plan)
    modifies rows
    ensures AreFamilies(families, Views(old(rows[..]))) && IsPlan(plan, families)
    ensures rows[..] == AssignedRows(old(rows[..]), plan)
  {
    var views := Views(rows[..]);
    var uf := LinkQuestions(views);
    var byFamily := GroupByFamily(uf, views, FamilyIn(views));
    families := Items(byFamily);
    ItemsAreFamilies(byFamily, families, views);
    plan := PlanStrata(families);
    AssignRows(rows, uf, plan, views);
  }

  lemma ItemsAreFamilies(byFamily: map<nat, seq<Question>>, families: seq<Group<Question>>, views: seq<Question>)
    requires IsGrouping(byFamily, views, FamilyIn(views)) && DistinctIds(families) && Ids(families) == byFamily.Keys
    requires forall g :: g in families ==> g.id in byFamily && g.rows == byFamily[g.id]
    ensures AreFamilies(families, views)
  {
    forall g | g in families
      ensures IsGroup(g.rows, views, FamilyIn(views), g.id)
    {
      assert IsGroup(byFamily[g.id], views, FamilyIn(views), g.id);
    }
  }

  // ---------------------------------------------------------------- no leak

  lemma FamilyInIsConnection(views: seq<Question>, p: Question, q: Question)
    requires p in views && q in views
    ensures FamilyIn(views)(p) == FamilyIn(views)(q)
       <==> Connected(Links(KeptOf(views), views), p.kept.source, q.kept.source)
  {
    var records := KeptOf(views);
    var i :| 0 <= i < |views| && views[i] == p;
    var j :| 0 <= j < |views| && views[j] == q;
    assert records[i] in records && records[j] in records;
    SameComponentExactly(Sources(records), Links(records, views), p.kept.source, q.kept.source);
  }

  /** Questions with the same template, and near-duplicates, get one family and one split,
      whatever documents they are from. */
  lemma VariantsShareSplit(rows: seq<Row>, plan: Plan, i: nat, j: nat)
    requires i < |rows| && j < |rows|
    requires var a, b := rows[i].question.kept, rows[j].question.kept;
             a.template == b.template || IsNear(ByTemplate(a), ByTemplate(b))
    ensures AssignedRows(rows, plan)[i].family == AssignedRows(rows, plan)[j].family
    ensures AssignedRows(rows, plan)[i].split == AssignedRows(rows, plan)[j].split
  {
    var views := Views(rows);
    var records, p, q := KeptOf(views), views[i], views[j];
    assert p in views && q in views && records[i] in records && records[j] in records;
    assert Adjacent(Links(records, views), p.kept.source, q.kept.source);
    ConnectedByEdge(Links(records, views), p.kept.source, q.kept.source);
    FamilyInIsConnection(views, p, q);
  }

  lemma AssignedClashesById(a: Row, b: Row)
    requires a.question.kept.content != b.question.kept.content && (a.family == b.family ==> a.split == b.split)
    ensures Clash(MetadataOf(a), MetadataOf(b), true) <==> a.question.kept.id == b.question.kept.id
  {
  }

  /** The files written after the families are assigned, and any part of them in any order, pass the check
      that allows shared documents exactly when no two of their rows share an identifier. */
  lemma FamiliesPassSharedExactly(valid: seq<Record>, questions: seq<Question>, rows: seq<Row>, plan: Plan,
                                  picks: seq<nat>, picked: seq<Row>)
    requires KeepsOnePerContent(valid, questions)
    requires |rows| == |questions| && forall i :: 0 <= i < |rows| ==> rows[i].question == questions[i]
    requires ArePickedFrom(picked, AssignedRows(rows, plan), picks)
    ensures IsLeakFree(Metadata(picked), true) <==> HaveDistinctIds(picked)
  {
    var all := Metadata(picked);
    forall i, j | 0 <= i < j < |all|
      ensures Clash(all[i], all[j], true) <==> picked[i].question.kept.id == picked[j].question.kept.id
    {
      var m, n := picks[i], picks[j];
      assert picked[i].question == questions[m] && picked[j].question == questions[n];
      assert questions[m].kept.content != questions[n].kept.content by {
        assert m < n || n < m;
      }
      AssignedClashesById(picked[i], picked[j]);
    }
  }
}
