/** Keeping one question per content, and linking the documents that share a question. */
module Deduplication {
  import opened UnionFinds
  import opened Lists
  import opened Wrappers

  /** A question with an answer key. `content` and `template` are ranks of its normalised text and of its
      prompt with digits masked, `signature` of its correct options, `quality` of what is preferred before the
      identifier; `prompt` and `options` are sets of five-character shingles, `length` that of the prompt. */
  datatype Record = Record(id: Id, source: Id, content: nat, template: nat, signature: nat, quality: int, course: nat,
                           length: nat, prompt: set<string>, options: set<string>)

  /** What is kept of all records of one content. */
  datatype Question = Question(kept: Record, origins: seq<Record>)

  // ---------------------------------------------------------------- near-duplicates

  function Jaccard(a: set<string>, b: set<string>): real {
    |a * b| as real / (if a + b == {} then 1 else |a + b|) as real
  }

  lemma JaccardIsSymmetricShare(a: set<string>, b: set<string>)
    ensures Jaccard(a, b) == Jaccard(b, a) && 0.0 <= Jaccard(a, b) <= 1.0
    ensures Jaccard(a, b) == 1.0 <==> a == b && a != {}
  {
    assert a * b == b * a && a + b == b + a;
    SubsetIsSmaller(a * b, a + b);
    if a + b != {} {
      QuotientIsShare(|a * b|, |a + b|);
    }
  }

  lemma QuotientIsShare(n: nat, d: nat)
    requires n <= d && d > 0
    ensures 0.0 <= n as real / d as real <= 1.0 && (n as real / d as real == 1.0 <==> n == d)
  {
  }

  predicate IsNear(a: Record, b: Record) {
    && a.length >= 35 && b.length >= 35 && a.source != b.source
    && Jaccard(a.prompt, b.prompt) >= 0.88 && Jaccard(a.options, b.options) >= 0.75
  }

  lemma NearIsSymmetric(a: Record, b: Record)
    ensures IsNear(a, b) == IsNear(b, a)
  {
    JaccardIsSymmetricShare(a.prompt, b.prompt);
    JaccardIsSymmetricShare(a.options, b.options);
  }

  // ---------------------------------------------------------------- what links two documents

  ghost function Sources(valid: seq<Record>): set<Id> {
    set r | r in valid :: r.source
  }

  /** Documents that hold the same content. */
  ghost function ContentLinks(valid: seq<Record>): set<Edge> {
    set r, s | r in valid && s in valid && r.content == s.content :: (r.source, s.source)
  }

  ghost function NearLinks(questions: seq<Question>): set<Edge> {
    set p, q | p in questions && q in questions && IsNear(p.kept, q.kept) :: (p.kept.source, q.kept.source)
  }

  ghost function Links(valid: seq<Record>, questions: seq<Question>): set<Edge> {
    ContentLinks(valid) + NearLinks(questions)
  }

  /** The least value connected to `v`: the canonical name of its component. */
  ghost function Component(values: set<Id>, edges: set<Edge>, v: Id): (r: Id)
    ensures v in values ==> IsLeastConnected(values, edges, v, r)
  {
    if v !in values then v
    else
      LeastConnectedExists(values, edges, v);
      var r :| IsLeastConnected(values, edges, v, r);
      r
  }

  lemma LeastConnectedExists(values: set<Id>, edges: set<Edge>, v: Id)
    requires v in values
    ensures exists r :: IsLeastConnected(values, edges, v, r)
  {
    ConnectedToItself(edges, v);
    var near := set u | u in values && Connected(edges, v, u);
    assert v in near;
    LeastExists(near);
    var r :| IsLeast(near, r);
    assert forall u :: u in values && Connected(edges, v, u) ==> u in near;
    assert IsLeastConnected(values, edges, v, r);
  }

  /** The family of a question: the component of its document. */
  ghost function FamilyOf(valid: seq<Record>, questions: seq<Question>): Question -> Id {
    (q: Question) => Component(Sources(valid), Links(valid, questions), q.kept.source)
  }

  lemma SameComponentExactly(values: set<Id>, edges: set<Edge>, u: Id, v: Id)
    requires u in values && v in values
    ensures Component(values, edges, u) == Component(values, edges, v) <==> Connected(edges, u, v)
  {
    var a, b := Component(values, edges, u), Component(values, edges, v);
    ConnectedIsSymmetric(edges, v, b);
    ConnectedIsSymmetric(edges, u, v);
    if Connected(edges, u, v) {
      ConnectedIsTransitive(edges, v, u, a);
      ConnectedIsTransitive(edges, u, v, b);
    }
    if a == b {
      ConnectedIsTransitive(edges, u, a, v);
    }
  }

  // ---------------------------------------------------------------- fewer edges, same components

  /** Walking along `edges` replaces every edge of `wanted`. */
  ghost predicate Replaces(edges: set<Edge>, wanted: set<Edge>) {
    forall a, b :: (a, b) in wanted ==> Connected(edges, a, b)
  }

  lemma {:induction false} WalkIsReplaced(edges: set<Edge>, wanted: set<Edge>, p: seq<Id>)
    requires Replaces(edges, wanted) && IsWalk(wanted, p)
    ensures Connected(edges, p[0], p[|p| - 1])
  {
    if |p| == 1 {
      ConnectedToItself(edges, p[0]);
    } else {
      assert Adjacent(wanted, p[0], p[1]);
      ConnectedIsSymmetric(edges, p[0], p[1]);
      WalkIsReplaced(edges, wanted, p[1..]);
      ConnectedIsTransitive(edges, p[0], p[1], p[|p| - 1]);
    }
  }

  lemma SameConnections(edges: set<Edge>, wanted: set<Edge>, a: Id, b: Id)
    requires edges <= wanted && Replaces(edges, wanted)
    ensures Connected(edges, a, b) <==> Connected(wanted, a, b)
  {
    if Connected(wanted, a, b) {
      var p :| IsWalkBetween(wanted, p, a, b);
      WalkIsReplaced(edges, wanted, p);
    }
    if Connected(edges, a, b) {
      ConnectedGrows(edges, wanted, a, b);
    }
  }

  lemma SameComponents(edges: set<Edge>, wanted: set<Edge>, values: set<Id>, v: Id, r: Id)
    requires edges <= wanted && Replaces(edges, wanted) && v in values
    requires IsLeastConnected(values, edges, v, r)
    ensures r == Component(values, wanted, v)
  {
    var s := Component(values, wanted, v);
    SameConnections(edges, wanted, v, r);
    SameConnections(edges, wanted, v, s);
  }

  // ---------------------------------------------------------------- removing duplicates

  function ContentOf(): Record -> nat {
    (r: Record) => r.content
  }

  predicate IsConflict(rows: seq<Record>) {
    exists r, s :: r in rows && s in rows && r.signature != s.signature
  }

  /** Quality first, then the identifier. */
  predicate IsBelow(a: Record, b: Record) {
    a.quality < b.quality || (a.quality == b.quality && a.id <= b.id)
  }

  predicate IdsAscend(a: Record, b: Record) {
    a.id <= b.id
  }

  /** `q` stands for all records of its content, which agree on the answer. */
  ghost predicate StandsFor(q: Question, valid: seq<Record>) {
    var group := Grouped(valid, ContentOf(), q.kept.content);
    && q.kept in group && !IsConflict(group)
    && (forall r :: r in group ==> IsBelow(r, q.kept))
    && q.origins == Sorted(group, IdsAscend)
  }

  /** Exactly one question for every content with an undisputed answer, in the order of contents. */
  ghost predicate IsDeduplicated(valid: seq<Record>, contents: seq<nat>, questions: seq<Question>) {
    && (forall q :: q in questions ==> StandsFor(q, valid) && q.kept.content in contents)
    && (forall i, j :: 0 <= i < j < |questions| ==> questions[i].kept.content < questions[j].kept.content)
    && (forall c :: c in contents ==>
          IsConflict(Grouped(valid, ContentOf(), c)) || exists q :: q in questions && q.kept.content == c)
  }

  method BestRecord(rows: seq<Record>) returns (kept: Record)
    requires rows != []
    ensures kept in rows && forall r :: r in rows ==> IsBelow(r, kept)
  {
    kept := rows[0];
    for i := 1 to |rows|
      invariant kept in rows && forall k :: 0 <= k < i ==> IsBelow(rows[k], kept)
    {
      if !IsBelow(rows[i], kept) {
        kept := rows[i];
      }
    }
  }

  // ---------------------------------------------------------------- linking documents

  /** The links that the code makes within one content: all to the first. */
  ghost function StarLinks(rows: seq<Record>): set<Edge> {
    set i | 1 <= i < |rows| :: (rows[0].source, rows[i].source)
  }

  lemma StarConnects(rows: seq<Record>, edges: set<Edge>, r: Record, s: Record)
    requires rows != [] && StarLinks(rows) <= edges && r in rows && s in rows
    ensures Connected(edges, r.source, s.source)
  {
    var hub := rows[0].source;
    forall t | t in rows
      ensures Connected(edges, hub, t.source)
    {
      var i :| 0 <= i < |rows| && rows[i] == t;
      if i == 0 {
        ConnectedToItself(edges, hub);
      } else {
        assert (hub, rows[i].source) in StarLinks(rows);
        ConnectedByEdge(edges, hub, t.source);
      }
    }
    ConnectedIsSymmetric(edges, hub, r.source);
    ConnectedIsTransitive(edges, r.source, hub, s.source);
  }

  lemma StarsAreContentLinks(valid: seq<Record>, c: nat)
    ensures StarLinks(Grouped(valid, ContentOf(), c)) <= ContentLinks(valid)
  {
    var rows := Grouped(valid, ContentOf(), c);
    forall a, b | (a, b) in StarLinks(rows)
      ensures (a, b) in ContentLinks(valid)
    {
      var i :| 1 <= i < |rows| && (a, b) == (rows[0].source, rows[i].source);
      GroupedMember(valid, c, rows[0]);
      GroupedMember(valid, c, rows[i]);
    }
  }

  ghost function AllStarLinks(valid: seq<Record>): set<Edge> {
    set r, e | r in valid && e in StarLinks(Grouped(valid, ContentOf(), r.content)) :: e
  }

  /** Linking every record to the first of its content connects what linking all pairs connects. */
  lemma StarsConnectLikePairs(valid: seq<Record>, a: Id, b: Id)
    ensures Connected(AllStarLinks(valid), a, b) <==> Connected(ContentLinks(valid), a, b)
  {
    var stars := AllStarLinks(valid);
    forall e | e in stars
      ensures e in ContentLinks(valid)
    {
      var r :| r in valid && e in StarLinks(Grouped(valid, ContentOf(), r.content));
      StarsAreContentLinks(valid, r.content);
    }
    forall x, y | (x, y) in ContentLinks(valid)
      ensures Connected(stars, x, y)
    {
      var r, s :| r in valid && s in valid && r.content == s.content && (x, y) == (r.source, s.source);
      var rows := Grouped(valid, ContentOf(), r.content);
      GroupedMember(valid, r.content, r);
      GroupedMember(valid, r.content, s);
      StarConnects(rows, stars, r, s);
    }
    SameConnections(stars, ContentLinks(valid), a, b);
  }

  method LinkAll(uf: UnionFind, rows: seq<Record>)
    requires uf.Valid() && rows != [] && forall r :: r in rows ==> r.source in uf.parent
    modifies uf
    ensures uf.Valid() && uf.parent.Keys == old(uf.parent.Keys)
    ensures uf.edges == old(uf.edges) + StarLinks(rows)
  {
    for i := 1 to |rows|
      invariant uf.Valid() && uf.parent.Keys == old(uf.parent.Keys)
      invariant uf.edges == old(uf.edges) + set k | 1 <= k < i :: (rows[0].source, rows[k].source)
    {
      uf.Union(rows[0].source, rows[i].source);
    }
  }

  /** All documents that share one of the contents are connected, and only documents that share a content are linked. */
  ghost predicate AreMerged(edges: set<Edge>, valid: seq<Record>, contents: seq<nat>) {
    && edges <= ContentLinks(valid)
    && forall r, s :: r in valid && s in valid && r.content == s.content && r.content in contents ==>
         Connected(edges, r.source, s.source)
  }

  lemma GroupedMember(valid: seq<Record>, c: nat, r: Record)
    ensures r in Grouped(valid, ContentOf(), c) <==> r in valid && r.content == c
  {
    FilterMember(valid, HasKey(ContentOf(), c), r);
  }

  lemma MergedNext(edges: set<Edge>, after: set<Edge>, valid: seq<Record>, contents: seq<nat>, c: nat, rows: seq<Record>)
    requires AreMerged(edges, valid, contents)
    requires rows != [] && rows == Grouped(valid, ContentOf(), c) && after == edges + StarLinks(rows)
    ensures AreMerged(after, valid, contents + [c])
  {
    StarsAreContentLinks(valid, c);
    forall r, s | r in valid && s in valid && r.content == s.content && r.content in contents + [c]
      ensures Connected(after, r.source, s.source)
    {
      if r.content in contents {
        ConnectedGrows(edges, after, r.source, s.source);
      } else {
        GroupedMember(valid, c, r);
        GroupedMember(valid, c, s);
        StarConnects(rows, after, r, s);
      }
    }
  }

  method Deduplicate(rows: seq<Record>) returns (question: Option<Question>)
    requires rows != []
    ensures question == None <==> IsConflict(rows)
    ensures question.Some? ==>
      && question.value.kept in rows && (forall r :: r in rows ==> IsBelow(r, question.value.kept))
      && question.value.origins == Sorted(rows, IdsAscend)
  {
    if IsConflict(rows) {
      return None;
    }
    var kept := BestRecord(rows);
    return Some(Question(kept, Sorted(rows, IdsAscend)));
  }

  lemma DeduplicatedGroup(valid: seq<Record>, c: nat, rows: seq<Record>, question: Option<Question>)
    requires IsGroup(rows, valid, ContentOf(), c) && question.Some?
    requires question.value.kept in rows && question.value.origins == Sorted(rows, IdsAscend) && !IsConflict(rows)
    requires forall r :: r in rows ==> IsBelow(r, question.value.kept)
    ensures question.value.kept.content == c && StandsFor(question.value, valid)
  {
    GroupedMember(valid, c, question.value.kept);
  }

  lemma DeduplicatedNext(valid: seq<Record>, contents: seq<nat>, c: nat, questions: seq<Question>, more: Option<Question>)
    requires IsDeduplicated(valid, contents, questions) && forall d :: d in contents ==> d < c
    requires more == None ==> IsConflict(Grouped(valid, ContentOf(), c))
    requires more.Some? ==> more.value.kept.content == c && StandsFor(more.value, valid)
    ensures IsDeduplicated(valid, contents + [c], questions + if more.Some? then [more.value] else [])
  {
    var after := questions + if more.Some? then [more.value] else [];
    forall i, j | 0 <= i < j < |after|
      ensures after[i].kept.content < after[j].kept.content
    {
      assert after[i] in questions;
    }
    forall d | d in contents + [c] && !IsConflict(Grouped(valid, ContentOf(), d))
      ensures exists q :: q in after && q.kept.content == d
    {
      if d in contents {
        var q :| q in questions && q.kept.content == d;
        assert q in after;
      } else {
        assert more.value in after;
      }
    }
  }

  /** The documents of one content are linked. */
  method LinkGroup(uf: UnionFind, rows: seq<Record>, ghost valid: seq<Record>, ghost contents: seq<nat>, ghost c: nat)
    requires uf.Valid() && uf.parent.Keys == Sources(valid) && AreMerged(uf.edges, valid, contents)
    requires IsGroup(rows, valid, ContentOf(), c)
    modifies uf
    ensures uf.Valid() && uf.parent.Keys == Sources(valid) && AreMerged(uf.edges, valid, contents + [c])
  {
    ghost var before := uf.edges;
    forall r | r in rows
      ensures r.source in Sources(valid)
    {
      GroupedMember(valid, c, r);
    }
    LinkAll(uf, rows);
    MergedNext(before, uf.edges, valid, contents, c, rows);
  }

  method MergeContents(uf: UnionFind, valid: seq<Record>, byContent: map<nat, seq<Record>>, contents: seq<nat>)
    returns (questions: seq<Question>)
    requires uf.Valid() && uf.parent.Keys == Sources(valid) && uf.edges == {}
    requires IsGrouping(byContent, valid, ContentOf())
    requires IsAscending(contents) && forall c :: c in contents ==> c in byContent
    modifies uf
    ensures uf.Valid() && uf.parent.Keys == Sources(valid) && AreMerged(uf.edges, valid, contents)
    ensures IsDeduplicated(valid, contents, questions)
  {
    questions := [];
    for k := 0 to |contents|
      invariant uf.Valid() && uf.parent.Keys == Sources(valid) && AreMerged(uf.edges, valid, contents[..k])
      invariant IsDeduplicated(valid, contents[..k], questions)
    {
      var c := contents[k];
      assert contents[..k + 1] == contents[..k] + [c];
      LinkGroup(uf, byContent[c], valid, contents[..k], c);
      var question := Deduplicate(byContent[c]);
      if question.Some? {
        DeduplicatedGroup(valid, c, byContent[c], question);
      }
      DeduplicatedNext(valid, contents[..k], c, questions, question);
      if question.Some? {
        questions := questions + [question.value];
      }
    }
    assert contents[..|contents|] == contents;
  }

  // ---------------------------------------------------------------- near-duplicate questions

  /** The near-duplicates among the first questions, up to the pair at `i` and `j`, are linked. */
  ghost predicate AreNearLinked(edges: set<Edge>, questions: seq<Question>, i: nat, j: nat) {
    forall p, q :: 0 <= q < p < |questions| && (p < i || (p == i && q < j)) && IsNear(questions[p].kept, questions[q].kept) ==>
      (questions[p].kept.source, questions[q].kept.source) in edges
  }

  method LinkNear(uf: UnionFind, questions: seq<Question>)
    requires uf.Valid() && forall q :: q in questions ==> q.kept.source in uf.parent
    modifies uf
    ensures uf.Valid() && uf.parent.Keys == old(uf.parent.Keys)
    ensures old(uf.edges) <= uf.edges <= old(uf.edges) + NearLinks(questions)
    ensures AreNearLinked(uf.edges, questions, |questions|, 0)
  {
    for i := 0 to |questions|
      invariant uf.Valid() && uf.parent.Keys == old(uf.parent.Keys)
      invariant old(uf.edges) <= uf.edges <= old(uf.edges) + NearLinks(questions)
      invariant AreNearLinked(uf.edges, questions, i, 0)
    {
      for j := 0 to i
        invariant uf.Valid() && uf.parent.Keys == old(uf.parent.Keys)
        invariant old(uf.edges) <= uf.edges <= old(uf.edges) + NearLinks(questions)
        invariant AreNearLinked(uf.edges, questions, i, j)
      {
        var p, q := questions[i], questions[j];
        if IsNear(p.kept, q.kept) {
          assert (p.kept.source, q.kept.source) in NearLinks(questions);
          uf.Union(p.kept.source, q.kept.source);
        }
      }
    }
  }

  /** The unions made stand for all links: between documents of one content and between near-duplicates. */
  lemma UnionsReplaceLinks(edges: set<Edge>, merged: set<Edge>, valid: seq<Record>, contents: seq<nat>, questions: seq<Question>)
    requires AreMerged(merged, valid, contents) && forall r :: r in valid ==> r.content in contents
    requires merged <= edges <= merged + NearLinks(questions) && AreNearLinked(edges, questions, |questions|, 0)
    ensures edges <= Links(valid, questions) && Replaces(edges, Links(valid, questions))
  {
    forall a, b | (a, b) in ContentLinks(valid)
      ensures Connected(edges, a, b)
    {
      var r, s :| r in valid && s in valid && r.content == s.content && (a, b) == (r.source, s.source);
      ConnectedGrows(merged, edges, a, b);
    }
    forall a, b | (a, b) in NearLinks(questions)
      ensures Connected(edges, a, b)
    {
      NearLinkIsMade(edges, questions, a, b);
    }
  }

  lemma NearLinkIsMade(edges: set<Edge>, questions: seq<Question>, a: Id, b: Id)
    requires AreNearLinked(edges, questions, |questions|, 0) && (a, b) in NearLinks(questions)
    ensures Connected(edges, a, b)
  {
    var p, q :| p in questions && q in questions && IsNear(p.kept, q.kept) && (a, b) == (p.kept.source, q.kept.source);
    var i :| 0 <= i < |questions| && questions[i] == p;
    var j :| 0 <= j < |questions| && questions[j] == q;
    NearIsSymmetric(p.kept, q.kept);
    assert Adjacent(edges, a, b);
    ConnectedByEdge(edges, a, b);
  }
}
