/** Cutting documents into page packets, and the check that the packets cover every document. */
module PagePlans {
  import opened Wrappers

  datatype Document = Document(id: string, pages: nat, ready: bool)

  datatype Job = Job(document: string, sourcePages: nat, first: nat, last: nat)

  datatype PlanError = InvalidPacketSize | NoJobs

  /** The pages from `first` to `last`. */
  function Pages(first: nat, last: int): seq<nat>
    decreases last - first
  {
    if last < first then [] else Pages(first, last - 1) + [last]
  }

  lemma {:induction false} PagesSplit(first: nat, mid: nat, last: nat)
    requires first <= mid + 1 && mid <= last
    ensures Pages(first, last) == Pages(first, mid) + Pages(mid + 1, last)
    decreases last
  {
    if mid < last {
      PagesSplit(first, mid, last - 1);
    }
  }

  lemma {:induction false} PagesCount(first: nat, last: int)
    requires first <= last + 1
    ensures |Pages(first, last)| == last + 1 - first
    decreases last - first
  {
    if first <= last {
      PagesCount(first, last - 1);
    }
  }

  // ---------------------------------------------------------------- the plan

  function PacketEnd(d: Document, first: nat, size: nat): nat
    requires size > 0
  {
    if d.pages < first + size - 1 then d.pages else first + size - 1
  }

  function JobsFrom(d: Document, first: nat, size: nat): seq<Job>
    requires size > 0
    decreases d.pages + 1 - first
  {
    if first > d.pages then []
    else [Job(d.id, d.pages, first, PacketEnd(d, first, size))] + JobsFrom(d, first + size, size)
  }

  function PlanOf(docs: seq<Document>, size: nat): seq<Job>
    requires size > 0
  {
    if docs == [] then []
    else
      var d := docs[|docs| - 1];
      PlanOf(docs[..|docs| - 1], size) + if d.ready then JobsFrom(d, 1, size) else []
  }

  /** The pages that the jobs of one document cover, in the order of the jobs. */
  function Covered(jobs: seq<Job>, id: string): seq<nat> {
    if jobs == [] then []
    else
      var j := jobs[|jobs| - 1];
      Covered(jobs[..|jobs| - 1], id) + if j.document == id then Pages(j.first, j.last) else []
  }

  lemma {:induction false} CoveredConcat(a: seq<Job>, b: seq<Job>, id: string)
    ensures Covered(a + b, id) == Covered(a, id) + Covered(b, id)
  {
    if b == [] {
      assert a + b == a;
    } else {
      assert (a + b)[..|a + b| - 1] == a + b[..|b| - 1];
      CoveredConcat(a, b[..|b| - 1], id);
    }
  }

  lemma {:induction false} PacketsAreInside(d: Document, first: nat, size: nat)
    requires size > 0
    ensures forall j :: j in JobsFrom(d, first, size) ==>
              j.document == d.id && j.sourcePages == d.pages && first <= j.first <= j.last <= d.pages && j.last - j.first < size
    decreases d.pages + 1 - first
  {
    if first <= d.pages {
      PacketsAreInside(d, first + size, size);
    }
  }

  lemma CoveredFirst(j: Job, rest: seq<Job>, id: string)
    ensures Covered([j] + rest, id) == (if j.document == id then Pages(j.first, j.last) else []) + Covered(rest, id)
  {
    CoveredConcat([j], rest, id);
    assert [j][..0] == [];
  }

  /** The packets of a document cover its pages in order, without gap or overlap. */
  lemma {:induction false} PacketsTileDocument(d: Document, first: nat, size: nat, id: string)
    requires size > 0
    ensures Covered(JobsFrom(d, first, size), id) == if id == d.id then Pages(first, d.pages) else []
    decreases d.pages + 1 - first
  {
    if first <= d.pages {
      var end := PacketEnd(d, first, size);
      PacketsTileDocument(d, first + size, size, id);
      CoveredFirst(Job(d.id, d.pages, first, end), JobsFrom(d, first + size, size), id);
      PagesSplit(first, end, d.pages);
    }
  }

  predicate IsPlanned(d: Document, id: string) {
    d.ready && d.pages > 0 && d.id == id
  }

  /** The pages of all documents planned under one id, one document after the other. */
  function PlannedPages(docs: seq<Document>, id: string): seq<nat> {
    if docs == [] then []
    else
      var d := docs[|docs| - 1];
      PlannedPages(docs[..|docs| - 1], id) + if IsPlanned(d, id) then Pages(1, d.pages) else []
  }

  lemma {:induction false} PlanCoversPages(docs: seq<Document>, size: nat, id: string)
    requires size > 0
    ensures Covered(PlanOf(docs, size), id) == PlannedPages(docs, id)
  {
    if docs != [] {
      var d, before := docs[|docs| - 1], docs[..|docs| - 1];
      PlanCoversPages(before, size, id);
      PacketsTileDocument(d, 1, size, id);
      CoveredConcat(PlanOf(before, size), if d.ready then JobsFrom(d, 1, size) else [], id);
    }
  }

  // ---------------------------------------------------------------- the check

  /** The number of pages that the last job of a document claims; zero without jobs. */
  function ClaimedPages(jobs: seq<Job>, id: string): nat {
    if jobs == [] then 0
    else if jobs[|jobs| - 1].document == id then jobs[|jobs| - 1].sourcePages
    else ClaimedPages(jobs[..|jobs| - 1], id)
  }

  lemma {:induction false} ClaimedConcat(a: seq<Job>, b: seq<Job>, id: string)
    ensures ClaimedPages(a + b, id) == if exists j :: j in b && j.document == id then ClaimedPages(b, id) else ClaimedPages(a, id)
  {
    if b == [] {
      assert a + b == a;
    } else {
      assert (a + b)[..|a + b| - 1] == a + b[..|b| - 1];
      ClaimedConcat(a, b[..|b| - 1], id);
      assert b == b[..|b| - 1] + [b[|b| - 1]];
    }
  }

  lemma {:induction false} ClaimedByAll(jobs: seq<Job>, id: string, pages: nat)
    requires jobs != [] && forall j :: j in jobs ==> j.document == id && j.sourcePages == pages
    ensures ClaimedPages(jobs, id) == pages
  {
    assert jobs[|jobs| - 1] in jobs;
  }

  predicate IsCovered(jobs: seq<Job>, id: string) {
    Covered(jobs, id) == Pages(1, ClaimedPages(jobs, id))
  }

  function DocumentsOf(jobs: seq<Job>): set<string> {
    set j | j in jobs :: j.document
  }

  // ---------------------------------------------------------------- when the plan passes the check

  function TimesPlanned(docs: seq<Document>, id: string): nat {
    if docs == [] then 0
    else TimesPlanned(docs[..|docs| - 1], id) + if IsPlanned(docs[|docs| - 1], id) then 1 else 0
  }

  lemma {:induction false} PlannedPagesExist(docs: seq<Document>, id: string)
    ensures PlannedPages(docs, id) != [] <==> TimesPlanned(docs, id) > 0
  {
    if docs != [] {
      PlannedPagesExist(docs[..|docs| - 1], id);
      PagesCount(1, docs[|docs| - 1].pages);
    }
  }

  lemma JobsExist(d: Document, size: nat)
    requires size > 0
    ensures DocumentsOf(JobsFrom(d, 1, size)) == if d.pages > 0 then {d.id} else {}
  {
    PacketsAreInside(d, 1, size);
    if d.pages > 0 {
      assert JobsFrom(d, 1, size)[0] in JobsFrom(d, 1, size);
    }
  }

  lemma DocumentsOfConcat(a: seq<Job>, b: seq<Job>)
    ensures DocumentsOf(a + b) == DocumentsOf(a) + DocumentsOf(b)
  {
    assert forall j :: j in a + b <==> j in a || j in b;
  }

  lemma {:induction false} PlannedDocumentsHaveJobs(docs: seq<Document>, size: nat, id: string)
    requires size > 0
    ensures id in DocumentsOf(PlanOf(docs, size)) <==> TimesPlanned(docs, id) > 0
  {
    if docs != [] {
      var d, before := docs[|docs| - 1], docs[..|docs| - 1];
      PlannedDocumentsHaveJobs(before, size, id);
      JobsExist(d, size);
      DocumentsOfConcat(PlanOf(before, size), if d.ready then JobsFrom(d, 1, size) else []);
    }
  }

  lemma {:induction false} LastPlannedIsClaimed(docs: seq<Document>, size: nat, id: string)
    requires size > 0 && docs != []
    ensures var d := docs[|docs| - 1];
            ClaimedPages(PlanOf(docs, size), id)
              == if IsPlanned(d, id) then d.pages else ClaimedPages(PlanOf(docs[..|docs| - 1], size), id)
  {
    var d, before := docs[|docs| - 1], docs[..|docs| - 1];
    var jobs := if d.ready then JobsFrom(d, 1, size) else [];
    ClaimedConcat(PlanOf(before, size), jobs, id);
    PacketsAreInside(d, 1, size);
    if IsPlanned(d, id) {
      assert jobs[0] in jobs;
      ClaimedByAll(jobs, id, d.pages);
    }
  }

  /** The pages planned under one id are those that its last document claims exactly when it has no other. */
  lemma {:induction false} LastDocumentDecides(docs: seq<Document>, size: nat, id: string)
    requires size > 0
    ensures TimesPlanned(docs, id) == 0 ==> ClaimedPages(PlanOf(docs, size), id) == 0
    ensures |PlannedPages(docs, id)| >= ClaimedPages(PlanOf(docs, size), id)
    ensures TimesPlanned(docs, id) <= 1 <==> PlannedPages(docs, id) == Pages(1, ClaimedPages(PlanOf(docs, size), id))
  {
    if docs != [] {
      var d, before := docs[|docs| - 1], docs[..|docs| - 1];
      LastDocumentDecides(before, size, id);
      LastPlannedIsClaimed(docs, size, id);
      PlannedPagesExist(before, id);
      PagesCount(1, d.pages);
    }
  }

  /** No two documents that have pages are planned under one id. */
  ghost predicate HasNoPlannedTwins(docs: seq<Document>) {
    forall d :: d in docs ==> TimesPlanned(docs, d.id) <= 1
  }

  lemma {:induction false} PlannedIsDocument(docs: seq<Document>, id: string)
    requires TimesPlanned(docs, id) > 0
    ensures exists d :: d in docs && d.id == id
  {
    var d := docs[|docs| - 1];
    if IsPlanned(d, id) {
      assert d in docs;
    } else {
      PlannedIsDocument(docs[..|docs| - 1], id);
    }
  }

  lemma CoveredExactly(docs: seq<Document>, size: nat, id: string)
    requires size > 0
    ensures IsCovered(PlanOf(docs, size), id) <==> TimesPlanned(docs, id) <= 1
  {
    PlanCoversPages(docs, size, id);
    LastDocumentDecides(docs, size, id);
  }

  /** The check accepts a plan exactly when no two documents that have pages share an id. */
  lemma PlanPassesExactly(docs: seq<Document>, size: nat)
    requires size > 0
    ensures (forall id :: id in DocumentsOf(PlanOf(docs, size)) ==> IsCovered(PlanOf(docs, size), id))
       <==> HasNoPlannedTwins(docs)
  {
    hide PlanOf, TimesPlanned, IsCovered, DocumentsOf;
    var plan := PlanOf(docs, size);
    if HasNoPlannedTwins(docs) {
      forall id | id in DocumentsOf(plan)
        ensures IsCovered(plan, id)
      {
        CoveredExactly(docs, size, id);
        PlannedDocumentsHaveJobs(docs, size, id);
        PlannedIsDocument(docs, id);
      }
    }
    if d :| d in docs && TimesPlanned(docs, d.id) > 1 {
      CoveredExactly(docs, size, d.id);
      PlannedDocumentsHaveJobs(docs, size, d.id);
    }
  }

  /** Two documents of one page under one id are planned, and the check then refuses the plan. */
  lemma TwinsFailCheck(size: nat)
    requires size > 0
    ensures var d := Document("a", 1, true); !IsCovered(PlanOf([d, d], size), "a") && "a" in DocumentsOf(PlanOf([d, d], size))
  {
    var d := Document("a", 1, true);
    assert [d, d][..1] == [d] && [d][..0] == [];
    assert TimesPlanned([d], "a") == 1;
    CoveredExactly([d, d], size, "a");
    PlannedDocumentsHaveJobs([d, d], size, "a");
  }

  // ---------------------------------------------------------------- the code

  method Plan(docs: seq<Document>, size: int) returns (r: Result<seq<Job>, PlanError>)
    ensures r.Err? <==> size < 1
    ensures r.Ok? ==> r.value == PlanOf(docs, size)
    ensures r.Ok? ==> forall id :: Covered(r.value, id) == PlannedPages(docs, id)
  {
    if size < 1 {
      return Err(InvalidPacketSize);
    }
    var jobs: seq<Job> := [];
    for i := 0 to |docs|
      invariant jobs == PlanOf(docs[..i], size)
    {
      assert docs[..i + 1][..i] == docs[..i];
      if docs[i].ready {
        var more := PlanDocument(docs[i], size);
        jobs := jobs + more;
      }
    }
    assert docs[..|docs|] == docs;
    forall id
      ensures Covered(jobs, id) == PlannedPages(docs, id)
    {
      PlanCoversPages(docs, size, id);
    }
    return Ok(jobs);
  }

  method PlanDocument(d: Document, size: nat) returns (jobs: seq<Job>)
    requires size > 0
    ensures jobs == JobsFrom(d, 1, size)
  {
    jobs := [];
    var first := 1;
    while first <= d.pages
      invariant first >= 1 && jobs + JobsFrom(d, first, size) == JobsFrom(d, 1, size)
      decreases d.pages + 1 - first
    {
      jobs := jobs + [Job(d.id, d.pages, first, PacketEnd(d, first, size))];
      first := first + size;
    }
  }

  /** The documents whose jobs miss, repeat or reorder pages. */
  method Preflight(jobs: seq<Job>) returns (r: Result<set<string>, PlanError>)
    ensures r.Err? <==> jobs == []
    ensures r.Ok? ==> r.value == set id | id in DocumentsOf(jobs) && !IsCovered(jobs, id)
  {
    if jobs == [] {
      return Err(NoJobs);
    }
    var documents: map<string, Job> := map[];
    for i := 0 to |jobs|
      invariant documents.Keys == DocumentsOf(jobs[..i])
      invariant forall id :: id in documents ==> documents[id].sourcePages == ClaimedPages(jobs[..i], id)
    {
      assert jobs[..i + 1] == jobs[..i] + [jobs[i]];
      documents := documents[jobs[i].document := jobs[i]];
    }
    assert jobs[..|jobs|] == jobs;
    var errors: set<string> := {};
    var todo := documents.Keys;
    while todo != {}
      invariant todo <= documents.Keys
      invariant errors == set id | id in documents.Keys - todo && !IsCovered(jobs, id)
    {
      var id :| id in todo;
      var actual := CoveredPages(jobs, id);
      if actual != Pages(1, documents[id].sourcePages) {
        errors := errors + {id};
      }
      todo := todo - {id};
    }
    return Ok(errors);
  }

  method CoveredPages(jobs: seq<Job>, id: string) returns (pages: seq<nat>)
    ensures pages == Covered(jobs, id)
  {
    pages := [];
    for i := 0 to |jobs|
      invariant pages == Covered(jobs[..i], id)
    {
      assert jobs[..i + 1][..i] == jobs[..i];
      if jobs[i].document == id {
        pages := pages + Pages(jobs[i].first, jobs[i].last);
      }
    }
    assert jobs[..|jobs|] == jobs;
  }
}
