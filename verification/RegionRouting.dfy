/** The first pages of a ranking by score, then by position in the document. */
module PageRanking {

  /** Page `p` goes before page `q`: a higher score, or the same and earlier in the document. */
  predicate Outranks(score: nat -> int, p: nat, q: nat) {
    score(p) > score(q) || (score(p) == score(q) && p < q)
  }

  ghost predicate IsTop(score: nat -> int, pages: set<nat>, p: nat) {
    p in pages && forall q :: q in pages && q != p ==> Outranks(score, p, q)
  }

  method Top(score: nat -> int, pages: set<nat>) returns (p: nat)
    requires pages != {}
    ensures IsTop(score, pages, p)
  {
    p :| p in pages;
    var todo := pages - {p};
    while todo != {}
      invariant todo <= pages && p in pages && p !in todo
      invariant forall q :: q in pages && q !in todo && q != p ==> Outranks(score, p, q)
    {
      var q :| q in todo;
      if Outranks(score, q, p) {
        p := q;
      }
      todo := todo - {q};
    }
  }

  lemma {:induction false} SomePageIsTop(score: nat -> int, pages: set<nat>)
    requires pages != {}
    ensures exists p :: IsTop(score, pages, p)
  {
    var p :| p in pages;
    if pages == {p} {
      assert IsTop(score, pages, p);
    } else {
      SomePageIsTop(score, pages - {p});
      var q :| IsTop(score, pages - {p}, q);
      var best := if Outranks(score, q, p) then q else p;
      forall r | r in pages && r != best
        ensures Outranks(score, best, r)
      {
        assert r == p || r == q || Outranks(score, q, r);
      }
      assert IsTop(score, pages, best);
    }
  }

  /** All pages in the order in which they are scheduled. */
  ghost function Ranked(score: nat -> int, pages: set<nat>): (ranked: seq<nat>)
    ensures |ranked| == |pages| && forall p :: p in ranked <==> p in pages
  {
    if pages == {} then []
    else
      SomePageIsTop(score, pages);
      var p :| IsTop(score, pages, p);
      [p] + Ranked(score, pages - {p})
  }

  function SetOf(s: seq<nat>): set<nat> {
    set p | p in s
  }

  function Min(a: nat, b: nat): nat {
    if a < b then a else b
  }

  /** The first `limit` pages of the ranking. */
  ghost function Chosen(score: nat -> int, pages: set<nat>, limit: nat): set<nat> {
    SetOf(Ranked(score, pages)[..Min(limit, |Ranked(score, pages)|)])
  }

  lemma {:induction false} RankedIsSorted(score: nat -> int, pages: set<nat>, i: nat, j: nat)
    requires i < j < |Ranked(score, pages)|
    ensures Outranks(score, Ranked(score, pages)[i], Ranked(score, pages)[j])
  {
    var p := Ranked(score, pages)[0];
    if i > 0 {
      RankedIsSorted(score, pages - {p}, i - 1, j - 1);
    } else {
      assert Ranked(score, pages)[j] == Ranked(score, pages - {p})[j - 1];
      assert Ranked(score, pages)[j] in pages - {p};
    }
  }

  /** No page left out should have gone before a chosen one. */
  lemma ChosenOutrankOthers(score: nat -> int, pages: set<nat>, limit: nat, p: nat, q: nat)
    requires p in Chosen(score, pages, limit) && q in pages && q !in Chosen(score, pages, limit)
    ensures Outranks(score, p, q)
  {
    var ranked := Ranked(score, pages);
    var front := ranked[..Min(limit, |ranked|)];
    var i :| 0 <= i < |front| && front[i] == p;
    assert q in ranked;
    var j :| 0 <= j < |ranked| && ranked[j] == q;
    assert forall k :: 0 <= k < |front| ==> front[k] == ranked[k] && front[k] in front;
    RankedIsSorted(score, pages, i, j);
  }

  lemma {:induction false} SetOfIsNoLarger(s: seq<nat>)
    ensures |SetOf(s)| <= |s|
  {
    if s != [] {
      SetOfIsNoLarger(s[1..]);
      assert SetOf(s) == {s[0]} + SetOf(s[1..]);
    }
  }

  lemma ChosenIsWithinLimit(score: nat -> int, pages: set<nat>, limit: nat)
    ensures |Chosen(score, pages, limit)| <= limit && Chosen(score, pages, limit) <= pages
    ensures |pages| <= limit ==> Chosen(score, pages, limit) == pages
  {
    var ranked := Ranked(score, pages);
    var front := ranked[..Min(limit, |ranked|)];
    SetOfIsNoLarger(front);
    forall p | p in front
      ensures p in pages
    {
      assert p in ranked;
    }
    if |pages| <= limit {
      assert front == ranked;
    }
  }

  lemma NextOfRanking(ranked: seq<nat>, n: nat, rest: seq<nat>, p: nat)
    requires n <= |ranked| && ranked[n..] == [p] + rest
    ensures n < |ranked| && ranked[n + 1..] == rest && SetOf(ranked[..n + 1]) == SetOf(ranked[..n]) + {p}
  {
    assert ranked[n..][0] == p && ranked[n..][1..] == rest;
    assert ranked[n..][1..] == ranked[n + 1..];
    assert ranked[..n + 1] == ranked[..n] + [p];
  }

  /** The first `n` pages of the ranking are chosen, the others left. */
  ghost predicate IsTaken(score: nat -> int, pages: set<nat>, n: nat, chosen: set<nat>, left: set<nat>) {
    var ranked := Ranked(score, pages);
    n <= |ranked| && |left| == |ranked| - n && chosen == SetOf(ranked[..n]) && Ranked(score, left) == ranked[n..]
  }

  lemma TakeNext(score: nat -> int, pages: set<nat>, n: nat, chosen: set<nat>, left: set<nat>, p: nat)
    requires IsTaken(score, pages, n, chosen, left) && left != {} && IsTop(score, left, p)
    ensures IsTaken(score, pages, n + 1, chosen + {p}, left - {p})
  {
    TakeTop(score, left, p);
    NextOfRanking(Ranked(score, pages), n, Ranked(score, left - {p}), p);
  }

  method ChoosePages(score: nat -> int, pages: set<nat>, limit: nat) returns (chosen: set<nat>)
    ensures chosen == Chosen(score, pages, limit)
  {
    chosen := {};
    var left, n := pages, 0;
    while left != {} && n < limit
      invariant n <= limit && IsTaken(score, pages, n, chosen, left)
    {
      var p := Top(score, left);
      TakeNext(score, pages, n, chosen, left, p);
      chosen := chosen + {p};
      left := left - {p};
      n := n + 1;
    }
    assert n == Min(limit, |Ranked(score, pages)|);
  }

  lemma TakeTop(score: nat -> int, pages: set<nat>, p: nat)
    requires pages != {} && IsTop(score, pages, p)
    ensures Ranked(score, pages) == [p] + Ranked(score, pages - {p})
  {
    var q := Ranked(score, pages)[0];
    assert IsTop(score, pages, q);
  }
}

/** Which picture regions go to the paid observation queue, under a budget of pages. */
module RegionRouting {
  import opened Lists
  import opened PageRanking
  import opened Regions
  import opened Wrappers

  /** The part of a region that routing reads. Ids are ranks in the order of the id strings. */
  datatype Layout = Layout(id: nat, page: nat, kind: Kind, box: Box, pixels: string,
                           nativeLength: nat, hintsAtDiagram: bool)

  datatype RoutingState = ExactDuplicate | DecorationRule | ScoreReview | Scheduled

  datatype Routing = Routing(score: int, area: real, duplicateOf: Option<nat>, decoration: bool)

  /** A region with what routing writes into it. */
  datatype Region = Region(layout: Layout, routing: Option<Routing>, state: Option<RoutingState>, pending: seq<string>)

  datatype RoutingError = InvalidPageBudget | NoPages

  datatype Summary = Summary(candidatePages: set<nat>, scheduledPages: set<nat>)

  // ---------------------------------------------------------------- scoring

  predicate IsVisual(l: Layout) {
    l.kind == Image || l.kind == Diagram || l.kind == Chart
  }

  predicate IsCopy(a: Layout, b: Layout) {
    IsVisual(a) && IsVisual(b) && a.pixels == b.pixels
  }

  predicate Precedes(a: Layout, b: Layout) {
    a.page < b.page || (a.page == b.page && a.id < b.id)
  }

  /** The copy of region `i` that comes first in the document, among the first `n` regions and itself. */
  function FirstCopy(ls: seq<Layout>, i: nat, n: nat): (c: nat)
    requires i < |ls| && n <= |ls| && IsVisual(ls[i])
    ensures c < |ls| && IsCopy(ls[c], ls[i])
    ensures forall j :: 0 <= j < n && IsCopy(ls[j], ls[i]) ==> !Precedes(ls[j], ls[c])
  {
    if n == 0 then i
    else
      var c := FirstCopy(ls, i, n - 1);
      if IsCopy(ls[n - 1], ls[i]) && Precedes(ls[n - 1], ls[c]) then n - 1 else c
  }

  function CanonicalId(ls: seq<Layout>, i: nat): nat
    requires i < |ls| && IsVisual(ls[i])
  {
    ls[FirstCopy(ls, i, |ls|)].id
  }

  predicate IsDuplicate(ls: seq<Layout>, i: nat)
    requires i < |ls| && IsVisual(ls[i])
  {
    ls[i].id != CanonicalId(ls, i)
  }

  function PageShare(l: Layout): real {
    Area(l.box) / 1000000.0
  }

  /** The same small picture in the margin of three pages or more. */
  predicate IsDecoration(ls: seq<Layout>, i: nat)
    requires i < |ls|
  {
    && PageShare(ls[i]) <= 0.025 && (ls[i].box.bottom <= 180.0 || ls[i].box.top >= 820.0)
    && |set j | 0 <= j < |ls| && IsCopy(ls[j], ls[i]) :: ls[j].page| >= 3
  }

  function Points(holds: bool, n: int): int {
    if holds then n else 0
  }

  function Score(ls: seq<Layout>, i: nat): int
    requires i < |ls|
  {
    var l := ls[i];
    var decoration := IsDecoration(ls, i);
    Points(l.kind == Diagram || l.hintsAtDiagram, 4) + Points(l.kind == Chart, 3) + Points(!decoration, 2)
    + Points(PageShare(l) >= 0.1 && l.nativeLength < 80, 1) - Points(decoration, 4)
  }

  /** What the picture itself and its copies say about a region. */
  datatype Verdict = Verdict(page: nat, visual: bool, score: int, area: real, duplicateOf: Option<nat>, decoration: bool)

  function VerdictOf(ls: seq<Layout>, i: nat): Verdict
    requires i < |ls|
  {
    Verdict(ls[i].page, IsVisual(ls[i]), Score(ls, i), PageShare(ls[i]),
            if IsVisual(ls[i]) && IsDuplicate(ls, i) then Some(CanonicalId(ls, i)) else None, IsDecoration(ls, i))
  }

  function Verdicts(ls: seq<Layout>): seq<Verdict> {
    seq(|ls|, i requires 0 <= i < |ls| => VerdictOf(ls, i))
  }

  /** The threshold admits exactly the first copies of diagrams and charts that are no decoration. */
  lemma ThresholdAdmitsDiagramsAndCharts(ls: seq<Layout>, i: nat)
    requires i < |ls|
    ensures IsCandidate(VerdictOf(ls, i)) <==>
              && IsVisual(ls[i]) && !IsDecoration(ls, i) && !IsDuplicate(ls, i)
              && (ls[i].kind == Diagram || ls[i].kind == Chart || ls[i].hintsAtDiagram)
  {
  }

  predicate IsCandidate(v: Verdict) {
    v.visual && !v.decoration && v.duplicateOf.None? && v.score >= 5
  }

  function CandidatePages(vs: seq<Verdict>): set<nat> {
    set i | 0 <= i < |vs| && IsCandidate(vs[i]) :: vs[i].page
  }

  /** The best score of a candidate on page `p` among the first `n` regions. */
  function PageScore(vs: seq<Verdict>, p: nat, n: nat): int
    requires n <= |vs|
  {
    if n == 0 then 0
    else
      var s, v := PageScore(vs, p, n - 1), vs[n - 1];
      if IsCandidate(v) && v.page == p && v.score > s then v.score else s
  }

  function PageScores(vs: seq<Verdict>): nat -> int {
    (p: nat) => PageScore(vs, p, |vs|)
  }

  ghost predicate IsOnPage(vs: seq<Verdict>, i: int, p: nat) {
    0 <= i < |vs| && IsCandidate(vs[i]) && vs[i].page == p
  }

  /** The score of a candidate page is the best score of its candidates. */
  lemma {:induction false} PageScoreIsBest(vs: seq<Verdict>, p: nat, n: nat)
    requires n <= |vs|
    ensures forall i :: i < n && IsOnPage(vs, i, p) ==> vs[i].score <= PageScore(vs, p, n)
    ensures (exists i :: i < n && IsOnPage(vs, i, p)) ==>
              exists i :: i < n && IsOnPage(vs, i, p) && vs[i].score == PageScore(vs, p, n)
    ensures !(exists i :: i < n && IsOnPage(vs, i, p)) ==> PageScore(vs, p, n) == 0
  {
    if n > 0 {
      PageScoreIsBest(vs, p, n - 1);
      assert IsOnPage(vs, n - 1, p) <==> IsCandidate(vs[n - 1]) && vs[n - 1].page == p;
    }
  }

  // ---------------------------------------------------------------- the budget

  function Ceil(x: real): int {
    if x.Floor as real == x then x.Floor else x.Floor + 1
  }

  function AtLeastOne(n: int): nat {
    if n < 1 then 1 else n
  }

  function PageLimit(total: nat, fraction: real): nat {
    AtLeastOne(Ceil(fraction * total as real))
  }

  function Limit(total: nat, target: real, maximum: real): nat {
    Min(PageLimit(total, target), PageLimit(total, maximum))
  }

  ghost function ChosenPages(vs: seq<Verdict>, limit: nat): set<nat> {
    Chosen(PageScores(vs), CandidatePages(vs), limit)
  }

  /** No deferred page scores higher than a scheduled one. */
  lemma DeferredScoreNoHigher(vs: seq<Verdict>, limit: nat, p: nat, q: nat)
    requires p in ChosenPages(vs, limit) && q in CandidatePages(vs) && q !in ChosenPages(vs, limit)
    ensures PageScore(vs, p, |vs|) > PageScore(vs, q, |vs|) || (PageScore(vs, p, |vs|) == PageScore(vs, q, |vs|) && p < q)
  {
    ChosenOutrankOthers(PageScores(vs), CandidatePages(vs), limit, p, q);
  }

  // ---------------------------------------------------------------- what routing writes

  function NotVlm(): string -> bool {
    (e: string) => e != "vlm"
  }

  function Routed(v: Verdict, r: Region, chosen: set<nat>): Region {
    if !v.visual then r
    else
      var scheduled := IsCandidate(v) && v.page in chosen;
      Region(r.layout, Some(Routing(v.score, v.area, v.duplicateOf, v.decoration)),
             Some(if scheduled then Scheduled else if v.duplicateOf.Some? then ExactDuplicate
                  else if v.decoration then DecorationRule else ScoreReview),
             Filter(r.pending, NotVlm()) + if scheduled then ["vlm"] else [])
  }

  function Layouts(rs: seq<Region>): seq<Layout> {
    seq(|rs|, i requires 0 <= i < |rs| => rs[i].layout)
  }

  function AllRouted(vs: seq<Verdict>, rs: seq<Region>, chosen: set<nat>): seq<Region>
    requires |vs| == |rs|
  {
    seq(|rs|, i requires 0 <= i < |rs| => Routed(vs[i], rs[i], chosen))
  }

  ghost function After(rs: seq<Region>, total: nat, target: real, maximum: real): seq<Region> {
    var vs := Verdicts(Layouts(rs));
    AllRouted(vs, rs, ChosenPages(vs, Limit(total, target, maximum)))
  }

  /** What the packer asks of a region when everything is in scope. */
  predicate WantsVlm(r: Region) {
    IsVisual(r.layout) && (r.state.None? || r.state == Some(Scheduled))
  }

  function WantedPages(rs: seq<Region>): set<nat> {
    set i | 0 <= i < |rs| && WantsVlm(rs[i]) :: rs[i].layout.page
  }

  // ---------------------------------------------------------------- consequences

  /** The verdicts are about these regions. */
  ghost predicate Judge(vs: seq<Verdict>, rs: seq<Region>) {
    && |vs| == |rs|
    && forall i :: 0 <= i < |rs| ==> vs[i].page == rs[i].layout.page && vs[i].visual == IsVisual(rs[i].layout)
  }

  /** The pages sent to the queue are exactly the chosen ones. */
  lemma WantedPagesAreChosen(vs: seq<Verdict>, rs: seq<Region>, chosen: set<nat>)
    requires Judge(vs, rs) && chosen <= CandidatePages(vs)
    ensures WantedPages(AllRouted(vs, rs, chosen)) == chosen
  {
    var after := AllRouted(vs, rs, chosen);
    forall p | p in chosen
      ensures p in WantedPages(after)
    {
      var i :| 0 <= i < |vs| && IsCandidate(vs[i]) && vs[i].page == p;
      assert WantsVlm(after[i]) && after[i].layout.page == p;
    }
  }

  /** The budget guard of the packer, for a maximum no smaller than the one used here, cannot fire. */
  lemma PackagingStaysInBudget(rs: seq<Region>, total: nat, target: real, maximum: real)
    ensures |WantedPages(After(rs, total, target, maximum))| <= PageLimit(total, target)
    ensures |WantedPages(After(rs, total, target, maximum))| <= PageLimit(total, maximum)
  {
    var vs, limit := Verdicts(Layouts(rs)), Limit(total, target, maximum);
    ChosenIsWithinLimit(PageScores(vs), CandidatePages(vs), limit);
    WantedPagesAreChosen(vs, rs, ChosenPages(vs, limit));
  }

  lemma CopiesShareCanonicalId(ls: seq<Layout>, i: nat, j: nat)
    requires i < |ls| && j < |ls| && IsVisual(ls[i]) && IsVisual(ls[j])
    ensures IsCopy(ls[i], ls[j]) ==> CanonicalId(ls, i) == CanonicalId(ls, j)
  {
    var a, b := FirstCopy(ls, i, |ls|), FirstCopy(ls, j, |ls|);
    if IsCopy(ls[i], ls[j]) {
      assert !Precedes(ls[a], ls[b]) && !Precedes(ls[b], ls[a]);
    }
  }

  /** Identical pictures are observed at most once, except under one and the same id. */
  lemma OneScheduledRegionPerPicture(rs: seq<Region>, chosen: set<nat>, i: nat, j: nat)
    requires i < j < |rs|
    requires WantsVlm(AllRouted(Verdicts(Layouts(rs)), rs, chosen)[i]) && WantsVlm(AllRouted(Verdicts(Layouts(rs)), rs, chosen)[j])
    ensures rs[i].layout.pixels != rs[j].layout.pixels || rs[i].layout.id == rs[j].layout.id
  {
    CopiesShareCanonicalId(Layouts(rs), i, j);
  }

  const DIAGRAM := Region(Layout(0, 1, Diagram, FULL_PAGE, "pixels", 0, false), None, None, [])

  /** A diagram is scheduled even when the document is said to have no pages, and `Route` then fails. */
  lemma SchedulesWithoutPages(target: real, maximum: real)
    ensures WantedPages(After([DIAGRAM], 0, target, maximum)) == {1}
  {
    var rs := [DIAGRAM];
    var ls := Layouts(rs);
    var vs, limit := Verdicts(ls), Limit(0, target, maximum);
    SinglePictureIsNoCopy(ls);
    assert IsCandidate(vs[0]) && vs[0].page == 1;
    assert CandidatePages(vs) == {1};
    ChosenIsWithinLimit(PageScores(vs), CandidatePages(vs), limit);
    WantedPagesAreChosen(vs, rs, ChosenPages(vs, limit));
  }

  lemma SinglePictureIsNoCopy(ls: seq<Layout>)
    requires |ls| == 1 && IsVisual(ls[0])
    ensures !IsDuplicate(ls, 0) && !IsDecoration(ls, 0)
  {
    var pages := set j | 0 <= j < |ls| && IsCopy(ls[j], ls[0]) :: ls[j].page;
    assert pages == {ls[0].page};
  }

  lemma {:induction false} FilterTwice(s: seq<string>)
    ensures Filter(Filter(s, NotVlm()), NotVlm()) == Filter(s, NotVlm())
    ensures Filter(Filter(s, NotVlm()) + ["vlm"], NotVlm()) == Filter(s, NotVlm())
  {
    var t := Filter(s, NotVlm());
    forall i | 0 <= i < |t|
      ensures NotVlm()(t[i])
    {
      FilterMember(s, NotVlm(), t[i]);
    }
    FilterAll(t, NotVlm());
    assert (t + ["vlm"])[..|t|] == t;
  }

  lemma RoutingTwiceIsRoutingOnce(v: Verdict, r: Region, chosen: set<nat>)
    ensures Routed(v, Routed(v, r, chosen), chosen) == Routed(v, r, chosen)
  {
    FilterTwice(r.pending);
    assert Filter(r.pending, NotVlm()) + [] == Filter(r.pending, NotVlm());
  }

  lemma AllRoutingTwiceIsRoutingOnce(vs: seq<Verdict>, rs: seq<Region>, chosen: set<nat>)
    requires |vs| == |rs|
    ensures AllRouted(vs, AllRouted(vs, rs, chosen), chosen) == AllRouted(vs, rs, chosen)
    ensures Layouts(AllRouted(vs, rs, chosen)) == Layouts(rs)
  {
    forall i | 0 <= i < |rs|
      ensures Routed(vs[i], Routed(vs[i], rs[i], chosen), chosen) == Routed(vs[i], rs[i], chosen)
    {
      RoutingTwiceIsRoutingOnce(vs[i], rs[i], chosen);
    }
  }

  /** Routing the routed regions again changes nothing. */
  lemma ReroutingChangesNothing(rs: seq<Region>, total: nat, target: real, maximum: real)
    ensures After(After(rs, total, target, maximum), total, target, maximum) == After(rs, total, target, maximum)
  {
    var vs := Verdicts(Layouts(rs));
    AllRoutingTwiceIsRoutingOnce(vs, rs, ChosenPages(vs, Limit(total, target, maximum)));
  }

  // ---------------------------------------------------------------- the code

  /** The first pass writes scores and undoes earlier scheduling. */
  method ScoreAll(records: array<Region>, vs: seq<Verdict>)
    requires |vs| == records.Length
    modifies records
    ensures records[..] == AllRouted(vs, old(records[..]), {})
  {
    ghost var before := records[..];
    for i := 0 to records.Length
      invariant forall k :: 0 <= k < i ==> records[k] == Routed(vs[k], before[k], {})
      invariant forall k :: i <= k < records.Length ==> records[k] == before[k]
    {
      var v, r := vs[i], records[i];
      if v.visual {
        var state := if v.duplicateOf.Some? then ExactDuplicate else if v.decoration then DecorationRule else ScoreReview;
        records[i] := Region(r.layout, Some(Routing(v.score, v.area, v.duplicateOf, v.decoration)), Some(state),
                             Filter(r.pending, NotVlm()));
      }
      NothingScheduled(v, r);
      assert records[i] == Routed(v, r, {});
    }
  }

  lemma NothingScheduled(v: Verdict, r: Region)
    ensures v.visual ==> Routed(v, r, {}).pending == Filter(r.pending, NotVlm())
  {
    assert Filter(r.pending, NotVlm()) + [] == Filter(r.pending, NotVlm());
  }

  lemma SchedulingAddsVlm(v: Verdict, r: Region, chosen: set<nat>)
    ensures Routed(v, r, chosen) ==
      var scored := Routed(v, r, {});
      if IsCandidate(v) && v.page in chosen
      then scored.(state := Some(Scheduled), pending := scored.pending + ["vlm"]) else scored
  {
    NothingScheduled(v, r);
  }

  /** The second pass schedules the candidates on the chosen pages. */
  method Schedule(records: array<Region>, vs: seq<Verdict>, chosen: set<nat>, ghost before: seq<Region>)
    requires |vs| == |before| == records.Length && records[..] == AllRouted(vs, before, {})
    modifies records
    ensures records[..] == AllRouted(vs, before, chosen)
  {
    for i := 0 to records.Length
      invariant forall k :: 0 <= k < i ==> records[k] == Routed(vs[k], before[k], chosen)
      invariant forall k :: i <= k < records.Length ==> records[k] == Routed(vs[k], before[k], {})
    {
      SchedulingAddsVlm(vs[i], before[i], chosen);
      if IsCandidate(vs[i]) && vs[i].page in chosen {
        records[i] := records[i].(state := Some(Scheduled), pending := records[i].pending + ["vlm"]);
      }
      assert records[i] == Routed(vs[i], before[i], chosen);
    }
  }

  method Route(records: array<Region>, total: nat, target: real, maximum: real) returns (r: Result<Summary, RoutingError>)
    modifies records
    ensures r == Err(InvalidPageBudget) <==> !(0.0 < target <= maximum <= 1.0)
    ensures r == Err(InvalidPageBudget) ==> records[..] == old(records[..])
    ensures r != Err(InvalidPageBudget) ==> records[..] == After(old(records[..]), total, target, maximum)
    ensures r.Ok? ==> r.value.scheduledPages == WantedPages(records[..])
    ensures r == Err(NoPages) <==> 0.0 < target <= maximum <= 1.0 && total == 0 && WantedPages(records[..]) != {}
  {
    if !(0.0 < target <= maximum <= 1.0) {
      return Err(InvalidPageBudget);
    }
    ghost var before := records[..];
    var vs := Verdicts(Layouts(records[..]));
    var pages, limit := CandidatePages(vs), Limit(total, target, maximum);
    ScoreAll(records, vs);
    var chosen := ChoosePages(PageScores(vs), pages, limit);
    Schedule(records, vs, chosen, before);
    ChosenIsWithinLimit(PageScores(vs), pages, limit);
    assert Judge(vs, before);
    WantedPagesAreChosen(vs, before, chosen);
    if chosen != {} && total == 0 {
      return Err(NoPages);  // the share of pages is computed last
    }
    r := Ok(Summary(pages, chosen));
  }
}
