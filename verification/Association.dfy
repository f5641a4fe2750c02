/** Attaching parser candidates to the regions they cover. */
module Association {
  import opened Lists
  import opened Regions
  import opened Wrappers

  /** The part of the evidence that association writes; `rest` stands for what it carries along unread. */
  datatype Provenance = Provenance(rest: string, regionId: string, sourceSha: string, sameRegion: bool, aggregated: Option<nat>)

  datatype ParserCandidate = ParserCandidate(engine: string, kind: Option<Kind>, page: Option<nat>, box: Option<Box>, text: string,
                                 status: string, order: int, evidence: Provenance)

  datatype Region = Region(id: string, page: nat, kind: Kind, box: Box, sourceSha: string, candidates: seq<ParserCandidate>)

  datatype Reason = UnknownGeometryOrPage | NeedsRegionRouting

  datatype Unmatched = Unmatched(candidate: ParserCandidate, reason: Reason)

  // ---------------------------------------------------------------- overlap

  function Max(a: real, b: real): real {
    if a < b then b else a
  }

  function Min(a: real, b: real): real {
    if a < b then a else b
  }

  function Overlap(a: Box, b: Box): real {
    Max(0.0, Min(a.right, b.right) - Max(a.left, b.left)) * Max(0.0, Min(a.bottom, b.bottom) - Max(a.top, b.top))
  }

  function Iou(a: Box, b: Box): real {
    Overlap(a, b) / Max(0.000000001, Area(a) + Area(b) - Overlap(a, b))
  }

  predicate IsProper(b: Box) {
    b.left < b.right && b.top < b.bottom
  }

  lemma ProductGrows(w: real, h: real, x: real, y: real)
    requires 0.0 <= w <= x && 0.0 <= h <= y
    ensures 0.0 <= w * h <= x * y
  {
    assert w * h <= x * h && x * h <= x * y;
  }

  lemma OverlapIsWithinBoth(a: Box, b: Box)
    requires IsProper(a) && IsProper(b)
    ensures 0.0 <= Overlap(a, b) <= Area(a) && Overlap(a, b) <= Area(b) && Overlap(a, b) == Overlap(b, a)
  {
    var w := Max(0.0, Min(a.right, b.right) - Max(a.left, b.left));
    var h := Max(0.0, Min(a.bottom, b.bottom) - Max(a.top, b.top));
    ProductGrows(w, h, a.right - a.left, a.bottom - a.top);
    ProductGrows(w, h, b.right - b.left, b.bottom - b.top);
  }

  lemma RatioIsWithinOne(x: real, y: real)
    requires 0.0 <= x <= y && y > 0.0
    ensures 0.0 <= x / y <= 1.0
  {
  }

  lemma IouIsSymmetricShare(a: Box, b: Box)
    requires IsProper(a) && IsProper(b)
    ensures Iou(a, b) == Iou(b, a) && 0.0 <= Iou(a, b) <= 1.0
  {
    OverlapIsWithinBoth(a, b);
    RatioIsWithinOne(Overlap(a, b), Max(0.000000001, Area(a) + Area(b) - Overlap(a, b)));
  }

  // ---------------------------------------------------------------- one region

  predicate IsTextual(kind: Kind) {
    kind == TextKind || kind == Code
  }

  predicate IsFullPageText(r: Region) {
    IsTextual(r.kind) && r.box == FULL_PAGE
  }

  /** Same page, same kind, and at least half of the union shared. */
  predicate IsMatch(c: ParserCandidate, r: Region) {
    c.page == Some(r.page) && c.box.Some? && c.kind == Some(r.kind) && Iou(r.box, c.box.value) >= 0.5
  }

  function Bound(c: ParserCandidate, r: Region): ParserCandidate {
    c.(evidence := c.evidence.(regionId := r.id, sourceSha := r.sourceSha, sameRegion := true))
  }

  /** The matching candidates, in order, bound to the region. */
  function Matches(cs: seq<ParserCandidate>, r: Region): seq<ParserCandidate> {
    if cs == [] then []
    else Matches(cs[..|cs| - 1], r) + if IsMatch(cs[|cs| - 1], r) then [Bound(cs[|cs| - 1], r)] else []
  }

  predicate IsPart(c: ParserCandidate, r: Region) {
    c.page == Some(r.page) && c.kind.Some? && IsTextual(c.kind.value) && c.status == "ok" && c.box.Some?
  }

  /** The engines that read parts of the page, by first appearance. */
  function Engines(cs: seq<ParserCandidate>, r: Region): seq<string> {
    if cs == [] then []
    else
      var before, last := Engines(cs[..|cs| - 1], r), cs[|cs| - 1];
      if IsPart(last, r) && last.engine !in before then before + [last.engine] else before
  }

  function PartsOf(cs: seq<ParserCandidate>, r: Region, engine: string): seq<ParserCandidate> {
    if cs == [] then []
    else
      PartsOf(cs[..|cs| - 1], r, engine)
      + if IsPart(cs[|cs| - 1], r) && cs[|cs| - 1].engine == engine then [cs[|cs| - 1]] else []
  }

  predicate NotAfter(a: ParserCandidate, b: ParserCandidate) {
    a.order <= b.order
  }

  function Lines(s: seq<ParserCandidate>): string {
    if s == [] then "" else if |s| == 1 then s[0].text else Lines(s[..|s| - 1]) + "\n" + s[|s| - 1].text
  }

  /** One transcript of the page from all parts that an engine read. */
  function Aggregate(parts: seq<ParserCandidate>, r: Region, engine: string): ParserCandidate
    requires parts != []
  {
    var sorted := Sorted(parts, NotAfter);
    SortedKeeps(parts, NotAfter);
    ParserCandidate(engine, None, None, None, Lines(sorted), "ok", 0,
              Provenance(sorted[0].evidence.rest, r.id, r.sourceSha, true, Some(|parts|)))
  }

  function Aggregates(engines: seq<string>, cs: seq<ParserCandidate>, r: Region): seq<ParserCandidate> {
    if engines == [] then []
    else
      var last := engines[|engines| - 1];
      Aggregates(engines[..|engines| - 1], cs, r)
      + if PartsOf(cs, r, last) != [] then [Aggregate(PartsOf(cs, r, last), r, last)] else []
  }

  /** What the region is offered. */
  function Offers(cs: seq<ParserCandidate>, r: Region): seq<ParserCandidate> {
    if IsFullPageText(r) then Aggregates(Engines(cs, r), cs, r) else Matches(cs, r)
  }

  /** Offers that are already there are not added again. */
  function Attached(present: seq<ParserCandidate>, offers: seq<ParserCandidate>): seq<ParserCandidate> {
    if offers == [] then present
    else
      var before, last := Attached(present, offers[..|offers| - 1]), offers[|offers| - 1];
      if last in before then before else before + [last]
  }

  function Associated(r: Region, cs: seq<ParserCandidate>): Region {
    r.(candidates := Attached(r.candidates, Offers(cs, r)))
  }

  function AllAssociated(rs: seq<Region>, cs: seq<ParserCandidate>): seq<Region> {
    seq(|rs|, i requires 0 <= i < |rs| => Associated(rs[i], cs))
  }

  function CandidateCount(rs: seq<Region>): nat {
    if rs == [] then 0 else CandidateCount(rs[..|rs| - 1]) + |rs[|rs| - 1].candidates|
  }

  // ---------------------------------------------------------------- reporting

  predicate HasPlace(c: ParserCandidate) {
    c.box.Some? && c.page.Some? && c.page.value > 0
  }

  predicate IsNonText(c: ParserCandidate) {
    c.kind.Some? ==> !IsTextual(c.kind.value)
  }

  predicate AnyMatch(c: ParserCandidate, rs: seq<Region>) {
    exists i :: 0 <= i < |rs| && IsMatch(c, rs[i])
  }

  function Report(cs: seq<ParserCandidate>, rs: seq<Region>): seq<Unmatched> {
    if cs == [] then []
    else
      var c := cs[|cs| - 1];
      Report(cs[..|cs| - 1], rs)
      + if !HasPlace(c) then [Unmatched(c, UnknownGeometryOrPage)]
        else if IsNonText(c) && !AnyMatch(c, rs) then [Unmatched(c, NeedsRegionRouting)]
        else []
  }

  /** Where line `k` of the transcript ends. */
  function LineEnd(s: seq<ParserCandidate>, k: nat): nat
    requires k < |s|
  {
    |s[k].text| + if k == 0 then 0 else LineEnd(s, k - 1) + 1
  }

  /** Line `k` of the text is the text of part `k`, and a line break follows it unless it is the last. */
  ghost predicate HoldsLine(text: string, s: seq<ParserCandidate>, k: nat)
    requires k < |s|
  {
    && |s[k].text| <= LineEnd(s, k) <= |text| && text[LineEnd(s, k) - |s[k].text|..LineEnd(s, k)] == s[k].text
    && (if k + 1 < |s| then LineEnd(s, k) < |text| && text[LineEnd(s, k)] == '\n' else LineEnd(s, k) == |text|)
  }

  lemma {:induction false} LineEndOfPrefix(s: seq<ParserCandidate>, n: nat, k: nat)
    requires k < n <= |s|
    ensures LineEnd(s[..n], k) == LineEnd(s, k)
  {
    if k > 0 {
      LineEndOfPrefix(s, n, k - 1);
    }
  }

  lemma LastLineHolds(front: string, s: seq<ParserCandidate>, n: nat)
    requires 0 < n == |s| - 1 && |front| == LineEnd(s, n - 1)
    ensures HoldsLine(front + "\n" + s[n].text, s, n)
  {
    var text := front + "\n" + s[n].text;
    assert text[|front| + 1..] == s[n].text;
  }

  lemma EarlierLineHolds(front: string, s: seq<ParserCandidate>, n: nat, k: nat)
    requires k < n == |s| - 1 && HoldsLine(front, s[..n], k)
    ensures HoldsLine(front + "\n" + s[n].text, s, k)
  {
    LineEndOfPrefix(s, n, k);
    var text, end := front + "\n" + s[n].text, LineEnd(s, k);
    assert text[..|front|] == front;
    assert text[end - |s[k].text|..end] == front[end - |s[k].text|..end];
  }

  lemma {:induction false} LinesHoldAllParts(s: seq<ParserCandidate>, k: nat)
    requires k < |s|
    ensures HoldsLine(Lines(s), s, k)
  {
    var n := |s| - 1;
    if n > 0 {
      var front := Lines(s[..n]);
      assert Lines(s) == front + "\n" + s[n].text;
      if k < n {
        LinesHoldAllParts(s[..n], k);
        EarlierLineHolds(front, s, n, k);
      } else {
        LinesHoldAllParts(s[..n], n - 1);
        LineEndOfPrefix(s, n, n - 1);
        LastLineHolds(front, s, n);
      }
    }
  }

  /** The transcript of a page is the texts of all its parts, line by line in reading order. */
  lemma TranscriptHoldsAllParts(parts: seq<ParserCandidate>, r: Region, engine: string)
    requires parts != []
    ensures var sorted := Sorted(parts, NotAfter);
            && multiset(sorted) == multiset(parts) && IsOrdered(sorted, NotAfter)
            && forall k :: 0 <= k < |sorted| ==> HoldsLine(Aggregate(parts, r, engine).text, sorted, k)
  {
    var sorted := Sorted(parts, NotAfter);
    SortedKeeps(parts, NotAfter);
    SortedIsOrdered(parts, NotAfter);
    forall k | 0 <= k < |sorted|
      ensures HoldsLine(Lines(sorted), sorted, k)
    {
      LinesHoldAllParts(sorted, k);
    }
  }

  // ---------------------------------------------------------------- attaching

  lemma {:induction false} AttachedHolds(present: seq<ParserCandidate>, offers: seq<ParserCandidate>)
    ensures present <= Attached(present, offers)
    ensures forall c :: c in Attached(present, offers) <==> c in present || c in offers
  {
    if offers != [] {
      AttachedHolds(present, offers[..|offers| - 1]);
      assert offers == offers[..|offers| - 1] + [offers[|offers| - 1]];
    }
  }

  lemma {:induction false} NothingNewNothingAdded(present: seq<ParserCandidate>, offers: seq<ParserCandidate>)
    requires forall c :: c in offers ==> c in present
    ensures Attached(present, offers) == present
  {
    if offers != [] {
      NothingNewNothingAdded(present, offers[..|offers| - 1]);
    }
  }

  lemma {:induction false} MatchesMember(cs: seq<ParserCandidate>, r: Region, x: ParserCandidate)
    ensures x in Matches(cs, r) <==> exists c :: c in cs && IsMatch(c, r) && x == Bound(c, r)
  {
    if cs != [] {
      MatchesMember(cs[..|cs| - 1], r, x);
      assert cs == cs[..|cs| - 1] + [cs[|cs| - 1]];
    }
  }

  /** Offers depend on the region's frame only, not on what is attached to it. */
  lemma OffersIgnoreAttachments(cs: seq<ParserCandidate>, r: Region, present: seq<ParserCandidate>)
    ensures Offers(cs, r.(candidates := present)) == Offers(cs, r)
  {
    MatchesIgnoreAttachments(cs, r, present);
    EnginesIgnoreAttachments(cs, r, present);
    AggregatesIgnoreAttachments(Engines(cs, r), cs, r, present);
  }

  lemma {:induction false} MatchesIgnoreAttachments(cs: seq<ParserCandidate>, r: Region, present: seq<ParserCandidate>)
    ensures Matches(cs, r.(candidates := present)) == Matches(cs, r)
  {
    if cs != [] {
      MatchesIgnoreAttachments(cs[..|cs| - 1], r, present);
    }
  }

  lemma {:induction false} EnginesIgnoreAttachments(cs: seq<ParserCandidate>, r: Region, present: seq<ParserCandidate>)
    ensures Engines(cs, r.(candidates := present)) == Engines(cs, r)
  {
    if cs != [] {
      EnginesIgnoreAttachments(cs[..|cs| - 1], r, present);
    }
  }

  lemma {:induction false} PartsIgnoreAttachments(cs: seq<ParserCandidate>, r: Region, engine: string, present: seq<ParserCandidate>)
    ensures PartsOf(cs, r.(candidates := present), engine) == PartsOf(cs, r, engine)
  {
    if cs != [] {
      PartsIgnoreAttachments(cs[..|cs| - 1], r, engine, present);
    }
  }

  lemma {:induction false} AggregatesIgnoreAttachments(engines: seq<string>, cs: seq<ParserCandidate>, r: Region, present: seq<ParserCandidate>)
    ensures Aggregates(engines, cs, r.(candidates := present)) == Aggregates(engines, cs, r)
  {
    if engines != [] {
      AggregatesIgnoreAttachments(engines[..|engines| - 1], cs, r, present);
      PartsIgnoreAttachments(cs, r, engines[|engines| - 1], present);
    }
  }

  /** A second import of the same candidates leaves every region as it is. */
  lemma AssociatingTwiceAddsNothing(rs: seq<Region>, cs: seq<ParserCandidate>)
    ensures AllAssociated(AllAssociated(rs, cs), cs) == AllAssociated(rs, cs)
  {
    forall i | 0 <= i < |rs|
      ensures Associated(Associated(rs[i], cs), cs) == Associated(rs[i], cs)
    {
      var r, offers := rs[i], Offers(cs, rs[i]);
      OffersIgnoreAttachments(cs, r, Attached(r.candidates, offers));
      AttachedHolds(r.candidates, offers);
      NothingNewNothingAdded(Attached(r.candidates, offers), offers);
    }
  }

  /** A candidate that is no text and has a place is attached to every region it matches. */
  lemma EveryMatchIsAttached(rs: seq<Region>, cs: seq<ParserCandidate>, c: ParserCandidate, i: nat)
    requires i < |rs| && c in cs && IsNonText(c) && IsMatch(c, rs[i])
    ensures Bound(c, rs[i]) in AllAssociated(rs, cs)[i].candidates
  {
    MatchesMember(cs, rs[i], Bound(c, rs[i]));
    AttachedHolds(rs[i].candidates, Offers(cs, rs[i]));
  }

  lemma {:induction false} ReportMember(cs: seq<ParserCandidate>, rs: seq<Region>, u: Unmatched)
    ensures u in Report(cs, rs) <==>
      && u.candidate in cs
      && (if u.reason == UnknownGeometryOrPage then !HasPlace(u.candidate)
          else HasPlace(u.candidate) && IsNonText(u.candidate) && !AnyMatch(u.candidate, rs))
  {
    if cs != [] {
      ReportMember(cs[..|cs| - 1], rs, u);
      assert cs == cs[..|cs| - 1] + [cs[|cs| - 1]];
    }
  }

  /** The candidate, bound to region `i`, was attached to it just now. */
  ghost predicate IsNewlyAttached(c: ParserCandidate, rs: seq<Region>, cs: seq<ParserCandidate>, i: nat)
    requires i < |rs|
  {
    Bound(c, rs[i]) in AllAssociated(rs, cs)[i].candidates && Bound(c, rs[i]) !in rs[i].candidates
  }

  /** Such a candidate is reported exactly when no region matches it; otherwise a region has it.
      It is never both reported and attached. */
  lemma AttachedOrReported(rs: seq<Region>, cs: seq<ParserCandidate>, c: ParserCandidate)
    requires c in cs && IsNonText(c) && HasPlace(c)
    ensures Unmatched(c, NeedsRegionRouting) in Report(cs, rs) <==> !AnyMatch(c, rs)
    ensures Unmatched(c, UnknownGeometryOrPage) !in Report(cs, rs)
    ensures AnyMatch(c, rs) ==> exists i :: 0 <= i < |rs| && Bound(c, rs[i]) in AllAssociated(rs, cs)[i].candidates
    ensures Unmatched(c, NeedsRegionRouting) in Report(cs, rs) ==> forall i :: 0 <= i < |rs| ==> !IsNewlyAttached(c, rs, cs, i)
  {
    ReportMember(cs, rs, Unmatched(c, NeedsRegionRouting));
    ReportMember(cs, rs, Unmatched(c, UnknownGeometryOrPage));
    forall i | 0 <= i < |rs| && IsNewlyAttached(c, rs, cs, i)
      ensures AnyMatch(c, rs)
    {
      OnlyLocatedCandidatesAreAttached(rs, cs, i, Bound(c, rs[i]));
      assert IsMatch(c, rs[i]);
    }
    if AnyMatch(c, rs) {
      SomeMatchIsAttached(rs, cs, c);
    }
  }

  lemma SomeMatchIsAttached(rs: seq<Region>, cs: seq<ParserCandidate>, c: ParserCandidate)
    requires c in cs && IsNonText(c) && AnyMatch(c, rs)
    ensures exists i :: 0 <= i < |rs| && Bound(c, rs[i]) in AllAssociated(rs, cs)[i].candidates
  {
    var i :| 0 <= i < |rs| && IsMatch(c, rs[i]);
    EveryMatchIsAttached(rs, cs, c, i);
  }

  /** An offer made from parts with a box each, or a bound candidate with a box. */
  ghost predicate IsLocated(x: ParserCandidate, cs: seq<ParserCandidate>, r: Region) {
    || (exists c :: c in cs && IsMatch(c, r) && x == Bound(c, r))
    || (exists parts, engine :: IsAggregateOf(x, parts, engine, cs, r))
  }

  ghost predicate IsAggregateOf(x: ParserCandidate, parts: seq<ParserCandidate>, engine: string, cs: seq<ParserCandidate>, r: Region) {
    && parts != [] && x == Aggregate(parts, r, engine)
    && forall p :: p in parts ==> p in cs && IsPart(p, r) && p.engine == engine
  }

  lemma {:induction false} PartsHavePlaces(cs: seq<ParserCandidate>, r: Region, engine: string)
    ensures forall p :: p in PartsOf(cs, r, engine) <==> p in cs && IsPart(p, r) && p.engine == engine
  {
    if cs != [] {
      PartsHavePlaces(cs[..|cs| - 1], r, engine);
      assert cs == cs[..|cs| - 1] + [cs[|cs| - 1]];
    }
  }

  lemma {:induction false} AggregatesAreLocated(engines: seq<string>, cs: seq<ParserCandidate>, r: Region, x: ParserCandidate)
    requires x in Aggregates(engines, cs, r)
    ensures exists parts, engine :: IsAggregateOf(x, parts, engine, cs, r)
  {
    var last := engines[|engines| - 1];
    if x in Aggregates(engines[..|engines| - 1], cs, r) {
      AggregatesAreLocated(engines[..|engines| - 1], cs, r, x);
    } else {
      PartsHavePlaces(cs, r, last);
      assert IsAggregateOf(x, PartsOf(cs, r, last), last, cs, r);
    }
  }

  /** Nothing without a box is ever attached. */
  lemma OnlyLocatedCandidatesAreAttached(rs: seq<Region>, cs: seq<ParserCandidate>, i: nat, x: ParserCandidate)
    requires i < |rs| && x in AllAssociated(rs, cs)[i].candidates && x !in rs[i].candidates
    ensures IsLocated(x, cs, rs[i])
  {
    AttachedHolds(rs[i].candidates, Offers(cs, rs[i]));
    if IsFullPageText(rs[i]) {
      AggregatesAreLocated(Engines(cs, rs[i]), cs, rs[i], x);
    } else {
      MatchesMember(cs, rs[i], x);
    }
  }

  /** The offer `x` holds the text of `c`: as one of its lines on a full page, alone elsewhere. */
  ghost predicate Carries(x: ParserCandidate, c: ParserCandidate, cs: seq<ParserCandidate>, r: Region) {
    if IsFullPageText(r) then
      exists engine, parts :: IsAggregateOf(x, parts, engine, cs, r) && parts == PartsOf(cs, r, engine) && c in parts
    else x == Bound(c, r)
  }

  lemma {:induction false} EnginesMember(cs: seq<ParserCandidate>, r: Region, c: ParserCandidate)
    requires c in cs && IsPart(c, r)
    ensures c.engine in Engines(cs, r)
  {
    if c in cs[..|cs| - 1] {
      EnginesMember(cs[..|cs| - 1], r, c);
    }
  }

  lemma {:induction false} AggregatesMember(engines: seq<string>, cs: seq<ParserCandidate>, r: Region, engine: string)
    requires engine in engines && PartsOf(cs, r, engine) != []
    ensures Aggregate(PartsOf(cs, r, engine), r, engine) in Aggregates(engines, cs, r)
  {
    if engine in engines[..|engines| - 1] {
      AggregatesMember(engines[..|engines| - 1], cs, r, engine);
    }
  }

  /** A candidate reaches a full page as one of its parts, and any other region by matching it. */
  lemma TextReachesExactly(cs: seq<ParserCandidate>, r: Region, c: ParserCandidate)
    requires c in cs
    ensures (exists x :: x in Offers(cs, r) && Carries(x, c, cs, r))
       <==> if IsFullPageText(r) then IsPart(c, r) else IsMatch(c, r)
  {
    PartsHavePlaces(cs, r, c.engine);
    MatchesMember(cs, r, Bound(c, r));
    if IsFullPageText(r) && IsPart(c, r) {
      EnginesMember(cs, r, c);
      AggregatesMember(Engines(cs, r), cs, r, c.engine);
      var x := Aggregate(PartsOf(cs, r, c.engine), r, c.engine);
      assert IsAggregateOf(x, PartsOf(cs, r, c.engine), c.engine, cs, r);
      assert Carries(x, c, cs, r);
    }
    if !IsFullPageText(r) && IsMatch(c, r) {
      assert Carries(Bound(c, r), c, cs, r);
    }
  }

  /** A text fragment with a place is never reported, so one that reaches no region is dropped silently. */
  lemma TextIsNeverReported(rs: seq<Region>, cs: seq<ParserCandidate>, c: ParserCandidate, reason: Reason)
    requires HasPlace(c) && !IsNonText(c)
    ensures Unmatched(c, reason) !in Report(cs, rs)
  {
    ReportMember(cs, rs, Unmatched(c, reason));
  }

  /** A failed text reading of a page is dropped: neither attached to the page's region nor reported. */
  lemma FailedTextIsDropped()
    ensures var r := Region("r", 1, TextKind, FULL_PAGE, "sha", []);
            var c := ParserCandidate("ocr", Some(TextKind), Some(1), Some(FULL_PAGE), "text", "error", 0, Provenance("", "", "", false, None));
            AllAssociated([r], [c]) == [r] && Report([c], [r]) == []
  {
    var r := Region("r", 1, TextKind, FULL_PAGE, "sha", []);
    var c := ParserCandidate("ocr", Some(TextKind), Some(1), Some(FULL_PAGE), "text", "error", 0, Provenance("", "", "", false, None));
    assert [c][..0] == [];
    assert Engines([c], r) == [];
  }

  // ---------------------------------------------------------------- the code

  /** Appends the offers that are new. */
  method Attach(present: seq<ParserCandidate>, offers: seq<ParserCandidate>) returns (result: seq<ParserCandidate>, added: nat)
    ensures result == Attached(present, offers) && added == |result| - |present|
  {
    result, added := present, 0;
    for i := 0 to |offers|
      invariant result == Attached(present, offers[..i]) && added == |result| - |present|
    {
      assert offers[..i + 1][..i] == offers[..i];
      if offers[i] !in result {
        result := result + [offers[i]];
        added := added + 1;
      }
    }
    assert offers[..|offers|] == offers;
  }

  method ReportUnmatched(cs: seq<ParserCandidate>, rs: seq<Region>) returns (unmatched: seq<Unmatched>)
    ensures unmatched == Report(cs, rs)
  {
    unmatched := [];
    for i := 0 to |cs|
      invariant unmatched == Report(cs[..i], rs)
    {
      assert cs[..i + 1][..i] == cs[..i];
      if !HasPlace(cs[i]) {
        unmatched := unmatched + [Unmatched(cs[i], UnknownGeometryOrPage)];
      } else if IsNonText(cs[i]) && !AnyMatch(cs[i], rs) {
        unmatched := unmatched + [Unmatched(cs[i], NeedsRegionRouting)];
      }
    }
    assert cs[..|cs|] == cs;
  }

  /** The first `i` regions have been replaced, gaining `added` candidates. */
  ghost predicate IsHalfway(now: seq<Region>, before: seq<Region>, after: seq<Region>, i: nat, added: int) {
    && |now| == |before| == |after| && i <= |now| && now == after[..i] + before[i..]
    && added == CandidateCount(after[..i]) - CandidateCount(before[..i])
  }

  lemma NextIsHalfway(now: seq<Region>, before: seq<Region>, after: seq<Region>, i: nat, added: int)
    requires IsHalfway(now, before, after, i, added) && i < |now|
    ensures now[i] == before[i]
    ensures IsHalfway(now[i := after[i]], before, after, i + 1, added + |after[i].candidates| - |before[i].candidates|)
  {
    assert before[..i + 1][..i] == before[..i] && after[..i + 1][..i] == after[..i];
  }

  lemma {:induction false} ReportIgnoresAttachments(cs: seq<ParserCandidate>, rs: seq<Region>, after: seq<Region>)
    requires |rs| == |after| && forall i :: 0 <= i < |rs| ==> after[i].(candidates := []) == rs[i].(candidates := [])
    ensures Report(cs, after) == Report(cs, rs)
  {
    if cs != [] {
      ReportIgnoresAttachments(cs[..|cs| - 1], rs, after);
      var c := cs[|cs| - 1];
      forall i | 0 <= i < |rs|
        ensures IsMatch(c, after[i]) == IsMatch(c, rs[i])
      {
        var a, b := after[i].(candidates := []), rs[i].(candidates := []);
        assert a == b;
      }
    }
  }

  method AssociateRegion(r: Region, cs: seq<ParserCandidate>) returns (result: Region, added: nat)
    ensures result == Associated(r, cs) && added == |result.candidates| - |r.candidates|
  {
    var more;
    more, added := Attach(r.candidates, Offers(cs, r));
    result := r.(candidates := more);
  }

  method AssociateRegions(records: array<Region>, cs: seq<ParserCandidate>, ghost before: seq<Region>, ghost after: seq<Region>)
    returns (added: nat)
    requires records[..] == before && |after| == |before|
    requires forall i :: 0 <= i < |before| ==> after[i] == Associated(before[i], cs)
    modifies records
    ensures records[..] == after && added == CandidateCount(after) - CandidateCount(before)
  {
    added := 0;
    for i := 0 to records.Length
      invariant IsHalfway(records[..], before, after, i, added)
    {
      ghost var now := records[..];
      NextIsHalfway(now, before, after, i, added);
      var r, n := AssociateRegion(records[i], cs);
      records[i] := r;
      added := added + n;
      assert records[..] == now[i := after[i]];
    }
    assert before[..|before|] == before && after[..|after|] == after;
  }

  method Associate(records: array<Region>, cs: seq<ParserCandidate>) returns (added: nat, unmatched: seq<Unmatched>)
    modifies records
    ensures records[..] == AllAssociated(old(records[..]), cs)
    ensures added == CandidateCount(records[..]) - CandidateCount(old(records[..]))
    ensures unmatched == Report(cs, old(records[..]))
  {
    ghost var before, after := records[..], AllAssociated(records[..], cs);
    added := AssociateRegions(records, cs, before, after);
    ReportIgnoresAttachments(cs, before, after);
    unmatched := ReportUnmatched(cs, records[..]);
  }
}
