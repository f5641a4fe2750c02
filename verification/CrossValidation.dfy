/** What an extraction candidate is and which region it speaks about. */
module Evidence {
  import opened Wrappers

  /** Absent and empty fields are both empty strings here: the code treats them alike. */
  datatype Evidence =
    | NotAnObject
    | Evidence(regionId: string, sourceSha: string, cropSha: string, inputFileSha: string, renderSha: string,
               contextSha: string, backendFamily: string, lineage: string,
               structuralErrors: bool, geometryUnknown: bool)

  /** `engine` and the family names are taken in lower case. */
  datatype Candidate = Candidate(engine: string, text: string, status: Option<string>,
                                 backendFamily: string, lineage: string, evidence: Evidence)

  const NO_EVIDENCE := Evidence("", "", "", "", "", "", "", "", false, false)

  datatype Role = Vlm | MathRecognition | TableRecognition | Ocr | UnknownParser | NativePdf | Pptx | Other(engine: string)

  predicate HasAt(s: string, i: nat, part: string) {
    i + |part| <= |s| && s[i..i + |part|] == part
  }

  predicate Contains(s: string, part: string) {
    exists i :: 0 <= i <= |s| && HasAt(s, i, part)
  }

  function Or(s: string, t: string): string {
    if s != "" then s else t
  }

  function BackendOf(c: Candidate): string {
    Or(c.backendFamily, if c.evidence.NotAnObject? then "" else c.evidence.backendFamily)
  }

  function RoleOf(c: Candidate): Role {
    var e, backend := c.engine, BackendOf(c);
    if Contains(e, "qwen") || Contains(e, "vlm") || Contains(e, "vision_llm") then Vlm
    else if Contains(e, "formula") || Contains(e, "math") then MathRecognition
    else if Contains(e, "table") then TableRecognition
    else if Contains(backend, "paddle") || (Contains(e, "docling") && backend == "docling_default_ocr") then Ocr
    else if Contains(e, "ocr") || Contains(e, "paddle") then Ocr
    else if Contains(e, "docling") && (backend == "" || !Contains(backend, "native")) then UnknownParser
    else if Contains(e, "mineru") then UnknownParser
    else if Contains(e, "pptx") then Pptx
    else if Contains(e, "native") || Contains(e, "pymupdf") || Contains(e, "docling") then NativePdf
    else Other(e)
  }

  function RoleName(role: Role): string {
    match role
    case Vlm => "vlm"
    case MathRecognition => "math_recognition"
    case TableRecognition => "table_recognition"
    case Ocr => "ocr"
    case UnknownParser => "unknown_parser"
    case NativePdf => "native_pdf"
    case Pptx => "pptx"
    case Other(engine) => engine
  }

  /** The backend that a candidate names, itself or in its evidence, where the extractors put it. */
  function NamedBackend(c: Candidate): string {
    Or(Or(c.backendFamily, c.lineage),
       if c.evidence.NotAnObject? then "" else Or(c.evidence.backendFamily, c.evidence.lineage))
  }

  /** Candidates of one family share a backend and cannot confirm each other. */
  function FamilyOf(c: Candidate): string {
    var raw := Or(NamedBackend(c), RoleName(RoleOf(c)));
    if Contains(raw, "paddle") then "paddle"
    else if raw == "native_pdf" || raw == "pymupdf" || raw == "native" || Contains(raw, "docling_native") then "native_pdf"
    else raw
  }

  predicate IsPaddle(c: Candidate) {
    Contains(NamedBackend(c), "paddle")
  }

  /** Whatever the engines are called, two paddle backends are one family. */
  lemma PaddleBackendsAreOneFamily(c: Candidate, d: Candidate)
    requires IsPaddle(c) && IsPaddle(d)
    ensures FamilyOf(c) == FamilyOf(d)
  {
    assert !Contains("", "paddle");
  }

  /** A reading as the paddle extractors write it, with the backend in its evidence, is one. */
  lemma ExtractorsNameBackendInEvidence(c: Candidate)
    requires c.backendFamily == "" && c.lineage == "" && c.evidence.Evidence? && c.evidence.backendFamily == "paddle"
    ensures IsPaddle(c) && FamilyOf(c) == "paddle" && (RoleOf(c) == Ocr || RoleOf(c) in {Vlm, MathRecognition, TableRecognition})
  {
    var name := NamedBackend(c);
    assert HasAt(name, 0, "paddle");
  }

  // ---------------------------------------------------------------- region identity

  datatype Identity = Identity(id: string, sourceSha: string, cropSha: string, renderSha: string,
                               contextSha: string, isFullSlide: bool)

  /** Both name something, and not the same thing. */
  predicate Differs(claimed: string, expected: string) {
    claimed != "" && expected != "" && claimed != expected
  }

  /** Missing identity is no mismatch. */
  predicate IsSameRegion(c: Candidate, r: Identity) {
    var e := c.evidence;
    e.Evidence? ==>
      && !Differs(e.regionId, r.id) && !Differs(e.cropSha, r.cropSha) && !Differs(e.sourceSha, r.sourceSha)
      && !Differs(e.renderSha, r.renderSha) && !Differs(e.contextSha, r.contextSha)
      && !Differs(e.inputFileSha, r.cropSha)
  }

  /** Same source document, and something that pins the region down. */
  predicate IsRegionBound(c: Candidate, r: Identity) {
    var e := c.evidence;
    && e.Evidence? && r.sourceSha != "" && e.sourceSha == r.sourceSha && IsSameRegion(c, r)
    && (|| (e.regionId != "" && e.regionId == r.id)
        || (Or(e.cropSha, e.inputFileSha) != "" && Or(e.cropSha, e.inputFileSha) == r.cropSha)
        || (r.isFullSlide && e.renderSha != "" && e.renderSha == r.renderSha))
  }
}

/** Source-aware assessment of the extraction candidates of one region. */
module CrossValidation {
  import opened Evidence
  import opened Regions
  import opened Wrappers
  import opened Lists

  datatype Bucket = Trusted | Uncertain | Critical
  datatype Risk = Unrated | Low | High

  /** Classification of engines, text normalisation, pattern tests and the similarity measure.
      The results hold whatever these compute; `Standard` has the classification that is in use. */
  datatype Toolkit = Toolkit(
    roleOf: Candidate -> Role,
    familyOf: Candidate -> string,
    normalise: string -> string,
    compose: string -> string,  // canonical composition, then trimmed
    corruption: string -> set<string>,
    formulaIssues: string -> set<string>,
    looksLikeExercise: string -> bool,
    looksLikeMath: string -> bool,
    numbersConflict: (string, string) -> bool,
    similarity: (string, string) -> real,
    looksUncertain: string -> bool)

  function Standard(t: Toolkit): Toolkit {
    t.(roleOf := RoleOf, familyOf := FamilyOf)
  }

  /** The part of a record that extraction and import fill in. */
  datatype Input = Input(identity: Identity, kind: Kind, split: string, nativeText: string, title: string,
                         contextText: string, candidates: seq<Candidate>, exerciseAnswer: bool, containsFormula: bool,
                         pendingEngines: seq<string>, imageIssues: bool, sourceIntegrityError: bool)

  datatype Reason =
    | CandidateFault(fault: string) | CandidateSourceIdentityMismatch
    | IndependentExtractorsDisagree | NumericOrSignDisagreement
    | HighRiskRequiresHumanReview | MathematicalContentRequiresSourceReview
    | VlmDescriptionRequiresSourceReview | VlmReportsPartialOrUncertainObservation
    | NoIndependentExactTranscriptConfirmation | SelectedCandidateRegionEvidenceUnbound
    | ExtractionPending | NoUsableExtraction | ExtractorsPending | SourceImageQualityRequiresReview
    | ExtractorFormulaStructureError | SourceIntegrityError

  /** How one candidate fared on its own. */
  datatype Entry = Entry(index: nat, candidate: Candidate, role: Role, lineage: string, faults: set<string>,
                         evidenceMatches: bool, regionBound: bool, usable: bool)

  /** How one usable transcript compares with the selected candidate. */
  datatype Row = Row(other: Candidate, independent: bool, exact: bool, confirms: bool,
                     similarity: real, numericConflict: bool)

  datatype Audit = Audit(entries: seq<Entry>, rows: seq<Row>, selected: Option<Candidate>)

  /** The digest of a record; as digests are injective it is represented by what it digests. */
  datatype Revision = Revision(input: Input, bucket: Bucket, risk: Risk, proposed: string, reasons: set<Reason>, audit: Audit)

  datatype Outcome = Outcome(bucket: Bucket, proposed: string, reasons: set<Reason>, audit: Audit, revision: Revision)

  datatype Record = Record(input: Input, risk: Risk, outcome: Option<Outcome>)

  // ---------------------------------------------------------------- single candidates

  /** The native text of the record joins in when no candidate carries it. */
  function Candidates(t: Toolkit, r: Input): seq<Candidate> {
    if r.nativeText != "" && !AnyNative(t, r.candidates) then
      [Candidate("pymupdf_native", r.nativeText, Some("ok"), "", "",
                 NO_EVIDENCE.(sourceSha := r.identity.sourceSha, regionId := r.identity.id))] + r.candidates
    else r.candidates
  }

  predicate IsNative(t: Toolkit, c: Candidate) {
    t.roleOf(c) == NativePdf || t.roleOf(c) == Pptx
  }

  function NotNative(t: Toolkit): Candidate -> bool {
    (c: Candidate) => !IsNative(t, c)
  }

  predicate AnyNative(t: Toolkit, cs: seq<Candidate>) {
    !All(cs, NotNative(t))
  }

  predicate IsSuccess(status: string) {
    status == "ok" || status == "success" || status == "completed" || status == "valid"
  }

  predicate IsWaiting(status: string) {
    status == "pending" || status == "not_run" || status == "queued"
  }

  /** A candidate without a status counts as successful here, though not everywhere. */
  function StatusOf(c: Candidate): string {
    if c.status.Some? then c.status.value else "ok"
  }

  predicate ReportsStructuralErrors(c: Candidate) {
    c.evidence.Evidence? && c.evidence.structuralErrors
  }

  function Faults(t: Toolkit, c: Candidate): set<string> {
    if t.roleOf(c) == MathRecognition then
      t.formulaIssues(c.text) + if ReportsStructuralErrors(c) then {"reported_formula_structure_error"} else {}
    else t.corruption(c.text)
  }

  predicate IsUsable(t: Toolkit, c: Candidate, r: Identity) {
    IsSuccess(StatusOf(c)) && t.normalise(c.text) != "" && Faults(t, c) == {} && IsSameRegion(c, r)
  }

  function UsableFor(t: Toolkit, r: Identity): Candidate -> bool {
    (c: Candidate) => IsUsable(t, c, r)
  }

  function Usable(t: Toolkit, cs: seq<Candidate>, r: Identity): seq<Candidate> {
    Filter(cs, UsableFor(t, r))
  }

  function EntryOf(t: Toolkit, cs: seq<Candidate>, i: nat, r: Identity): Entry
    requires i < |cs|
  {
    var c := cs[i];
    Entry(i, c, t.roleOf(c), t.familyOf(c), Faults(t, c), IsSameRegion(c, r), IsRegionBound(c, r), IsUsable(t, c, r))
  }

  function EntriesOf(t: Toolkit, cs: seq<Candidate>, r: Identity): seq<Entry> {
    seq(|cs|, i requires 0 <= i < |cs| => EntryOf(t, cs, i, r))
  }

  // ---------------------------------------------------------------- selection

  function Priority(t: Toolkit, c: Candidate, kind: Kind): nat {
    var role := t.roleOf(c);
    match kind
    case Diagram | Chart | Image =>
      if role == Vlm then 0 else if role == Pptx then 1 else if role == NativePdf then 2 else if role == Ocr then 3 else 4
    case Formula =>
      if role == MathRecognition then 0 else if role == Pptx then 1 else if role == NativePdf then 2
      else if role == Ocr then 3 else if role == Vlm then 4 else 5
    case Table =>
      if role == TableRecognition then 0 else if role == Pptx then 1 else if role == NativePdf then 2
      else if role == Ocr then 3 else if role == Vlm then 4 else 5
    case TextKind | Code =>
      if role == Pptx then 0 else if role == NativePdf then 1 else if role == Ocr then 2 else if role == Vlm then 3 else 4
  }

  function RankFor(t: Toolkit, kind: Kind): Candidate -> nat {
    (c: Candidate) => Priority(t, c, kind)
  }

  // ---------------------------------------------------------------- comparison

  predicate IsTranscriptKind(kind: Kind) {
    kind == TextKind || kind == Code
  }

  /** An OCR reading and a native one of different families, both tied to this region. */
  predicate Confirms(t: Toolkit, c: Candidate, selected: Candidate, r: Identity) {
    && t.familyOf(c) != t.familyOf(selected)
    && (t.roleOf(c) == Ocr || t.roleOf(selected) == Ocr)
    && (IsNative(t, c) || IsNative(t, selected))
    && IsRegionBound(c, r) && IsRegionBound(selected, r)
    && !(c.evidence.Evidence? && c.evidence.geometryUnknown)
  }

  function RowOf(t: Toolkit, c: Candidate, selected: Candidate, r: Identity): Row {
    var proposed := t.compose(selected.text);
    Row(c, t.familyOf(c) != t.familyOf(selected), t.normalise(proposed) == t.normalise(c.text), Confirms(t, c, selected, r),
        t.similarity(t.normalise(proposed), t.normalise(c.text)), t.numbersConflict(proposed, c.text))
  }

  function TranscriptFor(t: Toolkit): Candidate -> bool {
    (c: Candidate) => t.roleOf(c) != Vlm
  }

  /** One row for every usable transcript but the selected one, at position `s`. */
  function Rows(t: Toolkit, us: seq<Candidate>, s: nat, r: Identity): seq<Row>
    requires s < |us|
  {
    var others := Others(us, s, TranscriptFor(t));
    seq(|others|, i requires 0 <= i < |others| => RowOf(t, others[i], us[s], r))
  }

  predicate AnyMatch(rows: seq<Row>) {
    exists i :: 0 <= i < |rows| && rows[i].confirms && rows[i].exact
  }

  predicate AllExact(rows: seq<Row>) {
    forall i :: 0 <= i < |rows| ==> rows[i].exact
  }

  // ---------------------------------------------------------------- the verdict

  function Context(r: Input): string {
    r.nativeText + " " + r.title + " " + r.contextText
  }

  predicate HasMath(t: Toolkit, r: Input) {
    r.containsFormula || t.looksLikeMath(Context(r))
  }

  /** The input alone calls for a human. */
  predicate IsRisky(t: Toolkit, r: Input) {
    || r.kind in {Formula, Table, Diagram, Chart, Code}
    || r.exerciseAnswer || t.looksLikeExercise(Context(r))
    || HasMath(t, r)
  }

  predicate IsHighRisk(t: Toolkit, r: Record) {
    r.risk == High || IsRisky(t, r.input)
  }

  /** A formula reading that did not succeed and is not merely waiting; one without status included. */
  predicate IsFormulaError(t: Toolkit, c: Candidate) {
    t.roleOf(c) == MathRecognition && (c.status.None? || !(IsSuccess(c.status.value) || IsWaiting(c.status.value)))
  }

  predicate IsBrokenFormula(t: Toolkit, c: Candidate) {
    t.roleOf(c) == MathRecognition && (t.formulaIssues(c.text) != {} || ReportsStructuralErrors(c))
  }

  function SameRegionAs(r: Identity): Candidate -> bool {
    (c: Candidate) => IsSameRegion(c, r)
  }

  predicate HasMismatch(cs: seq<Candidate>, r: Identity) {
    !All(cs, SameRegionAs(r))
  }

  predicate AnyUnusable(t: Toolkit, cs: seq<Candidate>, r: Identity) {
    !All(cs, UsableFor(t, r))
  }

  predicate IsPending(r: Input, cs: seq<Candidate>) {
    r.pendingEngines != [] || exists i :: 0 <= i < |cs| && cs[i].status.Some? && IsWaiting(cs[i].status.value)
  }

  /** The bucket that the comparisons suggest, before any veto. */
  function FirstBucket(t: Toolkit, r: Input, highRisk: bool, us: seq<Candidate>, rows: seq<Row>): Bucket {
    var cs := Candidates(t, r);
    if us == [] then (if IsPending(r, cs) then Uncertain else Critical)
    else if AnyMatch(rows) && !highRisk && AllExact(rows) && !AnyUnusable(t, cs, r.identity) then Trusted
    else Uncertain
  }

  /** The vetoes, in the order in which they apply. */
  function FinalBucket(t: Toolkit, r: Input, first: Bucket): Bucket {
    var cs := Candidates(t, r);
    var calm := if first == Trusted && (r.pendingEngines != [] || r.imageIssues) then Uncertain else first;
    if HasMismatch(cs, r.identity) || r.sourceIntegrityError then Critical
    else if r.kind == Formula && exists i :: 0 <= i < |cs| && IsBrokenFormula(t, cs[i]) then Critical
    else if r.kind == Formula
         && exists i :: 0 <= i < |cs| && IsFormulaError(t, cs[i]) && ReportsStructuralErrors(cs[i]) then Critical
    else calm
  }

  function When(condition: bool, reason: Reason): set<Reason> {
    if condition then {reason} else {}
  }

  function AllFaults(t: Toolkit, cs: seq<Candidate>): set<string> {
    if cs == [] then {} else AllFaults(t, cs[..|cs| - 1]) + Faults(t, cs[|cs| - 1])
  }

  function Reasons(t: Toolkit, r: Input, highRisk: bool, us: seq<Candidate>, rows: seq<Row>): set<Reason> {
    var cs := Candidates(t, r);
    (set fault | fault in AllFaults(t, cs) :: CandidateFault(fault))
    + When(HasMismatch(cs, r.identity), CandidateSourceIdentityMismatch)
    + (if us == [] then {if IsPending(r, cs) then ExtractionPending else NoUsableExtraction}
       else SelectionReasons(t, r, highRisk, us[Best(us, RankFor(t, r.kind))], rows))
    + When(r.pendingEngines != [], ExtractorsPending)
    + When(r.imageIssues, SourceImageQualityRequiresReview)
    + When(r.kind == Formula && exists i :: 0 <= i < |cs| && (IsFormulaError(t, cs[i]) || IsBrokenFormula(t, cs[i])),
           ExtractorFormulaStructureError)
    + When(r.sourceIntegrityError, SourceIntegrityError)
  }

  function SelectionReasons(t: Toolkit, r: Input, highRisk: bool, selected: Candidate, rows: seq<Row>): set<Reason> {
    When(!AllExact(rows), IndependentExtractorsDisagree)
    + When(exists i :: 0 <= i < |rows| && !rows[i].exact && rows[i].numericConflict, NumericOrSignDisagreement)
    + When(highRisk, HighRiskRequiresHumanReview)
    + When(HasMath(t, r), MathematicalContentRequiresSourceReview)
    + When(t.roleOf(selected) == Vlm, VlmDescriptionRequiresSourceReview)
    + When(t.roleOf(selected) == Vlm && t.looksUncertain(t.compose(selected.text)), VlmReportsPartialOrUncertainObservation)
    + When(IsTranscriptKind(r.kind) && !AnyMatch(rows), NoIndependentExactTranscriptConfirmation)
    + When(!IsRegionBound(selected, r.identity), SelectedCandidateRegionEvidenceUnbound)
  }

  function RowsFor(t: Toolkit, r: Input, us: seq<Candidate>): seq<Row> {
    if us == [] || !IsTranscriptKind(r.kind) then [] else Rows(t, us, Best(us, RankFor(t, r.kind)), r.identity)
  }

  function BucketOf(t: Toolkit, r: Input, highRisk: bool): Bucket {
    var us := Usable(t, Candidates(t, r), r.identity);
    FinalBucket(t, r, FirstBucket(t, r, highRisk, us, RowsFor(t, r, us)))
  }

  function ProposalOf(t: Toolkit, r: Input): string {
    var us := Usable(t, Candidates(t, r), r.identity);
    if us == [] then "" else t.compose(us[Best(us, RankFor(t, r.kind))].text)
  }

  function AuditOf(t: Toolkit, r: Input): Audit {
    var cs := Candidates(t, r);
    var us := Usable(t, cs, r.identity);
    Audit(EntriesOf(t, cs, r.identity), RowsFor(t, r, us),
          if us == [] then None else Some(us[Best(us, RankFor(t, r.kind))]))
  }

  function ReasonsOf(t: Toolkit, r: Input, highRisk: bool): set<Reason> {
    var us := Usable(t, Candidates(t, r), r.identity);
    Reasons(t, r, highRisk, us, RowsFor(t, r, us))
  }

  function Assess(t: Toolkit, r: Input, highRisk: bool): Record {
    var risk := if highRisk then High else Low;
    var bucket, proposed, reasons, audit := BucketOf(t, r, highRisk), ProposalOf(t, r), ReasonsOf(t, r, highRisk), AuditOf(t, r);
    Record(r, risk, Some(Outcome(bucket, proposed, reasons, audit, Revision(r, bucket, risk, proposed, reasons, audit))))
  }

  function CrossValidate(t: Toolkit, r: Record): (result: Record)
    ensures result.input == r.input && result.outcome.Some?
    ensures result.risk == if IsHighRisk(t, r) then High else Low
  {
    Assess(t, r.input, IsHighRisk(t, r))
  }

  /** The revision of an assessed record digests everything else in it. */
  predicate IsSealed(r: Record) {
    r.outcome.Some? &&
    var o := r.outcome.value;
    o.revision == Revision(r.input, o.bucket, r.risk, o.proposed, o.reasons, o.audit)
  }

  /** By construction of the revision, assessed records that share one are the same record. */
  lemma RevisionDeterminesRecord(r: Record, q: Record)
    requires IsSealed(r) && IsSealed(q) && r.outcome.value.revision == q.outcome.value.revision
    ensures r == q
  {
  }

  /** What an import publishes. */
  function Processed(t: Toolkit, rs: seq<Record>): (ps: seq<Record>)
    ensures |ps| == |rs| && forall p :: p in ps ==> IsSealed(p)
  {
    if rs == [] then [] else Processed(t, rs[..|rs| - 1]) + [CrossValidate(t, rs[|rs| - 1])]
  }

  // ---------------------------------------------------------------- the loops

  lemma PrefixGrows(t: Toolkit, cs: seq<Candidate>, i: nat, r: Identity)
    requires i < |cs|
    ensures Usable(t, cs[..i + 1], r) == Usable(t, cs[..i], r) + if IsUsable(t, cs[i], r) then [cs[i]] else []
    ensures AnyUnusable(t, cs[..i + 1], r) == (AnyUnusable(t, cs[..i], r) || !IsUsable(t, cs[i], r))
    ensures HasMismatch(cs[..i + 1], r) == (HasMismatch(cs[..i], r) || !IsSameRegion(cs[i], r))
  {
    AllOfPrefix(cs, i, UsableFor(t, r));
    AllOfPrefix(cs, i, SameRegionAs(r));
    FilterOfNext(cs, 0, i, UsableFor(t, r));
  }

  /** The pass over the candidates: what is usable, and what every one of them shows. */
  method Collect(t: Toolkit, cs: seq<Candidate>, r: Identity)
    returns (usable: seq<Candidate>, entries: seq<Entry>, mismatch: bool, rejected: bool)
    ensures usable == Usable(t, cs, r) && mismatch == HasMismatch(cs, r) && rejected == AnyUnusable(t, cs, r)
    ensures entries == EntriesOf(t, cs, r)
  {
    hide IsUsable, IsSameRegion, IsRegionBound, Faults;
    usable, entries, mismatch, rejected := [], [], false, false;
    for i := 0 to |cs|
      invariant usable == Usable(t, cs[..i], r)
      invariant mismatch == HasMismatch(cs[..i], r) && rejected == AnyUnusable(t, cs[..i], r)
      invariant entries == EntriesOf(t, cs, r)[..i]
    {
      PrefixGrows(t, cs, i, r);
      var entry := EntryOf(t, cs, i, r);
      entries := entries + [entry];
      if entry.usable {
        usable := usable + [cs[i]];
      } else {
        rejected := true;
      }
      if !entry.evidenceMatches {
        mismatch := true;
      }
    }
    assert cs[..|cs|] == cs;
  }

  function OthersUpTo(us: seq<Candidate>, s: nat, j: nat, ok: Candidate -> bool): seq<Candidate>
    requires s < |us| && j <= |us|
  {
    if j <= s then Filter(us[..j], ok) else Filter(us[..s], ok) + Filter(us[s + 1..j], ok)
  }

  lemma OthersUpToNext(us: seq<Candidate>, s: nat, j: nat, ok: Candidate -> bool)
    requires s < |us| && j < |us|
    ensures OthersUpTo(us, s, j + 1, ok) == OthersUpTo(us, s, j, ok) + if j != s && ok(us[j]) then [us[j]] else []
  {
    if j < s {
      FilterOfNext(us, 0, j, ok);
    } else if j > s {
      FilterOfNext(us, s + 1, j, ok);
    }
  }

  lemma FilterOfNext(us: seq<Candidate>, from: nat, j: nat, ok: Candidate -> bool)
    requires from <= j < |us|
    ensures Filter(us[from..j + 1], ok) == Filter(us[from..j], ok) + if ok(us[j]) then [us[j]] else []
  {
    var more := us[from..j + 1];
    assert more[..|more| - 1] == us[from..j];
  }

  /** The pass over the usable transcripts other than the selected one. */
  method Compare(t: Toolkit, us: seq<Candidate>, s: nat, r: Identity) returns (rows: seq<Row>, matched: bool, conflict: bool)
    requires s < |us|
    ensures rows == Rows(t, us, s, r) && matched == AnyMatch(rows) && conflict == !AllExact(rows)
  {
    rows, matched, conflict := [], false, false;
    ghost var ok := TranscriptFor(t);
    for j := 0 to |us|
      invariant |rows| == |OthersUpTo(us, s, j, ok)|
      invariant forall k :: 0 <= k < |rows| ==> rows[k] == RowOf(t, OthersUpTo(us, s, j, ok)[k], us[s], r)
      invariant matched <==> AnyMatch(rows)
      invariant conflict <==> !AllExact(rows)
    {
      OthersUpToNext(us, s, j, ok);
      if j != s && t.roleOf(us[j]) != Vlm {
        var row := RowOf(t, us[j], us[s], r);
        AppendRow(rows, row);
        rows := rows + [row];
        if row.confirms && row.exact {
          matched := true;
        } else if !row.exact {
          conflict := true;
        }
      }
    }
    assert us[s + 1..|us|] == us[s + 1..];
  }

  lemma AppendRow(rows: seq<Row>, row: Row)
    ensures AnyMatch(rows + [row]) <==> AnyMatch(rows) || (row.confirms && row.exact)
    ensures AllExact(rows + [row]) <==> AllExact(rows) && row.exact
  {
    var more := rows + [row];
    assert more[|rows|] == row && forall i :: 0 <= i < |rows| ==> more[i] == rows[i];
  }

  /** The vetoes, one after the other. */
  method Veto(t: Toolkit, r: Input, first: Bucket, mismatch: bool) returns (bucket: Bucket)
    requires mismatch == HasMismatch(Candidates(t, r), r.identity)
    ensures bucket == FinalBucket(t, r, first)
  {
    var cs := Candidates(t, r);
    bucket := first;
    if r.pendingEngines != [] && bucket == Trusted {
      bucket := Uncertain;
    }
    if r.imageIssues && bucket == Trusted {
      bucket := Uncertain;
    }
    if r.kind == Formula && exists i :: 0 <= i < |cs| && IsFormulaError(t, cs[i]) && ReportsStructuralErrors(cs[i]) {
      bucket := Critical;
    }
    if r.kind == Formula && exists i :: 0 <= i < |cs| && IsBrokenFormula(t, cs[i]) {
      bucket := Critical;
    }
    if r.sourceIntegrityError || mismatch {
      bucket := Critical;
    }
  }

  method CrossValidateByLoops(t: Toolkit, r: Record) returns (result: Record)
    ensures result == CrossValidate(t, r)
  {
    var input, highRisk := r.input, IsHighRisk(t, r);
    var cs := Candidates(t, input);
    var us, entries, mismatch, rejected := Collect(t, cs, input.identity);
    var first, rows, matched, conflict := Critical, [], false, false;
    var proposed, selected := "", None;
    if us != [] {
      var s := Best(us, RankFor(t, input.kind));
      proposed, selected := t.compose(us[s].text), Some(us[s]);
      if IsTranscriptKind(input.kind) {
        rows, matched, conflict := Compare(t, us, s, input.identity);
      }
      first := if matched && !highRisk && !conflict && !rejected then Trusted else Uncertain;
    } else {
      first := if IsPending(input, cs) then Uncertain else Critical;
    }
    assert rows == RowsFor(t, input, us) && first == FirstBucket(t, input, highRisk, us, rows);
    var bucket := Veto(t, input, first, mismatch);
    var risk := if highRisk then High else Low;
    var reasons, audit := Reasons(t, input, highRisk, us, rows), Audit(entries, rows, selected);
    result := Record(input, risk, Some(Outcome(bucket, proposed, reasons, audit,
                                               Revision(input, bucket, risk, proposed, reasons, audit))));
  }

  // ---------------------------------------------------------------- stability

  /** Assessing an assessed record again changes nothing, its revision included. */
  lemma CrossValidateIsIdempotent(t: Toolkit, r: Record)
    ensures CrossValidate(t, CrossValidate(t, r)) == CrossValidate(t, r)
  {
    assert IsHighRisk(t, CrossValidate(t, r)) == IsHighRisk(t, r);
  }

  /** The record after imports that replace its input, each followed by an assessment. */
  function Imported(t: Toolkit, r: Record, inputs: seq<Input>): Record {
    if inputs == [] then r
    else CrossValidate(t, Imported(t, r, inputs[..|inputs| - 1]).(input := inputs[|inputs| - 1]))
  }

  /** Over any sequence of imports the rating is high exactly when it was so at first or some input was risky. */
  lemma {:induction false} HighRiskIsRemembered(t: Toolkit, r: Record, inputs: seq<Input>)
    ensures Imported(t, r, inputs).risk == High <==> r.risk == High || exists i :: 0 <= i < |inputs| && IsRisky(t, inputs[i])
  {
    hide IsRisky, CrossValidate;
    if inputs != [] {
      var n := |inputs| - 1;
      HighRiskIsRemembered(t, r, inputs[..n]);
      assert forall i :: 0 <= i < n ==> inputs[..n][i] == inputs[i];
    }
  }

  /** So whatever is imported later, a record once rated high stays high. */
  lemma HighRiskIsNeverLowered(t: Toolkit, r: Record, inputs: seq<Input>, k: nat)
    requires k <= |inputs| && Imported(t, r, inputs[..k]).risk == High
    ensures Imported(t, r, inputs).risk == High
  {
    HighRiskIsRemembered(t, r, inputs[..k]);
    HighRiskIsRemembered(t, r, inputs);
    assert forall i :: 0 <= i < k ==> inputs[..k][i] == inputs[i];
  }

  // ---------------------------------------------------------------- what trust means

  /** The declarative reading of "trusted" for the usable candidates `us`, the one at `s` being selected. */
  ghost predicate IsCorroborated(t: Toolkit, us: seq<Candidate>, s: nat, r: Identity)
    requires s < |us|
  {
    && IsNative(t, us[s])
    && (exists j :: 0 <= j < |us| && Corroborates(t, us[j], us[s], r))
    && (forall j :: 0 <= j < |us| && j != s && t.roleOf(us[j]) != Vlm ==>
          t.normalise(us[j].text) == t.normalise(t.compose(us[s].text)))
  }

  /** An OCR reading of the same region by another backend, with the same normalised text. */
  ghost predicate Corroborates(t: Toolkit, c: Candidate, selected: Candidate, r: Identity) {
    && t.roleOf(c) == Ocr && t.familyOf(c) != t.familyOf(selected)
    && IsRegionBound(c, r) && IsRegionBound(selected, r)
    && !(c.evidence.Evidence? && c.evidence.geometryUnknown)
    && t.normalise(c.text) == t.normalise(t.compose(selected.text))
  }

  ghost predicate IsTrustworthy(t: Toolkit, r: Record) {
    var cs := Candidates(t, r.input);
    && r.input.kind == TextKind && !IsHighRisk(t, r)
    && !AnyUnusable(t, cs, r.input.identity)
    && r.input.pendingEngines == [] && !r.input.imageIssues && !r.input.sourceIntegrityError
    && cs != [] && IsCorroborated(t, cs, Best(cs, RankFor(t, TextKind)), r.input.identity)
  }

  lemma CorroborationGivesMatch(t: Toolkit, us: seq<Candidate>, s: nat, r: Identity)
    requires s < |us| && IsCorroborated(t, us, s, r)
    ensures AnyMatch(Rows(t, us, s, r)) && AllExact(Rows(t, us, s, r))
  {
    var ok := TranscriptFor(t);
    var others, rows := Others(us, s, ok), Rows(t, us, s, r);
    var j :| 0 <= j < |us| && Corroborates(t, us[j], us[s], r);
    OthersMember(us, s, ok, us[j]);
    var i :| 0 <= i < |others| && others[i] == us[j];
    assert rows[i].confirms && rows[i].exact;
    forall i | 0 <= i < |rows|
      ensures rows[i].exact
    {
      OthersMember(us, s, ok, others[i]);
      assert others[i] in others;
    }
  }

  lemma MatchGivesCorroboration(t: Toolkit, us: seq<Candidate>, s: nat, r: Identity)
    requires IsBest(us, RankFor(t, TextKind), s)
    requires AnyMatch(Rows(t, us, s, r)) && AllExact(Rows(t, us, s, r))
    ensures IsCorroborated(t, us, s, r)
  {
    var ok := TranscriptFor(t);
    var others, rows := Others(us, s, ok), Rows(t, us, s, r);
    var i :| 0 <= i < |rows| && rows[i].confirms && rows[i].exact;
    OthersMember(us, s, ok, others[i]);
    assert others[i] in others;
    var j :| 0 <= j < |us| && j != s && us[j] == others[i];
    assert RankFor(t, TextKind)(us[s]) <= RankFor(t, TextKind)(us[j]);
    assert Corroborates(t, us[j], us[s], r) && IsNative(t, us[s]);
    forall j | 0 <= j < |us| && j != s && t.roleOf(us[j]) != Vlm
      ensures t.normalise(us[j].text) == t.normalise(t.compose(us[s].text))
    {
      OthersMember(us, s, ok, us[j]);
      var k :| 0 <= k < |others| && others[k] == us[j];
      assert rows[k].exact;
    }
  }

  /** When nothing vetoes, trust is a match, no conflict and no unusable candidate. */
  lemma TrustNeedsNoVeto(t: Toolkit, r: Input, highRisk: bool, us: seq<Candidate>, rows: seq<Row>)
    requires us == Usable(t, Candidates(t, r), r.identity) && rows == RowsFor(t, r, us)
    requires r.kind == Code ==> highRisk
    ensures FinalBucket(t, r, FirstBucket(t, r, highRisk, us, rows)) == Trusted
       <==> (&& r.kind == TextKind && us != [] && AnyMatch(rows) && AllExact(rows) && !highRisk
             && !AnyUnusable(t, Candidates(t, r), r.identity)
             && r.pendingEngines == [] && !r.imageIssues && !r.sourceIntegrityError)
  {
    var cs := Candidates(t, r);
    if HasMismatch(cs, r.identity) {
      var i :| 0 <= i < |cs| && !IsSameRegion(cs[i], r.identity);
      assert !IsUsable(t, cs[i], r.identity);
    }
  }

  /** A record is trusted exactly when all its evidence is usable, agrees and is independently confirmed. */
  lemma TrustedExactly(t: Toolkit, r: Record)
    ensures CrossValidate(t, r).outcome.value.bucket == Trusted <==> IsTrustworthy(t, r)
  {
    var cs, id := Candidates(t, r.input), r.input.identity;
    var us := Usable(t, cs, id);
    var rows := RowsFor(t, r.input, us);
    TrustNeedsNoVeto(t, r.input, IsHighRisk(t, r), us, rows);
    if r.input.kind == TextKind && !AnyUnusable(t, cs, id) && cs != [] {
      FilterAll(cs, UsableFor(t, id));
      var s := Best(cs, RankFor(t, TextKind));
      BestIsBest(cs, RankFor(t, TextKind));
      if AnyMatch(rows) && AllExact(rows) {
        MatchGivesCorroboration(t, cs, s, id);
      }
      if IsCorroborated(t, cs, s, id) {
        CorroborationGivesMatch(t, cs, s, id);
      }
    }
  }

  /** The proposal of a trusted record is the text of a native reading of the region. */
  lemma TrustedProposalIsNative(t: Toolkit, r: Record)
    requires CrossValidate(t, r).outcome.value.bucket == Trusted
    ensures exists c :: c in Candidates(t, r.input) && IsNative(t, c) && IsRegionBound(c, r.input.identity)
                     && CrossValidate(t, r).outcome.value.proposed == t.compose(c.text)
  {
    TrustedExactly(t, r);
    var cs := Candidates(t, r.input);
    FilterAll(cs, UsableFor(t, r.input.identity));
    assert cs[Best(cs, RankFor(t, TextKind))] in cs;
  }

  /** Readings that share one backend family never make a record trusted. */
  lemma OneFamilyIsNeverTrusted(t: Toolkit, r: Record)
    requires forall c, d :: c in Candidates(t, r.input) && d in Candidates(t, r.input) ==> t.familyOf(c) == t.familyOf(d)
    ensures CrossValidate(t, r).outcome.value.bucket != Trusted
  {
    TrustedExactly(t, r);
  }

  /** As the engines are classified, a record that has only paddle readings is never trusted. */
  lemma PaddleAloneIsNeverTrusted(t: Toolkit, r: Record)
    requires r.input.nativeText == ""
    requires forall c :: c in r.input.candidates ==> IsPaddle(c)
    ensures CrossValidate(Standard(t), r).outcome.value.bucket != Trusted
  {
    forall c, d | c in r.input.candidates && d in r.input.candidates
      ensures Standard(t).familyOf(c) == Standard(t).familyOf(d)
    {
      PaddleBackendsAreOneFamily(c, d);
    }
    OneFamilyIsNeverTrusted(Standard(t), r);
  }

  // ---------------------------------------------------------------- descriptions are no votes

  lemma InsertIntoCandidates(t: Toolkit, r: Input, k: nat, v: Candidate) returns (k': nat)
    requires k <= |r.candidates| && t.roleOf(v) == Vlm
    ensures k' <= |Candidates(t, r)|
    ensures Candidates(t, r.(candidates := Insert(r.candidates, k, v))) == Insert(Candidates(t, r), k', v)
  {
    AllOfInsert(r.candidates, k, v, NotNative(t));
    k' := k + |Candidates(t, r)| - |r.candidates|;
  }

  lemma InsertKeepsUsability(t: Toolkit, cs: seq<Candidate>, k: nat, v: Candidate, r: Identity)
    requires k <= |cs| && IsUsable(t, v, r)
    ensures AnyUnusable(t, Insert(cs, k, v), r) == AnyUnusable(t, cs, r)
    ensures HasMismatch(Insert(cs, k, v), r) == HasMismatch(cs, r)
  {
    AllOfInsert(cs, k, v, UsableFor(t, r));
    AllOfInsert(cs, k, v, SameRegionAs(r));
  }

  lemma DescriptionRanksLower(t: Toolkit, kind: Kind, c: Candidate, v: Candidate)
    requires IsTranscriptKind(kind) && t.roleOf(v) == Vlm && (IsNative(t, c) || t.roleOf(c) == Ocr)
    ensures RankFor(t, kind)(c) < RankFor(t, kind)(v)
  {
  }

  lemma InsertKeepsRows(t: Toolkit, r: Input, more: Input, us: seq<Candidate>, m: nat, v: Candidate, j: nat)
    requires IsTranscriptKind(r.kind) && more == r.(candidates := more.candidates)
    requires m <= |us| && j < |us| && t.roleOf(v) == Vlm && (IsNative(t, us[j]) || t.roleOf(us[j]) == Ocr)
    ensures RowsFor(t, more, Insert(us, m, v)) == RowsFor(t, r, us)
    ensures Insert(us, m, v)[Best(Insert(us, m, v), RankFor(t, r.kind))] == us[Best(us, RankFor(t, r.kind))]
  {
    hide RowOf, Priority, IsNative;
    var rank := RankFor(t, r.kind);
    var b := Best(us, rank);
    DescriptionRanksLower(t, r.kind, us[j], v);
    BestOfInsert(us, m, v, rank, j);
    InsertAt(us, m, v);
    OthersOfInsert(us, m, v, b, TranscriptFor(t));
    assert Insert(us, m, v)[Shift(b, m)] == us[b];
  }

  lemma SameRowsSameBucket(t: Toolkit, r: Input, more: Input, highRisk: bool,
                           us: seq<Candidate>, us': seq<Candidate>, rows: seq<Row>)
    requires IsTranscriptKind(r.kind) && more == r.(candidates := more.candidates) && us != [] && us' != []
    requires AnyUnusable(t, Candidates(t, more), r.identity) == AnyUnusable(t, Candidates(t, r), r.identity)
    requires HasMismatch(Candidates(t, more), r.identity) == HasMismatch(Candidates(t, r), r.identity)
    ensures FinalBucket(t, more, FirstBucket(t, more, highRisk, us', rows))
         == FinalBucket(t, r, FirstBucket(t, r, highRisk, us, rows))
  {
  }

  /** Adding a usable description to a text record that has a usable transcript
      changes neither its bucket nor its proposal, wherever it is added. */
  lemma DescriptionIsNoVote(t: Toolkit, r: Record, k: nat, v: Candidate, c: Candidate)
    requires k <= |r.input.candidates| && IsTranscriptKind(r.input.kind)
    requires t.roleOf(v) == Vlm && IsUsable(t, v, r.input.identity)
    requires c in Candidates(t, r.input) && IsUsable(t, c, r.input.identity) && (IsNative(t, c) || t.roleOf(c) == Ocr)
    ensures var before := CrossValidate(t, r).outcome.value;
            var after := CrossValidate(t, r.(input := r.input.(candidates := Insert(r.input.candidates, k, v)))).outcome.value;
            after.bucket == before.bucket && after.proposed == before.proposed
  {
    var input, id, ok := r.input, r.input.identity, UsableFor(t, r.input.identity);
    var more := input.(candidates := Insert(input.candidates, k, v));
    var cs := Candidates(t, input);
    var us := Filter(cs, ok);
    var k' := InsertIntoCandidates(t, input, k, v);
    InsertKeepsUsability(t, cs, k', v, id);
    var m := FilterInsert(cs, k', v, ok);
    FilterMember(cs, ok, c);
    var j :| 0 <= j < |us| && us[j] == c;
    InsertKeepsRows(t, input, more, us, m, v, j);
    SameRowsSameBucket(t, input, more, IsHighRisk(t, r), us, Insert(us, m, v), RowsFor(t, input, us));
    BucketAndProposal(t, r, us);
    BucketAndProposal(t, r.(input := more), Insert(us, m, v));
  }

  /** Descriptions with the places at which they are added, one after the other. */
  function Described(r: Input, additions: seq<(nat, Candidate)>): Input {
    if additions == [] then r
    else
      var before, k, v := Described(r, additions[..|additions| - 1]), additions[|additions| - 1].0, additions[|additions| - 1].1;
      before.(candidates := Insert(before.candidates, if k < |before.candidates| then k else |before.candidates|, v))
  }

  lemma InsertKeepsCandidate(t: Toolkit, r: Input, k: nat, v: Candidate, c: Candidate)
    requires k <= |r.candidates| && t.roleOf(v) == Vlm && c in Candidates(t, r)
    ensures c in Candidates(t, r.(candidates := Insert(r.candidates, k, v)))
  {
    var cs := Candidates(t, r);
    var k' := InsertIntoCandidates(t, r, k, v);
    InsertAt(cs, k', v);
    var i :| 0 <= i < |cs| && cs[i] == c;
    assert Insert(cs, k', v)[Shift(i, k')] == c;
  }

  /** However many descriptions are added, and wherever. */
  lemma {:induction false} DescriptionsAreNoVotes(t: Toolkit, r: Record, additions: seq<(nat, Candidate)>, c: Candidate)
    requires IsTranscriptKind(r.input.kind)
    requires forall a :: a in additions ==> t.roleOf(a.1) == Vlm && IsUsable(t, a.1, r.input.identity)
    requires c in Candidates(t, r.input) && IsUsable(t, c, r.input.identity) && (IsNative(t, c) || t.roleOf(c) == Ocr)
    ensures var more := Described(r.input, additions);
            more == r.input.(candidates := more.candidates) && c in Candidates(t, more)
    ensures var before := CrossValidate(t, r).outcome.value;
            var after := CrossValidate(t, r.(input := Described(r.input, additions))).outcome.value;
            after.bucket == before.bucket && after.proposed == before.proposed
  {
    hide CrossValidate, Candidates, IsUsable, IsNative;
    if additions != [] {
      var n := |additions| - 1;
      DescriptionsAreNoVotes(t, r, additions[..n], c);
      var before, place, v := Described(r.input, additions[..n]), additions[n].0, additions[n].1;
      var k := if place < |before.candidates| then place else |before.candidates|;
      DescriptionIsNoVote(t, r.(input := before), k, v, c);
      InsertKeepsCandidate(t, before, k, v, c);
    }
  }

  lemma BucketAndProposal(t: Toolkit, r: Record, us: seq<Candidate>)
    requires us == Usable(t, Candidates(t, r.input), r.input.identity) && us != []
    ensures var o := CrossValidate(t, r).outcome.value;
            && o.bucket == FinalBucket(t, r.input, FirstBucket(t, r.input, IsHighRisk(t, r), us, RowsFor(t, r.input, us)))
            && o.proposed == t.compose(us[Best(us, RankFor(t, r.input.kind))].text)
  {
  }
}
