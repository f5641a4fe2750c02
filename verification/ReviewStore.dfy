/** Human decisions on machine results: an append-only log bound to exact revisions. */
module ReviewStores {
  import opened Evidence
  import opened CrossValidation
  import opened Texts
  import opened Wrappers

  datatype Error =
    | ReviewerRequired | UnknownDecision | EvidenceRequired | DuplicateRecordId | UnknownRecord | StaleRevision
    | StaleAssets | AcknowledgementRequired | ApproveCannotEdit | EmptyTranscript
    | SnapshotConflict | SourceMismatch | InvalidPagination

  datatype Decision = Approve | Correct | Reject | Defer

  /** What a review is bound to. */
  datatype Binding = Binding(id: string, revision: Option<Revision>, sourceSha: string, renderSha: string,
                             cropSha: string, contextSha: string, proposed: string)

  datatype Review = Review(recordId: string, reviewer: string, decision: Decision, text: string, acceptedText: string,
                           evidence: string, acknowledged: bool, binding: Binding)

  /** A request to record a decision; `decision` is None when the client sends none of the four. */
  datatype Submission = Submission(recordId: string, reviewer: string, decision: Option<Decision>, text: Option<string>,
                                   evidence: string, expectedRevision: Option<Revision>, acknowledged: bool)

  /** The published records and the review log; `snapshots` are the results published so far by receipt. */
  datatype State = State(records: seq<Record>, reviews: seq<Review>, snapshots: map<string, seq<Record>>)

  // ---------------------------------------------------------------- reading the state

  function IdOf(r: Record): string {
    r.input.identity.id
  }

  function RevisionOf(r: Record): Option<Revision> {
    if r.outcome.Some? then Some(r.outcome.value.revision) else None
  }

  function ProposedOf(r: Record): string {
    if r.outcome.Some? then r.outcome.value.proposed else ""
  }

  function BindingOf(r: Record): Binding {
    var i := r.input.identity;
    Binding(i.id, RevisionOf(r), i.sourceSha, i.renderSha, i.cropSha, i.contextSha, ProposedOf(r))
  }

  predicate HasUniqueIds(rs: seq<Record>) {
    forall i, j :: 0 <= i < j < |rs| ==> IdOf(rs[i]) != IdOf(rs[j])
  }

  function Find(rs: seq<Record>, id: string): (r: Option<Record>)
    ensures r.Some? ==> r.value in rs && IdOf(r.value) == id
    ensures r.None? ==> forall i :: 0 <= i < |rs| ==> IdOf(rs[i]) != id
  {
    if rs == [] then None
    else if IdOf(rs[|rs| - 1]) == id then Some(rs[|rs| - 1])
    else Find(rs[..|rs| - 1], id)
  }

  /** The last review of a record. */
  function Latest(reviews: seq<Review>, id: string): (v: Option<Review>)
    ensures v.Some? ==> v.value in reviews && v.value.recordId == id
  {
    if reviews == [] then None
    else if reviews[|reviews| - 1].recordId == id then Some(reviews[|reviews| - 1])
    else Latest(reviews[..|reviews| - 1], id)
  }

  /** A record as it is shown, with the standing of its latest review. */
  datatype Shown = Shown(record: Record, latest: Option<Review>, decision: Option<Decision>, stale: bool, verified: bool)

  function Decorate(r: Record, latest: Option<Review>): Shown {
    var current := latest.Some? && latest.value.binding == BindingOf(r);
    Shown(r, latest, if current then Some(latest.value.decision) else None, latest.Some? && !current,
          current && (latest.value.decision == Approve || latest.value.decision == Correct))
  }

  function ShownAll(st: State): seq<Shown> {
    seq(|st.records|, i requires 0 <= i < |st.records| =>
      Decorate(st.records[i], Latest(st.reviews, IdOf(st.records[i]))))
  }

  // ---------------------------------------------------------------- the two writers

  predicate Accepts(d: Decision) {
    d == Approve || d == Correct
  }

  function AcceptedText(s: Submission, proposed: string): string {
    if s.decision == Some(Approve) then proposed
    else if s.decision == Some(Correct) && s.text.Some? then s.text.value
    else ""
  }

  /** All checks of a submission, in order; `intact` says whether the source files still match the record. */
  function Check(st: State, s: Submission, intact: Record -> bool): Result<Review, Error> {
    var reviewer, evidence := Strip(s.reviewer), Strip(s.evidence);
    if reviewer == "" then Err(ReviewerRequired)
    else if s.decision.None? then Err(UnknownDecision)
    else if s.decision.value != Defer && evidence == "" then Err(EvidenceRequired)
    else if !HasUniqueIds(st.records) then Err(DuplicateRecordId)
    else
      var found, decision := Find(st.records, s.recordId), s.decision.value;
      if found.None? then Err(UnknownRecord)
      else
        var r := found.value;
        if s.expectedRevision.None? || s.expectedRevision != RevisionOf(r) then Err(StaleRevision)
        else if !intact(r) then Err(StaleAssets)
        else if Accepts(decision) && r.risk == High && !s.acknowledged then Err(AcknowledgementRequired)
        else if decision == Approve && s.text.Some? && s.text.value != ProposedOf(r) then Err(ApproveCannotEdit)
        else if Accepts(decision) && Strip(AcceptedText(s, ProposedOf(r))) == "" then Err(EmptyTranscript)
        else Ok(Review(s.recordId, reviewer, decision, if s.text.Some? then s.text.value else "",
                       AcceptedText(s, ProposedOf(r)), evidence, s.acknowledged, BindingOf(r)))
  }

  datatype Event =
    | Publish(incoming: seq<Record>, receipt: string)
    | Submit(submission: Submission, intact: Record -> bool)

  function Publication(t: Toolkit, st: State, incoming: seq<Record>, receipt: string): Result<State, Error> {
    var processed := Processed(t, incoming);
    if receipt in st.snapshots && st.snapshots[receipt] != processed then Err(SnapshotConflict)
    else Ok(st.(records := processed, snapshots := st.snapshots[receipt := processed]))
  }

  /** A refused event changes nothing. */
  function After(t: Toolkit, st: State, e: Event): State {
    match e
    case Publish(incoming, receipt) =>
      var published := Publication(t, st, incoming, receipt);
      if published.Ok? then published.value else st
    case Submit(s, intact) =>
      var checked := Check(st, s, intact);
      if checked.Ok? then st.(reviews := st.reviews + [checked.value]) else st
  }

  function Run(t: Toolkit, events: seq<Event>): State {
    if events == [] then State([], [], map[])
    else After(t, Run(t, events[..|events| - 1]), events[|events| - 1])
  }

  // ---------------------------------------------------------------- the invariant

  /** What a logged review guarantees of the revision it is bound to. */
  ghost predicate IsSoundReview(v: Review) {
    && v.binding.revision.Some? && v.binding.id == v.recordId
    && v.reviewer != "" && (v.decision != Defer ==> v.evidence != "")
    && (v.decision == Approve ==> v.acceptedText == v.binding.proposed)
    && (Accepts(v.decision) ==>
          Strip(v.acceptedText) != "" && (v.binding.revision.value.risk == High ==> v.acknowledged))
  }

  ghost predicate IsSound(st: State) {
    && (forall r :: r in st.records ==> IsSealed(r))
    && (forall v :: v in st.reviews ==> IsSoundReview(v))
  }

  lemma CheckedReviewIsSound(st: State, s: Submission, intact: Record -> bool)
    requires IsSound(st) && Check(st, s, intact).Ok?
    ensures IsSoundReview(Check(st, s, intact).value)
  {
  }

  lemma {:induction false} RunsAreSound(t: Toolkit, events: seq<Event>)
    ensures IsSound(Run(t, events))
  {
    if events != [] {
      var e, st := events[|events| - 1], Run(t, events[..|events| - 1]);
      RunsAreSound(t, events[..|events| - 1]);
      if e.Submit? && Check(st, e.submission, e.intact).Ok? {
        CheckedReviewIsSound(st, e.submission, e.intact);
      }
    }
  }

  /** The log only ever grows at its end. */
  lemma {:induction false} LogIsAppendOnly(t: Toolkit, events: seq<Event>, k: nat)
    requires k <= |events|
    ensures Run(t, events[..k]).reviews <= Run(t, events).reviews
  {
    if k < |events| {
      var init := events[..|events| - 1];
      LogIsAppendOnly(t, init, k);
      assert init[..k] == events[..k];
    } else {
      assert events[..k] == events;
    }
  }

  /** What "human verified" means for a record, given its latest review. */
  ghost predicate IsVerifiedBy(r: Record, v: Review) {
    && v.recordId == IdOf(r) && v.binding == BindingOf(r) && Accepts(v.decision) && v.reviewer != "" && v.evidence != ""
    && (v.decision == Approve ==> v.acceptedText == ProposedOf(r))
    && Strip(v.acceptedText) != ""
    && (r.risk == High ==> v.acknowledged)
  }

  /** Soundness of a state makes every record that it shows as verified trustworthy. */
  lemma VerifiedInSoundState(st: State, i: nat)
    requires IsSound(st) && i < |st.records| && ShownAll(st)[i].verified
    ensures ShownAll(st)[i].latest.Some? && IsVerifiedBy(st.records[i], ShownAll(st)[i].latest.value)
  {
    var r := st.records[i];
    assert r in st.records && IsSealed(r);
    assert IsSoundReview(Latest(st.reviews, IdOf(r)).value);
  }

  /** In every run, a record is shown as verified only on a decision about exactly what it now says. */
  lemma VerifiedInEveryRun(t: Toolkit, events: seq<Event>, i: nat)
    requires i < |Run(t, events).records|
    ensures ShownAll(Run(t, events))[i].verified ==>
              ShownAll(Run(t, events))[i].latest.Some?
              && IsVerifiedBy(Run(t, events).records[i], ShownAll(Run(t, events))[i].latest.value)
  {
    RunsAreSound(t, events);
    if ShownAll(Run(t, events))[i].verified {
      VerifiedInSoundState(Run(t, events), i);
    }
  }

  /** A new machine result unseats a review: the record it then shows is not verified by it. */
  lemma ChangedRecordIsNotVerified(r: Record, q: Record, v: Review)
    requires IsSealed(r) && IsSealed(q) && r != q && v.binding == BindingOf(r)
    ensures !Decorate(q, Some(v)).verified && Decorate(q, Some(v)).stale
  {
    if v.binding == BindingOf(q) {
      RevisionDeterminesRecord(r, q);
    }
  }

  /** No import, of any records, makes something verified that no review has accepted. */
  lemma PublishingVerifiesNothing(t: Toolkit, st: State, incoming: seq<Record>, receipt: string, i: nat)
    requires Publication(t, st, incoming, receipt).Ok? && i < |Publication(t, st, incoming, receipt).value.records|
    ensures var after := Publication(t, st, incoming, receipt).value;
            ShownAll(after)[i].verified ==>
              exists v :: v in st.reviews && Accepts(v.decision) && v.binding == BindingOf(after.records[i])
  {
    var after := Publication(t, st, incoming, receipt).value;
    var v := Latest(st.reviews, IdOf(after.records[i]));
  }

  // ---------------------------------------------------------------- the store

  class ReviewStore {
    var records: seq<Record>
    var reviews: seq<Review>
    var snapshots: map<string, seq<Record>>

    ghost function Value(): State
      reads this
    {
      State(records, reviews, snapshots)
    }

    constructor ()
      ensures Value() == State([], [], map[])
    {
      records, reviews, snapshots := [], [], map[];
    }

    method Publish(t: Toolkit, incoming: seq<Record>, receipt: string) returns (r: Result<nat, Error>)
      modifies this
      ensures r.Ok? <==> Publication(t, old(Value()), incoming, receipt).Ok?
      ensures Value() == After(t, old(Value()), Event.Publish(incoming, receipt))
    {
      var processed := Processed(t, incoming);
      if receipt in snapshots && snapshots[receipt] != processed {
        return Err(SnapshotConflict);
      }
      snapshots := snapshots[receipt := processed];
      records := processed;
      r := Ok(|processed|);
    }

    method Submit(t: Toolkit, s: Submission, intact: Record -> bool) returns (r: Result<Review, Error>)
      modifies this`reviews
      ensures r == Check(old(Value()), s, intact)
      ensures Value() == After(t, old(Value()), Event.Submit(s, intact))
    {
      r := Check(State(records, reviews, snapshots), s, intact);
      if r.Ok? {
        reviews := reviews + [r.value];
      }
    }
  }

  // ---------------------------------------------------------------- listing and export

  const MAX_PAGE := 10000

  /** One page of the records that match the filters. */
  function Page(st: State, bucket: Option<Bucket>, decision: Option<Option<Decision>>, limit: int, offset: int): Result<seq<Shown>, Error> {
    if !(1 <= limit <= MAX_PAGE) || offset < 0 then Err(InvalidPagination)
    else if !HasUniqueIds(st.records) then Err(DuplicateRecordId)
    else
      var rows := Matching(ShownAll(st), bucket, decision);
      var from := if offset < |rows| then offset else |rows|;
      var to := if offset + limit < |rows| then offset + limit else |rows|;
      Ok(rows[from..to])
  }

  function Matching(rows: seq<Shown>, bucket: Option<Bucket>, decision: Option<Option<Decision>>): seq<Shown> {
    if rows == [] then []
    else
      var last := rows[|rows| - 1];
      Matching(rows[..|rows| - 1], bucket, decision)
      + if (bucket.None? || (last.record.outcome.Some? && last.record.outcome.value.bucket == bucket.value))
        && (decision.None? || last.decision == decision.value) then [last] else []
  }

  lemma {:induction false} UnfilteredMatchesAll(rows: seq<Shown>)
    ensures Matching(rows, None, None) == rows
  {
    if rows != [] {
      UnfilteredMatchesAll(rows[..|rows| - 1]);
    }
  }

  /** Reading page after page until one is empty yields every record once, in order. */
  method ReadAll(st: State) returns (r: Result<seq<Shown>, Error>)
    ensures r == if HasUniqueIds(st.records) then Ok(ShownAll(st)) else Err(DuplicateRecordId)
  {
    UnfilteredMatchesAll(ShownAll(st));
    var rows, offset := [], 0;
    var batch := Page(st, None, None, MAX_PAGE, offset);
    if batch.Err? {
      return Err(batch.error);
    }
    while batch.value != []
      invariant 0 <= offset <= |ShownAll(st)| && rows == ShownAll(st)[..offset]
      invariant batch.Ok? && batch == Page(st, None, None, MAX_PAGE, offset)
      decreases |ShownAll(st)| - offset
    {
      rows := rows + batch.value;
      offset := offset + |batch.value|;
      batch := Page(st, None, None, MAX_PAGE, offset);
    }
    assert offset == |ShownAll(st)| && ShownAll(st)[..offset] == ShownAll(st);
    r := Ok(rows);
  }

  datatype Sample = Sample(id: string, text: string, pixels: string, review: Review)
  datatype Exclusion = NotApproved(id: string) | Protected(id: string, split: string) | Duplicate(id: string, canonical: string)

  /** Cleaning of accepted text, the pixel digest of a record, and the checks of its source. */
  datatype Exporter = Exporter(clean: string -> string, pixelsOf: Record -> string,
                               sourceMatches: Record -> bool, intact: Record -> bool)

  predicate IsApproved(s: Shown) {
    s.latest.Some? && Accepts(s.latest.value.decision) && s.verified
  }

  predicate IsExportable(s: Shown) {
    IsApproved(s) && s.record.input.split == "train"
  }

  function SampleOf(x: Exporter, s: Shown): Sample
    requires s.latest.Some?
  {
    Sample(IdOf(s.record), x.clean(s.latest.value.acceptedText), x.pixelsOf(s.record), s.latest.value)
  }

  function KeyOf(x: Exporter, s: Shown): (string, string)
    requires s.latest.Some?
  {
    (SampleOf(x, s).text, SampleOf(x, s).pixels)
  }

  /** Row `i` is exportable and no exportable row before it has its text and pixels. */
  ghost predicate IsFirstOfItsKind(x: Exporter, rows: seq<Shown>, i: nat)
    requires i < |rows|
  {
    && IsExportable(rows[i])
    && forall j :: 0 <= j < i && IsExportable(rows[j]) ==> KeyOf(x, rows[j]) != KeyOf(x, rows[i])
  }

  /** One sample for each first of its kind among the first `n` rows, in order. */
  ghost function Samples(x: Exporter, rows: seq<Shown>, n: nat): seq<Sample>
    requires n <= |rows|
  {
    if n == 0 then []
    else Samples(x, rows, n - 1) + if IsFirstOfItsKind(x, rows, n - 1) then [SampleOf(x, rows[n - 1])] else []
  }

  /** The record comes from the right document and, when it is to be exported, its images are unchanged. */
  predicate CanVouchFor(x: Exporter, s: Shown) {
    x.sourceMatches(s.record) && (IsExportable(s) ==> x.intact(s.record))
  }

  /** The export stops at the first record that cannot be vouched for. */
  ghost predicate CanExport(x: Exporter, st: State) {
    HasUniqueIds(st.records) && forall i :: 0 <= i < |st.records| ==> CanVouchFor(x, ShownAll(st)[i])
  }

  /** The rows that yield no sample, in order. */
  ghost function Dropped(x: Exporter, rows: seq<Shown>, n: nat): (d: seq<nat>)
    requires n <= |rows|
    ensures forall i :: i in d ==> i < n
  {
    if n == 0 then []
    else Dropped(x, rows, n - 1) + if IsFirstOfItsKind(x, rows, n - 1) then [] else [n - 1]
  }

  /** `e` says why row `i` yields no sample; a duplicate names the first row of its kind. */
  ghost predicate IsReasonFor(x: Exporter, rows: seq<Shown>, i: nat, e: Exclusion)
    requires i < |rows|
  {
    match e
    case NotApproved(id) => id == IdOf(rows[i].record) && !IsApproved(rows[i])
    case Protected(id, split) =>
      id == IdOf(rows[i].record) && IsApproved(rows[i]) && split == rows[i].record.input.split != "train"
    case Duplicate(id, canonical) =>
      && id == IdOf(rows[i].record) && IsExportable(rows[i])
      && exists j :: 0 <= j < i && IsNamedFirst(x, rows, j, KeyOf(x, rows[i]), canonical)
  }

  ghost predicate IsNamedFirst(x: Exporter, rows: seq<Shown>, j: nat, key: (string, string), name: string)
    requires j < |rows|
  {
    IsFirstOfItsKind(x, rows, j) && KeyOf(x, rows[j]) == key && IdOf(rows[j].record) == name
  }

  ghost predicate AreReasons(x: Exporter, rows: seq<Shown>, n: nat, excluded: seq<Exclusion>)
    requires n <= |rows|
  {
    var dropped := Dropped(x, rows, n);
    && |excluded| == |dropped|
    && forall k :: 0 <= k < |excluded| ==> dropped[k] in dropped && IsReasonFor(x, rows, dropped[k], excluded[k])
  }

  /** `seen` names the first row of every kind among the first `n`. */
  ghost predicate RemembersFirsts(x: Exporter, rows: seq<Shown>, n: nat, seen: map<(string, string), string>)
    requires n <= |rows|
  {
    && (forall j :: 0 <= j < n && IsExportable(rows[j]) ==> KeyOf(x, rows[j]) in seen)
    && (forall key :: key in seen ==> exists j :: 0 <= j < n && IsNamedFirst(x, rows, j, key, seen[key]))
  }

  lemma KnownKeyIsDuplicate(x: Exporter, rows: seq<Shown>, i: nat, seen: map<(string, string), string>)
    requires i < |rows| && RemembersFirsts(x, rows, i, seen) && IsExportable(rows[i])
    ensures IsFirstOfItsKind(x, rows, i) <==> KeyOf(x, rows[i]) !in seen
    ensures KeyOf(x, rows[i]) in seen ==>
      IsReasonFor(x, rows, i, Duplicate(IdOf(rows[i].record), seen[KeyOf(x, rows[i])]))
  {
  }

  lemma RemembersNext(x: Exporter, rows: seq<Shown>, i: nat, seen: map<(string, string), string>, after: map<(string, string), string>)
    requires i < |rows| && RemembersFirsts(x, rows, i, seen)
    requires after == if IsFirstOfItsKind(x, rows, i) then seen[KeyOf(x, rows[i]) := IdOf(rows[i].record)] else seen
    ensures RemembersFirsts(x, rows, i + 1, after)
  {
    forall key | key in after
      ensures exists j :: 0 <= j < i + 1 && IsNamedFirst(x, rows, j, key, after[key])
    {
      if IsFirstOfItsKind(x, rows, i) && key == KeyOf(x, rows[i]) {
        assert IsNamedFirst(x, rows, i, key, after[key]);
      } else {
        var j :| 0 <= j < i && IsNamedFirst(x, rows, j, key, seen[key]);
        assert IsNamedFirst(x, rows, j, key, after[key]);
      }
    }
  }

  datatype Output = Output(accepted: seq<Sample>, excluded: seq<Exclusion>, seen: map<(string, string), string>)

  /** What the loop has written after the first `n` rows. */
  ghost predicate IsOutput(x: Exporter, rows: seq<Shown>, n: nat, out: Output)
    requires n <= |rows|
  {
    && out.accepted == Samples(x, rows, n) && AreReasons(x, rows, n, out.excluded)
    && RemembersFirsts(x, rows, n, out.seen)
  }

  lemma ExcludesNext(x: Exporter, rows: seq<Shown>, i: nat, out: Output, e: Exclusion)
    requires i < |rows| && IsOutput(x, rows, i, out)
    requires !IsFirstOfItsKind(x, rows, i) && IsReasonFor(x, rows, i, e)
    ensures IsOutput(x, rows, i + 1, out.(excluded := out.excluded + [e]))
  {
    RemembersNext(x, rows, i, out.seen, out.seen);
  }

  /** One row: a sample or an exclusion. */
  method ExportRow(x: Exporter, rows: seq<Shown>, i: nat, out: Output) returns (next: Output, error: Option<Error>)
    requires i < |rows| && IsOutput(x, rows, i, out)
    ensures error.None? <==> CanVouchFor(x, rows[i])
    ensures error.None? ==> IsOutput(x, rows, i + 1, next)
  {
    var s, e := rows[i], NotApproved(IdOf(rows[i].record));
    if !x.sourceMatches(s.record) {
      return out, Some(SourceMismatch);
    }
    if !IsApproved(s) {
    } else if s.record.input.split != "train" {
      e := Protected(IdOf(s.record), s.record.input.split);
    } else if !x.intact(s.record) {
      return out, Some(StaleAssets);
    } else {
      KnownKeyIsDuplicate(x, rows, i, out.seen);
      if KeyOf(x, s) !in out.seen {
        next := Output(out.accepted + [SampleOf(x, s)], out.excluded, out.seen[KeyOf(x, s) := IdOf(s.record)]);
        RemembersNext(x, rows, i, out.seen, next.seen);
        return next, None;
      }
      e := Duplicate(IdOf(s.record), out.seen[KeyOf(x, s)]);
    }
    ExcludesNext(x, rows, i, out, e);
    return out.(excluded := out.excluded + [e]), None;
  }

  method Export(x: Exporter, st: State) returns (accepted: seq<Sample>, excluded: seq<Exclusion>, error: Option<Error>)
    ensures error.None? <==> CanExport(x, st)
    ensures error.None? ==> accepted == Samples(x, ShownAll(st), |st.records|)
    ensures error.None? ==> AreReasons(x, ShownAll(st), |st.records|, excluded)
  {
    var listing := ReadAll(st);
    if listing.Err? {
      return [], [], Some(listing.error);
    }
    var rows := listing.value;
    var out := Output([], [], map[]);
    for i := 0 to |rows|
      invariant IsOutput(x, rows, i, out)
      invariant forall j :: 0 <= j < i ==> CanVouchFor(x, rows[j])
    {
      out, error := ExportRow(x, rows, i, out);
      if error.Some? {
        return [], [], error;
      }
    }
    return out.accepted, out.excluded, None;
  }

  /** The sample is the text that a human accepted for what the training record now says. */
  ghost predicate IsSampleOf(x: Exporter, r: Record, s: Sample) {
    && s.id == IdOf(r) && r.input.split == "train" && IsVerifiedBy(r, s.review)
    && s.text == x.clean(s.review.acceptedText) && s.pixels == x.pixelsOf(r)
    && (s.review.decision == Approve ==> s.text == x.clean(ProposedOf(r)))
  }

  lemma {:induction false} SampleComesFromRow(x: Exporter, rows: seq<Shown>, n: nat, k: nat) returns (i: nat)
    requires n <= |rows| && k < |Samples(x, rows, n)|
    ensures i < n && IsExportable(rows[i]) && Samples(x, rows, n)[k] == SampleOf(x, rows[i])
  {
    i := n - 1;
    if k < |Samples(x, rows, n - 1)| {
      i := SampleComesFromRow(x, rows, n - 1, k);
    }
  }

  /** Every exported sample is backed by a verified training record. */
  lemma SamplesAreVerified(x: Exporter, st: State, k: nat)
    requires IsSound(st) && k < |Samples(x, ShownAll(st), |st.records|)|
    ensures exists r :: r in st.records && IsSampleOf(x, r, Samples(x, ShownAll(st), |st.records|)[k])
  {
    var i := SampleComesFromRow(x, ShownAll(st), |st.records|, k);
    VerifiedInSoundState(st, i);
    assert st.records[i] in st.records;
    assert IsSampleOf(x, st.records[i], Samples(x, ShownAll(st), |st.records|)[k]);
  }

  /** No two exported samples have both the same text and the same pixels. */
  lemma {:induction false} SamplesAreDistinct(x: Exporter, rows: seq<Shown>, n: nat, j: nat, k: nat)
    requires n <= |rows| && j < k < |Samples(x, rows, n)|
    ensures var samples := Samples(x, rows, n);
            samples[j].text != samples[k].text || samples[j].pixels != samples[k].pixels
  {
    if k < |Samples(x, rows, n - 1)| {
      SamplesAreDistinct(x, rows, n - 1, j, k);
    } else {
      var i := SampleComesFromRow(x, rows, n - 1, j);
      assert KeyOf(x, rows[i]) != KeyOf(x, rows[n - 1]);
    }
  }

  /** Whatever was imported and reviewed before, an export holds verified training text only. */
  lemma ExportsAreVerifiedInEveryRun(t: Toolkit, events: seq<Event>, x: Exporter, k: nat)
    requires k < |Samples(x, ShownAll(Run(t, events)), |Run(t, events).records|)|
    ensures exists r :: r in Run(t, events).records
                     && IsSampleOf(x, r, Samples(x, ShownAll(Run(t, events)), |Run(t, events).records|)[k])
  {
    RunsAreSound(t, events);
    SamplesAreVerified(x, Run(t, events), k);
  }
}
