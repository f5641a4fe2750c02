/** The leak check that a dataset must pass before it is tokenised. */
module LeakChecks {
  import opened UnionFinds
  import opened Wrappers

  datatype Split = Train | Validation | Test

  /** A field of a metadata record; `Malformed` covers blank strings and wrong types. */
  datatype Field = Missing | Malformed | Known(value: Id)

  /** One metadata record, read from the file of the split `file`. */
  datatype Entry = Entry(file: Split, split: Option<Split>, id: Field, family: Field, content: Field,
                         sources: seq<Id>, source: Option<Id>)

  datatype Reason = BadRecord | DuplicateId | BadFamily | FamilyLeak | BadContent | DuplicateContent | SourceLeak

  datatype Verdict = Passed | Rejected(index: nat, reason: Reason)

  function SourcesOf(e: Entry): seq<Id> {
    e.sources + if e.source.Some? then [e.source.value] else []
  }

  // ---------------------------------------------------------------- what the check promises

  ghost predicate ShareSource(a: Entry, b: Entry) {
    exists x :: x in SourcesOf(a) && x in SourcesOf(b)
  }

  ghost predicate IsFamilyLeak(a: Entry, b: Entry) {
    a.family.Known? && a.family == b.family && a.file != b.file
  }

  ghost predicate IsSameContent(a: Entry, b: Entry) {
    a.content.Known? && a.content == b.content
  }

  ghost predicate IsSourceLeak(a: Entry, b: Entry, shared: bool) {
    !shared && ShareSource(a, b) && a.file != b.file
  }

  /** Two records that must not occur in one dataset; `shared` allows documents to span splits. */
  ghost predicate Clash(a: Entry, b: Entry, shared: bool) {
    a.id == b.id || IsFamilyLeak(a, b) || IsSameContent(a, b) || IsSourceLeak(a, b, shared)
  }

  predicate IsUsable(f: Field, required: bool) {
    f.Known? || (f.Missing? && !required)
  }

  predicate IsWellFormed(e: Entry, shared: bool) {
    && e.id.Known? && e.split == Some(e.file) && IsUsable(e.family, shared) && IsUsable(e.content, shared)
  }

  ghost predicate IsLeakFree(entries: seq<Entry>, shared: bool) {
    && (forall e :: e in entries ==> IsWellFormed(e, shared))
    && (forall i, j :: 0 <= i < j < |entries| ==> !Clash(entries[i], entries[j], shared))
  }

  // ---------------------------------------------------------------- the first complaint

  /** Why `e` is refused after the records `before`, if it is. */
  ghost function Complaint(before: seq<Entry>, e: Entry, shared: bool): Option<Reason> {
    if !e.id.Known? || e.split != Some(e.file) then Some(BadRecord)
    else if exists b :: b in before && b.id == e.id then Some(DuplicateId)
    else if !IsUsable(e.family, shared) then Some(BadFamily)
    else if exists b :: b in before && IsFamilyLeak(b, e) then Some(FamilyLeak)
    else if !IsUsable(e.content, shared) then Some(BadContent)
    else if exists b :: b in before && IsSameContent(b, e) then Some(DuplicateContent)
    else if exists b :: b in before && IsSourceLeak(b, e, shared) then Some(SourceLeak)
    else None
  }

  ghost predicate NoComplaints(entries: seq<Entry>, n: nat, shared: bool)
    requires n <= |entries|
  {
    n == 0 || (NoComplaints(entries, n - 1, shared) && Complaint(entries[..n - 1], entries[n - 1], shared) == None)
  }

  lemma ComplaintIsClash(before: seq<Entry>, e: Entry, shared: bool)
    ensures Complaint(before, e, shared) == None
       <==> IsWellFormed(e, shared) && forall b :: b in before ==> !Clash(b, e, shared)
  {
  }

  lemma LeakFreeOfNext(entries: seq<Entry>, k: nat, shared: bool)
    requires k < |entries|
    ensures IsLeakFree(entries[..k + 1], shared)
       <==> IsLeakFree(entries[..k], shared) && Complaint(entries[..k], entries[k], shared) == None
  {
    var before, e := entries[..k], entries[k];
    ComplaintIsClash(before, e, shared);
    assert entries[..k + 1] == before + [e];
    if IsLeakFree(before, shared) && Complaint(before, e, shared) == None {
      forall i, j | 0 <= i < j < k + 1
        ensures !Clash(entries[i], entries[j], shared)
      {
        assert entries[i] in before;
        if j < k {
          assert entries[i] == before[i] && entries[j] == before[j];
        }
      }
    }
  }

  /** Reading a dataset draws no complaint exactly when no two of its records clash. */
  lemma {:induction false} NoComplaintsExactly(entries: seq<Entry>, n: nat, shared: bool)
    requires n <= |entries|
    ensures NoComplaints(entries, n, shared) <==> IsLeakFree(entries[..n], shared)
  {
    if n > 0 {
      NoComplaintsExactly(entries, n - 1, shared);
      LeakFreeOfNext(entries, n - 1, shared);
    }
  }

  lemma ClashIsSymmetric(a: Entry, b: Entry, shared: bool)
    ensures Clash(a, b, shared) == Clash(b, a, shared)
  {
  }

  /** Records at different positions of `entries`. */
  ghost predicate ArePicks(picks: seq<nat>, n: nat) {
    && (forall i :: 0 <= i < |picks| ==> picks[i] < n)
    && (forall i, j :: 0 <= i < j < |picks| ==> picks[i] != picks[j])
  }

  /** A dataset that passes still passes in any other order, and so does every part of it. */
  lemma PickedStaysLeakFree(entries: seq<Entry>, picks: seq<nat>, picked: seq<Entry>, shared: bool)
    requires IsLeakFree(entries, shared) && ArePicks(picks, |entries|)
    requires |picked| == |picks| && forall i :: 0 <= i < |picks| ==> picked[i] == entries[picks[i]]
    ensures IsLeakFree(picked, shared)
  {
    forall i, j | 0 <= i < j < |picked|
      ensures !Clash(picked[i], picked[j], shared)
    {
      ClashIsSymmetric(picked[i], picked[j], shared);
    }
  }

  ghost predicate NamesFamilyAndContent(e: Entry) {
    e.family.Known? && e.content.Known?
  }

  /** What passes strictly passes with shared documents allowed exactly when every record names its
      family and its content, which only the latter requires. */
  lemma StrictPassesSharedExactly(entries: seq<Entry>)
    requires IsLeakFree(entries, false)
    ensures IsLeakFree(entries, true) <==> forall e :: e in entries ==> NamesFamilyAndContent(e)
  {
    if IsLeakFree(entries, true) {
      forall e | e in entries
        ensures NamesFamilyAndContent(e)
      {
        assert IsWellFormed(e, true);
      }
    }
  }

  /** A record without a family passes strictly only. */
  lemma StrictAloneMayPass()
    ensures var entries := [Entry(Train, Some(Train), Known(1), Missing, Missing, [], None)];
            IsLeakFree(entries, false) && !IsLeakFree(entries, true)
  {
    var e := Entry(Train, Some(Train), Known(1), Missing, Missing, [], None);
    assert e in [e] && !IsWellFormed(e, true);
  }

  // ---------------------------------------------------------------- the code

  /** What has been read so far. */
  datatype Seen = Seen(ids: set<Id>, families: map<Id, Split>, contents: set<Id>, sources: map<Id, Split>)

  /** Some record of `before`, in the file of `split`, names the source `x`. */
  ghost predicate NamesSource(before: seq<Entry>, x: Id, split: Split) {
    exists b :: b in before && b.file == split && x in SourcesOf(b)
  }

  ghost predicate NamesFamily(before: seq<Entry>, f: Id, split: Split) {
    exists b :: b in before && b.file == split && b.family == Known(f)
  }

  ghost predicate RemembersFamilies(families: map<Id, Split>, before: seq<Entry>) {
    && (forall f :: f in families ==> NamesFamily(before, f, families[f]))
    && (forall f, s :: NamesFamily(before, f, s) ==> f in families && families[f] == s)
  }

  ghost predicate RemembersSources(sources: map<Id, Split>, before: seq<Entry>) {
    && (forall x :: x in sources ==> NamesSource(before, x, sources[x]))
    && (forall x, s :: NamesSource(before, x, s) ==> x in sources && sources[x] == s)
  }

  ghost predicate Remembers(seen: Seen, before: seq<Entry>, shared: bool) {
    && seen.ids == (set b | b in before && b.id.Known? :: b.id.value)
    && seen.contents == (set b | b in before && b.content.Known? :: b.content.value)
    && RemembersFamilies(seen.families, before)
    && (!shared ==> RemembersSources(seen.sources, before))
  }

  lemma FamiliesOfNext(families: map<Id, Split>, before: seq<Entry>, e: Entry)
    requires RemembersFamilies(families, before) && forall b :: b in before ==> !IsFamilyLeak(b, e)
    ensures RemembersFamilies(if e.family.Known? then families[e.family.value := e.file] else families, before + [e])
  {
    var after := if e.family.Known? then families[e.family.value := e.file] else families;
    forall f | f in after
      ensures NamesFamily(before + [e], f, after[f])
    {
      if e.family == Known(f) {
        assert e in before + [e];
      } else {
        var b :| b in before && b.file == families[f] && b.family == Known(f);
        assert b in before + [e];
      }
    }
    forall f, s | NamesFamily(before + [e], f, s)
      ensures f in after && after[f] == s
    {
      var b :| b in before + [e] && b.file == s && b.family == Known(f);
      if b in before {
        assert NamesFamily(before, f, s);
        assert !IsFamilyLeak(b, e);
      }
    }
  }

  lemma SourcesOfNext(sources: map<Id, Split>, after: map<Id, Split>, before: seq<Entry>, e: Entry)
    requires RemembersSources(sources, before) && forall b :: b in before ==> !IsSourceLeak(b, e, false)
    requires after == Filed(sources, SourcesOf(e), e.file)
    ensures RemembersSources(after, before + [e])
  {
    forall x | x in after
      ensures NamesSource(before + [e], x, after[x])
    {
      if x in SourcesOf(e) {
        assert e in before + [e];
      } else {
        var b :| b in before && b.file == sources[x] && x in SourcesOf(b);
        assert b in before + [e];
      }
    }
    forall x, s | NamesSource(before + [e], x, s)
      ensures x in after && after[x] == s
    {
      var b :| b in before + [e] && b.file == s && x in SourcesOf(b);
      if b in before {
        assert NamesSource(before, x, s);
        assert !IsSourceLeak(b, e, false);
      }
    }
  }

  ghost function Filed(sources: map<Id, Split>, xs: seq<Id>, split: Split): map<Id, Split> {
    map x | x in sources.Keys + (set y | y in xs) :: if x in xs then split else sources[x]
  }

  lemma FiledNext(sources: map<Id, Split>, xs: seq<Id>, x: Id, split: Split)
    ensures Filed(sources, xs + [x], split) == Filed(sources, xs, split)[x := split]
  {
  }

  /** Files every source under the split; stops at one that is filed under another unless that is allowed. */
  method FileSources(sources: map<Id, Split>, xs: seq<Id>, split: Split, shared: bool)
    returns (leak: bool, after: map<Id, Split>)
    ensures leak <==> !shared && exists x :: x in xs && x in sources && sources[x] != split
    ensures !leak ==> after == Filed(sources, xs, split)
  {
    leak, after := false, sources;
    for i := 0 to |xs|
      invariant !leak && after == Filed(sources, xs[..i], split)
      invariant shared || forall k :: 0 <= k < i && xs[k] in sources ==> sources[xs[k]] == split
    {
      if xs[i] in after && after[xs[i]] != split && !shared {
        return true, after;
      }
      FiledNext(sources, xs[..i], xs[i], split);
      after := after[xs[i] := split];
      assert xs[..i + 1] == xs[..i] + [xs[i]];
    }
    assert xs[..|xs|] == xs;
  }

  lemma SourceLeakIsFiled(sources: map<Id, Split>, before: seq<Entry>, e: Entry)
    requires RemembersSources(sources, before)
    ensures (exists b :: b in before && IsSourceLeak(b, e, false))
       <==> exists x :: x in SourcesOf(e) && x in sources && sources[x] != e.file
  {
    if b :| b in before && IsSourceLeak(b, e, false) {
      var x :| x in SourcesOf(b) && x in SourcesOf(e);
      assert NamesSource(before, x, b.file);
    }
    if x :| x in SourcesOf(e) && x in sources && sources[x] != e.file {
      var b :| b in before && b.file == sources[x] && x in SourcesOf(b);
      assert IsSourceLeak(b, e, false);
    }
  }

  lemma FamilyLeakIsFiled(families: map<Id, Split>, before: seq<Entry>, e: Entry)
    requires RemembersFamilies(families, before) && e.family.Known?
    ensures (exists b :: b in before && IsFamilyLeak(b, e))
       <==> e.family.value in families && families[e.family.value] != e.file
  {
    var f := e.family.value;
    if b :| b in before && IsFamilyLeak(b, e) {
      assert NamesFamily(before, f, b.file);
    }
    if f in families && families[f] != e.file {
      var b :| b in before && b.file == families[f] && b.family == Known(f);
      assert IsFamilyLeak(b, e);
    }
  }

  /** Checks one record against what has been read, and remembers it. */
  method Examine(seen: Seen, e: Entry, shared: bool, ghost before: seq<Entry>)
    returns (complaint: Option<Reason>, next: Seen)
    requires Remembers(seen, before, shared)
    ensures complaint == Complaint(before, e, shared)
    ensures complaint == None ==> Remembers(next, before + [e], shared)
  {
    next := seen;
    if !e.id.Known? || e.split != Some(e.file) {
      return Some(BadRecord), next;
    }
    if e.id.value in seen.ids {
      return Some(DuplicateId), next;
    }
    next := next.(ids := next.ids + {e.id.value});
    if !IsUsable(e.family, shared) {
      return Some(BadFamily), next;
    }
    if e.family.Known? {
      FamilyLeakIsFiled(seen.families, before, e);
      if e.family.value in seen.families && seen.families[e.family.value] != e.file {
        return Some(FamilyLeak), next;
      }
      next := next.(families := next.families[e.family.value := e.file]);
    }
    FamiliesOfNext(seen.families, before, e);
    if !IsUsable(e.content, shared) {
      return Some(BadContent), next;
    }
    if e.content.Known? {
      if e.content.value in seen.contents {
        return Some(DuplicateContent), next;
      }
      next := next.(contents := next.contents + {e.content.value});
    }
    var leak, sources := FileSources(seen.sources, SourcesOf(e), e.file, shared);
    if !shared {
      SourceLeakIsFiled(seen.sources, before, e);
    }
    if leak {
      return Some(SourceLeak), next;
    }
    next := next.(sources := sources);
    if !shared {
      SourcesOfNext(seen.sources, sources, before, e);
    }
    return None, next;
  }

  method CheckLeaks(entries: seq<Entry>, shared: bool) returns (verdict: Verdict)
    ensures verdict == Passed <==> IsLeakFree(entries, shared)
    ensures verdict.Rejected? ==> verdict.index < |entries| && IsLeakFree(entries[..verdict.index], shared)
    ensures verdict.Rejected? ==>
      Complaint(entries[..verdict.index], entries[verdict.index], shared) == Some(verdict.reason)
  {
    var seen := Seen({}, map[], {}, map[]);
    for i := 0 to |entries|
      invariant Remembers(seen, entries[..i], shared) && IsLeakFree(entries[..i], shared)
    {
      LeakFreeOfNext(entries, i, shared);
      assert entries[..i + 1] == entries[..i] + [entries[i]];
      var complaint, next := Examine(seen, entries[i], shared, entries[..i]);
      if complaint.Some? {
        RefusedIsNotLeakFree(entries, i, shared);
        return Rejected(i, complaint.value);
      }
      seen := next;
    }
    assert entries[..|entries|] == entries;
    return Passed;
  }

  lemma RefusedIsNotLeakFree(entries: seq<Entry>, i: nat, shared: bool)
    requires i < |entries| && Complaint(entries[..i], entries[i], shared) != None
    ensures !IsLeakFree(entries, shared)
  {
    LeakFreeOfNext(entries, i, shared);
  }
}
