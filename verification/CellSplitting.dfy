/** Splitting of long texts into spreadsheet cells of bounded UTF-16 length. */
module CellSplitting {
  import opened Wrappers

  datatype CellError = InvalidCharacter

  const MAX_CELL_UNITS := 32767

  // ---------------------------------------------------------------- line breaks

  function ReplaceCrLf(s: string): string {
    if |s| >= 2 && s[0] == '\r' && s[1] == '\n' then "\n" + ReplaceCrLf(s[2..])
    else if s == "" then ""
    else [s[0]] + ReplaceCrLf(s[1..])
  }

  function ReplaceCr(s: string): string {
    if s == "" then ""
    else [if s[0] == '\r' then '\n' else s[0]] + ReplaceCr(s[1..])
  }

  /** Spreadsheet cells use LF alone. */
  function Normalise(s: string): string {
    ReplaceCr(ReplaceCrLf(s))
  }

  /** Every break, be it CR LF, CR or LF, read once and written as one LF. */
  function UnifyBreaks(s: string): string {
    if s == "" then ""
    else if s[0] == '\r' then "\n" + UnifyBreaks(if |s| >= 2 && s[1] == '\n' then s[2..] else s[1..])
    else [s[0]] + UnifyBreaks(s[1..])
  }

  /** The two replacements in sequence double no line break and lose none. */
  lemma {:induction false} NormaliseUnifiesBreaks(s: string)
    ensures Normalise(s) == UnifyBreaks(s)
  {
    if |s| >= 2 && s[0] == '\r' && s[1] == '\n' {
      NormaliseUnifiesBreaks(s[2..]);
      assert ReplaceCrLf(s)[1..] == ReplaceCrLf(s[2..]);
    } else if s != "" {
      NormaliseUnifiesBreaks(s[1..]);
      assert ReplaceCrLf(s)[1..] == ReplaceCrLf(s[1..]);
    }
  }

  lemma {:induction false} NormaliseIsStable(s: string)
    ensures '\r' !in Normalise(s)
    ensures '\r' !in s ==> Normalise(s) == s
    ensures Normalise(Normalise(s)) == Normalise(s)
  {
    NormaliseUnifiesBreaks(s);
    NormaliseUnifiesBreaks(UnifyBreaks(s));
    UnifiedHasNoCr(s);
    WithoutCrIsUnchanged(UnifyBreaks(s));
    if '\r' !in s {
      WithoutCrIsUnchanged(s);
    }
  }

  lemma {:induction false} UnifiedHasNoCr(s: string)
    ensures '\r' !in UnifyBreaks(s)
  {
    if s != "" {
      UnifiedHasNoCr(s[1..]);
      if |s| >= 2 {
        UnifiedHasNoCr(s[2..]);
      }
    }
  }

  lemma {:induction false} WithoutCrIsUnchanged(s: string)
    requires '\r' !in s
    ensures UnifyBreaks(s) == s
  {
    if s != "" {
      WithoutCrIsUnchanged(s[1..]);
    }
  }

  // ---------------------------------------------------------------- UTF-16 length

  /** Code points outside the basic plane take two UTF-16 units. */
  function Units(c: char): nat {
    if c as int > 0xFFFF then 2 else 1
  }

  function UnitsOf(s: string): nat {
    if s == "" then 0 else UnitsOf(s[..|s| - 1]) + Units(s[|s| - 1])
  }

  lemma {:induction false} UnitsOfConcat(a: string, b: string)
    ensures UnitsOf(a + b) == UnitsOf(a) + UnitsOf(b)
  {
    if b == "" {
      assert a + b == a;
    } else {
      var n := |b| - 1;
      UnitsOfConcat(a, b[..n]);
      assert (a + b)[..|a + b| - 1] == a + b[..n];
    }
  }

  lemma UnitsOfAppend(s: string, c: char)
    ensures UnitsOf(s + [c]) == UnitsOf(s) + Units(c)
  {
    assert (s + [c])[..|s|] == s;
  }

  lemma UnitsOfSlice(s: string, lo: nat, hi: nat, from: nat, to: nat)
    requires lo <= from <= to <= hi <= |s|
    ensures UnitsOf(s[from..to]) <= UnitsOf(s[lo..hi])
  {
    hide UnitsOf;
    UnitsOfConcat(s[lo..from], s[from..to]);
    UnitsOfConcat(s[lo..from] + s[from..to], s[to..hi]);
    assert s[lo..hi] == s[lo..from] + s[from..to] + s[to..hi];
  }

  predicate IsStorable(c: char) {
    var n := c as int;
    n == 0x9 || n == 0xA || n == 0xD || 0x20 <= n <= 0xD7FF || 0xE000 <= n <= 0xFFFD || 0x10000 <= n <= 0x10FFFF
  }

  // ---------------------------------------------------------------- splits

  function Join(parts: seq<string>): string {
    if parts == [] then "" else Join(parts[..|parts| - 1]) + parts[|parts| - 1]
  }

  /** A split of `value` into contiguous pieces that each fit a cell. */
  ghost predicate IsSplit(value: string, parts: seq<string>) {
    Join(parts) == value && forall p :: p in parts ==> UnitsOf(p) <= MAX_CELL_UNITS
  }

  /** Where piece `k` begins. */
  function Start(parts: seq<string>, k: nat): nat
    requires k <= |parts|
  {
    if k == 0 then 0 else Start(parts, k - 1) + |parts[k - 1]|
  }

  lemma {:induction false} StartOfPrefix(parts: seq<string>, n: nat, k: nat)
    requires k <= n <= |parts|
    ensures Start(parts[..n], k) == Start(parts, k)
  {
    if k > 0 {
      StartOfPrefix(parts, n, k - 1);
    }
  }

  lemma {:induction false} JoinEndsAtStart(parts: seq<string>)
    ensures |Join(parts)| == Start(parts, |parts|)
  {
    if parts != [] {
      JoinEndsAtStart(parts[..|parts| - 1]);
      StartOfPrefix(parts, |parts| - 1, |parts| - 1);
    }
  }

  lemma {:induction false} PieceOfJoin(parts: seq<string>, k: nat)
    requires k < |parts|
    ensures Start(parts, k) <= Start(parts, k + 1) == Start(parts, k) + |parts[k]| <= |Join(parts)|
    ensures Join(parts)[Start(parts, k)..Start(parts, k + 1)] == parts[k]
  {
    var n := |parts| - 1;
    JoinEndsAtStart(parts);
    if k < n {
      PieceOfJoin(parts[..n], k);
      StartOfPrefix(parts, n, k);
      StartOfPrefix(parts, n, k + 1);
    } else {
      JoinEndsAtStart(parts[..n]);
      StartOfPrefix(parts, n, n);
    }
  }

  /** Every piece but the last is as long as it can be. */
  ghost predicate IsGreedy(parts: seq<string>) {
    && (forall k :: 0 <= k < |parts| ==> parts[k] != "")
    && forall k, next :: 0 <= k && next == k + 1 && next < |parts| ==>
         UnitsOf(parts[k]) + Units(parts[next][0]) > MAX_CELL_UNITS
  }

  lemma SliceWithNextDoesNotFit(value: string, from: nat, to: nat, end: nat)
    requires from <= to < end <= |value|
    requires UnitsOf(value[from..to]) + Units(value[to..end][0]) > MAX_CELL_UNITS
    ensures UnitsOf(value[from..to + 1]) > MAX_CELL_UNITS
  {
    assert value[from..to + 1] == value[from..to] + [value[to]];
    UnitsOfAppend(value[from..to], value[to]);
  }

  /** A greedy piece with the next code point behind it does not fit. */
  lemma OneMoreDoesNotFit(value: string, parts: seq<string>, k: nat, next: nat)
    requires Join(parts) == value && next == k + 1 < |parts|
    requires parts[next] != "" && UnitsOf(parts[k]) + Units(parts[next][0]) > MAX_CELL_UNITS
    ensures Start(parts, k) <= Start(parts, next) < |value|
    ensures UnitsOf(value[Start(parts, k)..Start(parts, next) + 1]) > MAX_CELL_UNITS
  {
    PieceOfJoin(parts, k);
    PieceOfJoin(parts, next);
    SliceWithNextDoesNotFit(value, Start(parts, k), Start(parts, next), Start(parts, next + 1));
  }

  /** A piece that starts no later cannot end behind a greedy one. */
  lemma PieceEndsNoLater(value: string, from: nat, to: nat, otherFrom: nat, otherTo: nat)
    requires otherFrom <= from <= to < |value| && otherFrom <= otherTo <= |value|
    requires UnitsOf(value[from..to + 1]) > MAX_CELL_UNITS >= UnitsOf(value[otherFrom..otherTo])
    ensures otherTo <= to
  {
    if otherTo > to {
      UnitsOfSlice(value, otherFrom, otherTo, from, to + 1);
    }
  }

  /** No other split gets further with its first `k` pieces than the greedy one. */
  lemma {:induction false} GreedyStaysAhead(value: string, parts: seq<string>, other: seq<string>, k: nat)
    requires IsSplit(value, parts) && IsGreedy(parts) && IsSplit(value, other)
    requires k <= |parts| && k <= |other|
    ensures Start(other, k) <= Start(parts, k)
  {
    if k > 0 {
      PieceOfJoin(other, k - 1);
      if k == |parts| {
        JoinEndsAtStart(parts);
      } else {
        GreedyStaysAhead(value, parts, other, k - 1);
        OneMoreDoesNotFit(value, parts, k - 1, k);
        assert other[k - 1] in other;
        PieceEndsNoLater(value, Start(parts, k - 1), Start(parts, k), Start(other, k - 1), Start(other, k));
      }
    }
  }

  lemma GreedyIsFewest(value: string, parts: seq<string>, other: seq<string>)
    requires IsSplit(value, parts) && IsGreedy(parts) && IsSplit(value, other)
    ensures |parts| <= |other|
  {
    if |other| < |parts| {
      GreedyStaysAhead(value, parts, other, |other|);
      JoinEndsAtStart(other);
      PieceOfJoin(parts, |other|);
    }
  }

  // ---------------------------------------------------------------- the code

  /** What one cell value turns into. */
  ghost predicate AreCellParts(value: string, parts: seq<string>) {
    && IsSplit(value, parts)
    && (if UnitsOf(value) <= MAX_CELL_UNITS then parts == [value] else forall p :: p in parts ==> p != "")
    && forall other :: IsSplit(value, other) && other != [] ==> |parts| <= |other|
  }

  /** The loop state: finished pieces and the one being filled, after reading `text`. */
  ghost predicate IsFilling(text: string, parts: seq<string>, current: string) {
    && Join(parts + [current]) == text && UnitsOf(current) <= MAX_CELL_UNITS
    && (forall p :: p in parts ==> UnitsOf(p) <= MAX_CELL_UNITS)
    && (if text == "" then parts == [] && current == "" else IsGreedy(parts + [current]))
  }

  lemma AppendToCurrent(text: string, parts: seq<string>, current: string, c: char)
    requires IsFilling(text, parts, current) && UnitsOf(current) + Units(c) <= MAX_CELL_UNITS
    ensures IsFilling(text + [c], parts, current + [c])
  {
    UnitsOfConcat(current, [c]);
    assert (parts + [current])[..|parts|] == parts && (parts + [current + [c]])[..|parts|] == parts;
    if text != "" {
      GreedyGrows(parts, current, c);
    }
  }

  lemma GreedyGrows(parts: seq<string>, current: string, c: char)
    requires IsGreedy(parts + [current])
    ensures IsGreedy(parts + [current + [c]])
  {
    var before, after := parts + [current], parts + [current + [c]];
    forall k | 0 <= k < |after|
      ensures |after[k]| > 0
    {
      assert before[k] != "";
    }
    forall k, next | 0 <= k && next == k + 1 && next < |after|
      ensures UnitsOf(after[k]) + Units(after[next][0]) > MAX_CELL_UNITS
    {
      assert UnitsOf(before[k]) + Units(before[next][0]) > MAX_CELL_UNITS;
      assert before[next] != "" && after[next][0] == before[next][0];
    }
  }

  lemma BeginNextPiece(text: string, parts: seq<string>, current: string, c: char)
    requires IsFilling(text, parts, current) && UnitsOf(current) + Units(c) > MAX_CELL_UNITS
    ensures IsFilling(text + [c], parts + [current], [c])
  {
    var before, after := parts + [current], parts + [current] + [[c]];
    assert after[..|before|] == before;
    assert [c][..0] == "";
    assert text != "";
    forall k, next | 0 <= k && next == k + 1 && next < |after|
      ensures UnitsOf(after[k]) + Units(after[next][0]) > MAX_CELL_UNITS
    {
      if next < |before| {
        assert UnitsOf(before[k]) + Units(before[next][0]) > MAX_CELL_UNITS;
      }
    }
  }

  method SplitGreedily(value: string) returns (parts: seq<string>)
    requires value != ""
    ensures IsSplit(value, parts) && IsGreedy(parts)
  {
    parts := [];
    var current, units := "", 0;
    for i := 0 to |value|
      invariant IsFilling(value[..i], parts, current) && units == UnitsOf(current)
    {
      var size := Units(value[i]);
      assert value[..i + 1] == value[..i] + [value[i]];
      if units + size > MAX_CELL_UNITS {
        BeginNextPiece(value[..i], parts, current, value[i]);
        parts := parts + [current];
        current, units := "", 0;
      } else {
        AppendToCurrent(value[..i], parts, current, value[i]);
      }
      UnitsOfConcat(current, [value[i]]);
      assert [value[i]][..0] == "";
      current := current + [value[i]];
      units := units + size;
    }
    assert value[..|value|] == value;
    parts := parts + [current];
  }

  method CellParts(value: string) returns (r: Result<seq<string>, CellError>)
    ensures r.Err? <==> exists c :: c in Normalise(value) && !IsStorable(c)
    ensures r.Ok? ==> AreCellParts(Normalise(value), r.value)
  {
    var text := Normalise(value);
    if exists c :: c in text && !IsStorable(c) {
      return Err(InvalidCharacter);
    }
    if UnitsOf(text) <= MAX_CELL_UNITS {
      assert [text][..0] == [];
      return Ok([text]);
    }
    var parts := SplitGreedily(text);
    forall other | IsSplit(text, other) && other != []
      ensures |parts| <= |other|
    {
      GreedyIsFewest(text, parts, other);
    }
    r := Ok(parts);
  }
}
