/** Packing of tokenised samples into fixed-length training sequences with provenance. */
module TokenPacking {
  import opened Wrappers

  type Token = int

  datatype PackError = SequenceLengthTooSmall | InsufficientTokens

  datatype Source = Source(id: string, page: int)

  /** The stretch of the token stream that one sample occupies. */
  datatype Range = Range(start: nat, end: nat, source: Source)

  datatype Span = Span(sampleId: string, page: int, tokenStart: int, tokenEnd: int, sourceStart: int, sourceEnd: int)

  datatype Chunk = Chunk(inputIds: seq<Token>, attentionMask: seq<int>, labels: seq<Token>, spans: seq<Span>)

  // ---------------------------------------------------------------- the token stream

  /** The concatenation of all samples. */
  function Stream(samples: seq<seq<Token>>): seq<Token> {
    if samples == [] then [] else Stream(samples[..|samples| - 1]) + samples[|samples| - 1]
  }

  /** Where sample `i` begins in the stream. */
  function Offset(samples: seq<seq<Token>>, i: nat): nat
    requires i <= |samples|
  {
    |Stream(samples[..i])|
  }

  lemma OffsetOfNext(samples: seq<seq<Token>>, i: nat)
    requires i < |samples|
    ensures Offset(samples, i + 1) == Offset(samples, i) + |samples[i]|
    ensures Stream(samples[..i + 1]) == Stream(samples[..i]) + samples[i]
  {
    assert samples[..i + 1][..i] == samples[..i];
  }

  lemma {:induction false} OffsetsIncrease(samples: seq<seq<Token>>, i: nat, j: nat)
    requires i <= j <= |samples|
    ensures Offset(samples, i) <= Offset(samples, j)
    ensures Stream(samples[..i]) <= Stream(samples[..j])
  {
    if i < j {
      OffsetsIncrease(samples, i, j - 1);
      OffsetOfNext(samples, j - 1);
    }
  }

  lemma StreamAtOffset(samples: seq<seq<Token>>, i: nat)
    requires i < |samples|
    ensures Offset(samples, i) <= Offset(samples, i + 1) <= |Stream(samples)|
    ensures Stream(samples)[Offset(samples, i)..Offset(samples, i + 1)] == samples[i]
  {
    OffsetOfNext(samples, i);
    OffsetsIncrease(samples, i + 1, |samples|);
    assert samples[..|samples|] == samples;
  }

  // ---------------------------------------------------------------- the cut points

  function Gap(ends: seq<int>, i: nat): int
    requires i < |ends|
  {
    ends[i] - if i == 0 then 0 else ends[i - 1]
  }

  /** Every stream with at least two tokens can be packed, except an odd one into pairs. */
  predicate CannotPack(n: nat, size: int) {
    n < 2 || (size == 2 && n % 2 == 1)
  }

  /** The cut points end at `n`, and no chunk is longer than `size`. */
  ghost predicate AreCuts(ends: seq<int>, n: nat, size: int) {
    && ends != [] && ends[|ends| - 1] == n
    && forall i :: 0 <= i < |ends| ==> 0 <= Gap(ends, i) <= size && (n > 0 ==> Gap(ends, i) > 0)
  }

  lemma GapsOfAppend(ends: seq<int>, end: int)
    ensures forall i :: 0 <= i < |ends| ==> Gap(ends + [end], i) == Gap(ends, i)
    ensures Gap(ends + [end], |ends|) == end - if ends == [] then 0 else ends[|ends| - 1]
  {
  }

  /** Moving the last but one cut back by one lengthens the last chunk at the expense of its neighbour. */
  lemma GapsOfBorrow(ends: seq<int>, last: nat)
    requires 0 < last == |ends| - 1
    ensures var moved := ends[last - 1 := ends[last - 1] - 1];
            && (forall i :: 0 <= i < last - 1 ==> Gap(moved, i) == Gap(ends, i))
            && Gap(moved, last - 1) == Gap(ends, last - 1) - 1
            && Gap(moved, last) == Gap(ends, last) + 1
  {
  }

  method Cut(n: nat, size: int) returns (ends: seq<int>)
    requires size >= 2
    ensures AreCuts(ends, n, size)
    ensures CannotPack(n, size) <==> exists i :: 0 <= i < |ends| && Gap(ends, i) < 2
  {
    ends := [];
    var end := size;
    while end < n
      invariant forall i :: 0 <= i < |ends| ==> Gap(ends, i) == size
      invariant end == size + if ends == [] then 0 else ends[|ends| - 1]
      invariant end - size <= n && (n > 0 ==> end - size < n)
      invariant size == 2 ==> end == 2 * (|ends| + 1)
      invariant end >= if ends == [] then size else 2 * size
    {
      GapsOfAppend(ends, end);
      ends := ends + [end];
      end := end + size;
    }
    GapsOfAppend(ends, n);
    ends := ends + [n];
    var last := |ends| - 1;
    assert Gap(ends, last) == n - (end - size);
    if |ends| > 1 && ends[last] - ends[last - 1] == 1 {
      GapsOfBorrow(ends, last);
      ends := ends[last - 1 := ends[last - 1] - 1];
      assert Gap(ends, last - 1) == size - 1 && Gap(ends, last) == 2;
      assert size == 2 ==> n % 2 == 1;
    } else if n < 2 {
      assert Gap(ends, 0) < 2;
    } else {
      assert Gap(ends, last) >= 2;
    }
  }

  // ---------------------------------------------------------------- provenance

  /** Tokens [from, to) of sample `owner`. */
  datatype Step = Step(owner: nat, from: int, to: int)

  ghost predicate IsStep(samples: seq<seq<Token>>, step: Step) {
    step.owner < |samples| && 0 <= step.from < step.to <= |samples[step.owner]|
  }

  /** The span says where its step lies, both in the chunk starting at `lo` and in its sample. */
  ghost predicate Describes(span: Span, step: Step, lo: int, samples: seq<seq<Token>>, sources: seq<Source>) {
    && IsStep(samples, step) && step.owner < |sources|
    && span.sampleId == sources[step.owner].id && span.page == sources[step.owner].page
    && span.sourceStart == step.from && span.sourceEnd == step.to
    && lo + span.tokenStart == Offset(samples, step.owner) + step.from
    && lo + span.tokenEnd == Offset(samples, step.owner) + step.to
  }

  /** The spans cover [0, length) in order, without gap or overlap. */
  ghost predicate Tile(spans: seq<Span>, length: int) {
    && (forall i :: 0 <= i < |spans| ==> spans[i].tokenStart < spans[i].tokenEnd)
    && (forall i, j :: 0 <= i && j == i + 1 && j < |spans| ==> spans[i].tokenEnd == spans[j].tokenStart)
    && (if spans == [] then length == 0 else spans[0].tokenStart == 0 && spans[|spans| - 1].tokenEnd == length)
  }

  /** The tokens under the span are the stated slice of some sample with the stated source. */
  ghost predicate IsFaithful(span: Span, inputIds: seq<Token>, samples: seq<seq<Token>>, sources: seq<Source>) {
    exists k :: IsFaithfulTo(span, inputIds, k, samples, sources)
  }

  ghost predicate IsFaithfulTo(span: Span, inputIds: seq<Token>, k: nat, samples: seq<seq<Token>>, sources: seq<Source>) {
    && k < |samples| && k < |sources| && sources[k] == Source(span.sampleId, span.page)
    && 0 <= span.tokenStart < span.tokenEnd <= |inputIds|
    && 0 <= span.sourceStart < span.sourceEnd <= |samples[k]|
    && inputIds[span.tokenStart..span.tokenEnd] == samples[k][span.sourceStart..span.sourceEnd]
  }

  ghost predicate IsGoodChunk(chunk: Chunk, size: int, samples: seq<seq<Token>>, sources: seq<Source>) {
    && 2 <= |chunk.inputIds| <= size
    && chunk.labels == chunk.inputIds
    && chunk.attentionMask == seq(|chunk.inputIds|, _ => 1)
    && Tile(chunk.spans, |chunk.inputIds|)
    && forall span :: span in chunk.spans ==> IsFaithful(span, chunk.inputIds, samples, sources)
  }

  function AllTokens(chunks: seq<Chunk>): seq<Token> {
    if chunks == [] then [] else AllTokens(chunks[..|chunks| - 1]) + chunks[|chunks| - 1].inputIds
  }

  function AllSpans(chunks: seq<Chunk>): seq<Span> {
    if chunks == [] then [] else AllSpans(chunks[..|chunks| - 1]) + chunks[|chunks| - 1].spans
  }

  /** The steps traverse the samples one after the other, each from its first token to its last. */
  ghost predicate TraversesSamples(trail: seq<Step>, samples: seq<seq<Token>>) {
    && (forall i :: 0 <= i < |trail| ==> IsStep(samples, trail[i]))
    && (forall i, j :: 0 <= i && j == i + 1 && j < |trail| ==> FollowsInSamples(trail[i], trail[j], samples))
    && (if trail == [] then samples == [] else
          && trail[0].owner == 0 && trail[0].from == 0
          && trail[|trail| - 1].owner == |samples| - 1
          && trail[|trail| - 1].to == |samples[|samples| - 1]|)
  }

  /** The second step continues the first, or the first ends its sample and the second begins the next. */
  ghost predicate FollowsInSamples(a: Step, b: Step, samples: seq<seq<Token>>)
    requires IsStep(samples, a)
  {
    || (b.owner == a.owner && b.from == a.to)
    || (b.owner == a.owner + 1 && a.to == |samples[a.owner]| && b.from == 0)
  }

  ghost predicate Matches(spans: seq<Span>, trail: seq<Step>, sources: seq<Source>) {
    && |spans| == |trail|
    && forall i :: 0 <= i < |spans| ==>
         && trail[i].owner < |sources|
         && spans[i].sampleId == sources[trail[i].owner].id && spans[i].page == sources[trail[i].owner].page
         && spans[i].sourceStart == trail[i].from && spans[i].sourceEnd == trail[i].to
  }

  // Steps placed on the stream: the form in which the loops keep them.

  ghost function Begin(samples: seq<seq<Token>>, step: Step): int
    requires IsStep(samples, step)
  {
    Offset(samples, step.owner) + step.from
  }

  ghost function End(samples: seq<seq<Token>>, step: Step): int
    requires IsStep(samples, step)
  {
    Offset(samples, step.owner) + step.to
  }

  /** The steps cover stream positions [lo, hi) in order, without gap or overlap. */
  ghost predicate TileStream(samples: seq<seq<Token>>, trail: seq<Step>, lo: int, hi: int) {
    && (forall i :: 0 <= i < |trail| ==> IsStep(samples, trail[i]))
    && (forall i, j :: 0 <= i && j == i + 1 && j < |trail| ==> End(samples, trail[i]) == Begin(samples, trail[j]))
    && (if trail == [] then lo == hi else
          Begin(samples, trail[0]) == lo && End(samples, trail[|trail| - 1]) == hi)
  }

  lemma TileStreamJoins(samples: seq<seq<Token>>, a: seq<Step>, b: seq<Step>, lo: int, mid: int, hi: int)
    requires TileStream(samples, a, lo, mid) && TileStream(samples, b, mid, hi)
    ensures TileStream(samples, a + b, lo, hi)
  {
  }

  /** Adjacent stretches of the stream belong to the same sample or to consecutive ones. */
  lemma AdjacentStepsFollow(samples: seq<seq<Token>>, a: Step, b: Step)
    requires forall i :: 0 <= i < |samples| ==> samples[i] != []
    requires IsStep(samples, a) && IsStep(samples, b) && End(samples, a) == Begin(samples, b)
    ensures FollowsInSamples(a, b, samples)
  {
    OffsetOfNext(samples, a.owner);
    OffsetOfNext(samples, b.owner);
    if b.owner < a.owner {
      OffsetsIncrease(samples, b.owner + 1, a.owner);
    } else if b.owner > a.owner {
      OffsetsIncrease(samples, a.owner + 1, b.owner);
      if b.owner > a.owner + 1 {
        OffsetOfNext(samples, a.owner + 1);
        OffsetsIncrease(samples, a.owner + 2, b.owner);
      }
    }
  }

  lemma TiledStreamTraversesSamples(samples: seq<seq<Token>>, trail: seq<Step>)
    requires forall i :: 0 <= i < |samples| ==> samples[i] != []
    requires TileStream(samples, trail, 0, |Stream(samples)|)
    ensures TraversesSamples(trail, samples)
  {
    forall i, j | 0 <= i && j == i + 1 && j < |trail|
      ensures FollowsInSamples(trail[i], trail[j], samples)
    {
      AdjacentStepsFollow(samples, trail[i], trail[j]);
    }
    var n := |samples|;
    assert samples[..n] == samples;
    if trail != [] {
      var first, last := trail[0], trail[|trail| - 1];
      if first.owner > 0 {
        OffsetOfNext(samples, 0);
        OffsetsIncrease(samples, 1, first.owner);
      }
      OffsetOfNext(samples, last.owner);
      OffsetsIncrease(samples, last.owner + 1, n);
      if last.owner + 1 < n {
        OffsetOfNext(samples, last.owner + 1);
        OffsetsIncrease(samples, last.owner + 2, n);
      }
    }
  }

  // ---------------------------------------------------------------- the spans of one chunk

  ghost predicate AreRanges(ranges: seq<Range>, samples: seq<seq<Token>>, sources: seq<Source>) {
    && |ranges| == |samples| <= |sources|
    && forall i :: 0 <= i < |ranges| ==>
         ranges[i] == Range(Offset(samples, i), Offset(samples, i + 1), sources[i]) && samples[i] != []
  }

  function Clamp(x: int, lo: int, hi: int): int {
    if x < lo then lo else if x > hi then hi else x
  }

  ghost predicate SpansDescribe(spans: seq<Span>, steps: seq<Step>, lo: int, samples: seq<seq<Token>>, sources: seq<Source>) {
    |spans| == |steps| && forall i :: 0 <= i < |spans| ==> Describes(spans[i], steps[i], lo, samples, sources)
  }

  method SpansOf(ranges: seq<Range>, lo: nat, hi: nat, ghost samples: seq<seq<Token>>, ghost sources: seq<Source>)
    returns (spans: seq<Span>, ghost steps: seq<Step>)
    requires AreRanges(ranges, samples, sources) && lo < hi <= |Stream(samples)|
    ensures TileStream(samples, steps, lo, hi) && Tile(spans, hi - lo) && Matches(spans, steps, sources)
    ensures forall span :: span in spans ==> IsFaithful(span, Stream(samples)[lo..hi], samples, sources)
  {
    hide IsFaithful, Tile, Matches;
    spans, steps := [], [];
    assert samples[..0] == [] && samples[..|samples|] == samples;
    for i := 0 to |ranges|
      invariant SpansDescribe(spans, steps, lo, samples, sources)
      invariant TileStream(samples, steps, lo, Clamp(Offset(samples, i), lo, hi))
    {
      OffsetOfNext(samples, i);
      assert ranges[i] == Range(Offset(samples, i), Offset(samples, i + 1), sources[i]);
      var a, b, source := ranges[i].start, ranges[i].end, ranges[i].source;
      var left := if a < lo then lo else a;
      var right := if b < hi then b else hi;
      if left < right {
        var span := Span(source.id, source.page, left - lo, right - lo, left - a, right - a);
        ghost var step := Step(i, left - a, right - a);
        assert Describes(span, step, lo, samples, sources);
        TileStreamJoins(samples, steps, [step], lo, left, right);
        spans, steps := spans + [span], steps + [step];
      }
    }
    DescribedSpansAreGood(spans, steps, lo, hi, samples, sources);
  }

  lemma DescribedSpansAreGood(spans: seq<Span>, steps: seq<Step>, lo: nat, hi: nat,
                              samples: seq<seq<Token>>, sources: seq<Source>)
    requires SpansDescribe(spans, steps, lo, samples, sources) && TileStream(samples, steps, lo, hi)
    requires lo < hi <= |Stream(samples)|
    ensures Tile(spans, hi - lo) && Matches(spans, steps, sources)
    ensures forall span :: span in spans ==> IsFaithful(span, Stream(samples)[lo..hi], samples, sources)
  {
    forall i, j | 0 <= i && j == i + 1 && j < |spans|
      ensures spans[i].tokenEnd == spans[j].tokenStart
    {
      assert Describes(spans[i], steps[i], lo, samples, sources) && Describes(spans[j], steps[j], lo, samples, sources);
    }
    forall i | 0 <= i < |spans|
      ensures IsFaithful(spans[i], Stream(samples)[lo..hi], samples, sources)
    {
      TilesStayInside(samples, steps, i, lo, hi);
      DescribedSpanIsFaithful(spans[i], steps[i], lo, hi, samples, sources);
    }
  }

  lemma SliceOfSlice(s: seq<Token>, lo: int, hi: int, a: int, b: int)
    requires 0 <= lo <= hi <= |s| && 0 <= a <= b <= hi - lo
    ensures s[lo..hi][a..b] == s[lo + a..lo + b]
  {
    var t := s[lo..hi];
    assert forall k :: 0 <= k < b - a ==> t[a..b][k] == t[a + k] == s[lo + a + k];
    assert t[a..b] == s[lo + a..lo + b];
  }

  lemma DescribedSpanIsFaithful(span: Span, step: Step, lo: nat, hi: nat, samples: seq<seq<Token>>, sources: seq<Source>)
    requires Describes(span, step, lo, samples, sources)
    requires lo <= Begin(samples, step) < End(samples, step) <= hi <= |Stream(samples)|
    ensures IsFaithfulTo(span, Stream(samples)[lo..hi], step.owner, samples, sources)
  {
    OffsetOfNext(samples, step.owner);
    StreamAtOffset(samples, step.owner);
    SliceOfSlice(Stream(samples), lo, hi, span.tokenStart, span.tokenEnd);
    SliceOfSlice(Stream(samples), Offset(samples, step.owner), Offset(samples, step.owner + 1), step.from, step.to);
  }

  lemma {:induction false} TilesStayInside(samples: seq<seq<Token>>, trail: seq<Step>, i: nat, lo: int, hi: int)
    requires TileStream(samples, trail, lo, hi) && i < |trail|
    ensures lo <= Begin(samples, trail[i]) < End(samples, trail[i]) <= hi
  {
    var last := |trail| - 1;
    if i < last {
      var rest := trail[..last];
      assert End(samples, trail[last - 1]) == Begin(samples, trail[last]);
      assert TileStream(samples, rest, lo, Begin(samples, trail[last]));
      TilesStayInside(samples, rest, i, lo, Begin(samples, trail[last]));
    } else if i > 0 {
      var rest := trail[..last];
      assert End(samples, trail[last - 1]) == Begin(samples, trail[last]);
      assert TileStream(samples, rest, lo, Begin(samples, trail[last]));
      TilesStayInside(samples, rest, last - 1, lo, Begin(samples, trail[last]));
    }
  }

  // ---------------------------------------------------------------- the packer

  /** Sample `i` as the packer sees it; surplus rows or sources are ignored. */
  function Samples(rows: seq<string>, sources: seq<Source>, encode: string -> seq<Token>, eos: Token): (samples: seq<seq<Token>>)
    ensures |samples| == if |rows| < |sources| then |rows| else |sources|
    ensures forall i :: 0 <= i < |samples| ==> samples[i] == encode(rows[i]) + [eos]
  {
    var n := if |rows| < |sources| then |rows| else |sources|;
    seq(n, i requires 0 <= i < n => encode(rows[i]) + [eos])
  }

  /** What the packer promises of its output. */
  ghost predicate IsPacked(chunks: seq<Chunk>, size: int, samples: seq<seq<Token>>, sources: seq<Source>) {
    && AllTokens(chunks) == Stream(samples)
    && (forall chunk :: chunk in chunks ==> IsGoodChunk(chunk, size, samples, sources))
    && exists trail :: TraversesSamples(trail, samples) && Matches(AllSpans(chunks), trail, sources)
  }

  lemma {:induction false} CutsStayInside(ends: seq<int>, n: nat, size: int, c: nat)
    requires AreCuts(ends, n, size) && c < |ends|
    ensures 0 <= ends[c] - Gap(ends, c) <= ends[c] <= n
  {
    CutsStayBelow(ends, n, size, c);
    CutsStayAbove(ends, n, size, c);
  }

  lemma {:induction false} CutsStayBelow(ends: seq<int>, n: nat, size: int, c: nat)
    requires AreCuts(ends, n, size) && c < |ends|
    ensures ends[c] <= n
    decreases |ends| - c
  {
    if c + 1 < |ends| {
      CutsStayBelow(ends, n, size, c + 1);
      assert Gap(ends, c + 1) >= 0;
    }
  }

  lemma {:induction false} CutsStayAbove(ends: seq<int>, n: nat, size: int, c: nat)
    requires AreCuts(ends, n, size) && c < |ends|
    ensures 0 <= ends[c] - Gap(ends, c) <= ends[c]
  {
    assert Gap(ends, c) >= 0;
    if c > 0 {
      CutsStayAbove(ends, n, size, c - 1);
    }
  }

  method Tokenise(rows: seq<string>, sources: seq<Source>, encode: string -> seq<Token>, eos: Token)
    returns (tokens: seq<Token>, ranges: seq<Range>)
    ensures var samples := Samples(rows, sources, encode, eos);
            tokens == Stream(samples) && AreRanges(ranges, samples, sources)
  {
    ghost var samples := Samples(rows, sources, encode, eos);
    tokens, ranges := [], [];
    var n := if |rows| < |sources| then |rows| else |sources|;
    for i := 0 to n
      invariant |ranges| == i && tokens == Stream(samples[..i])
      invariant forall k :: 0 <= k < i ==> ranges[k] == Range(Offset(samples, k), Offset(samples, k + 1), sources[k])
    {
      OffsetOfNext(samples, i);
      var start := |tokens|;
      tokens := tokens + (encode(rows[i]) + [eos]);
      ranges := ranges + [Range(start, |tokens|, sources[i])];
    }
    assert samples[..n] == samples;
  }

  /** The state of the packing loop once the stream is packed up to `start`. */
  ghost predicate PackedUpTo(chunks: seq<Chunk>, trail: seq<Step>, start: nat, size: int,
                             samples: seq<seq<Token>>, sources: seq<Source>)
  {
    && start <= |Stream(samples)|
    && AllTokens(chunks) == Stream(samples)[..start]
    && (forall chunk :: chunk in chunks ==> IsGoodChunk(chunk, size, samples, sources))
    && TileStream(samples, trail, 0, start) && Matches(AllSpans(chunks), trail, sources)
  }

  lemma AllOfAppend(chunks: seq<Chunk>, chunk: Chunk)
    ensures AllTokens(chunks + [chunk]) == AllTokens(chunks) + chunk.inputIds
    ensures AllSpans(chunks + [chunk]) == AllSpans(chunks) + chunk.spans
  {
    assert (chunks + [chunk])[..|chunks|] == chunks;
  }

  lemma MatchesJoin(a: seq<Span>, trail: seq<Step>, b: seq<Span>, steps: seq<Step>, sources: seq<Source>)
    requires Matches(a, trail, sources) && Matches(b, steps, sources)
    ensures Matches(a + b, trail + steps, sources)
  {
  }

  lemma PackingOneMore(chunks: seq<Chunk>, trail: seq<Step>, start: nat, size: int, chunk: Chunk, steps: seq<Step>,
                       end: nat, samples: seq<seq<Token>>, sources: seq<Source>)
    requires PackedUpTo(chunks, trail, start, size, samples, sources) && start < end <= |Stream(samples)|
    requires chunk.inputIds == Stream(samples)[start..end] && IsGoodChunk(chunk, size, samples, sources)
    requires TileStream(samples, steps, start, end) && Matches(chunk.spans, steps, sources)
    ensures PackedUpTo(chunks + [chunk], trail + steps, end, size, samples, sources)
  {
    hide IsGoodChunk, TileStream, Matches, Stream, AllTokens, AllSpans;
    TileStreamJoins(samples, trail, steps, 0, start, end);
    MatchesJoin(AllSpans(chunks), trail, chunk.spans, steps, sources);
    AllOfAppend(chunks, chunk);
    assert Stream(samples)[..start] + Stream(samples)[start..end] == Stream(samples)[..end];
  }

  method PackChunk(tokens: seq<Token>, ranges: seq<Range>, start: nat, end: nat, size: int,
                   ghost samples: seq<seq<Token>>, ghost sources: seq<Source>)
    returns (chunk: Chunk, ghost steps: seq<Step>)
    requires tokens == Stream(samples) && AreRanges(ranges, samples, sources)
    requires start <= end <= |tokens| && 2 <= end - start <= size
    ensures chunk.inputIds == tokens[start..end] && IsGoodChunk(chunk, size, samples, sources)
    ensures TileStream(samples, steps, start, end) && Matches(chunk.spans, steps, sources)
  {
    var ids := tokens[start..end];
    var spans;
    spans, steps := SpansOf(ranges, start, end, samples, sources);
    chunk := Chunk(ids, seq(|ids|, _ => 1), ids, spans);
  }

  method PackChunks(tokens: seq<Token>, ranges: seq<Range>, ends: seq<int>, size: int,
                    ghost samples: seq<seq<Token>>, ghost sources: seq<Source>)
    returns (r: Result<seq<Chunk>, PackError>)
    requires tokens == Stream(samples) && AreRanges(ranges, samples, sources) && AreCuts(ends, |tokens|, size)
    ensures r.Err? <==> exists i :: 0 <= i < |ends| && Gap(ends, i) < 2
    ensures r.Err? ==> r.error == InsufficientTokens
    ensures r.Ok? ==> IsPacked(r.value, size, samples, sources)
  {
    hide IsGoodChunk, IsPacked;
    var result: seq<Chunk>, start: nat := [], 0;
    ghost var trail: seq<Step> := [];
    for c := 0 to |ends|
      invariant start == (if c == 0 then 0 else ends[c - 1])
      invariant forall i :: 0 <= i < c ==> Gap(ends, i) >= 2
      invariant PackedUpTo(result, trail, start, size, samples, sources)
    {
      CutsStayInside(ends, |tokens|, size, c);
      var end := ends[c];
      if end - start < 2 {
        assert Gap(ends, c) < 2;
        return Err(InsufficientTokens);
      }
      var chunk, steps := PackChunk(tokens, ranges, start, end, size, samples, sources);
      PackingOneMore(result, trail, start, size, chunk, steps, end, samples, sources);
      result := result + [chunk];
      trail := trail + steps;
      start := end;
    }
    PackedUpToTheEnd(result, trail, size, samples, sources);
    r := Ok(result);
  }

  lemma PackedUpToTheEnd(chunks: seq<Chunk>, trail: seq<Step>, size: int, samples: seq<seq<Token>>, sources: seq<Source>)
    requires PackedUpTo(chunks, trail, |Stream(samples)|, size, samples, sources)
    requires forall i :: 0 <= i < |samples| ==> samples[i] != []
    ensures IsPacked(chunks, size, samples, sources)
  {
    assert Stream(samples)[..|Stream(samples)|] == Stream(samples);
    TiledStreamTraversesSamples(samples, trail);
  }

  method Pack(rows: seq<string>, sources: seq<Source>, encode: string -> seq<Token>, eos: Token, size: int)
    returns (r: Result<seq<Chunk>, PackError>)
    ensures r.Err? <==> size < 2 || CannotPack(|Stream(Samples(rows, sources, encode, eos))|, size)
    ensures r.Err? ==> r.error == if size < 2 then SequenceLengthTooSmall else InsufficientTokens
    ensures r.Ok? ==> IsPacked(r.value, size, Samples(rows, sources, encode, eos), sources)
  {
    if size < 2 {
      return Err(SequenceLengthTooSmall);
    }
    var tokens, ranges := Tokenise(rows, sources, encode, eos);
    var ends := Cut(|tokens|, size);
    r := PackChunks(tokens, ranges, ends, size, Samples(rows, sources, encode, eos), sources);
  }
}
