/** The fixed-offset chunker `split_text`, which behaves identically in
    chatbot/utils.py and app.py: a window of `chunkSize` characters that
    moves forward by `chunkSize - overlap` characters while its start is
    inside the text. The source never checks its parameters; the model keeps
    that (there is no configuration error) and states, as a precondition, the
    one case in which the loop never ends. */
module Chunker {
  import opened Strings

  /** Default parameters of `split_text`; both callers rely on them. */
  const DefaultChunkSize: int := 500
  const DefaultOverlap: int := 50

  /** The loop returns unless the text is non-empty and the start never moves forward. */
  predicate Terminates(text: string, chunkSize: int, overlap: int)
  {
    |text| == 0 || chunkSize - overlap >= 1
  }

  /** The chunks the loop emits from offset `start` on: the Python slice
      `text[start:min(start + chunkSize, len(text))]`, then the rest. */
  function ChunksFrom(text: string, chunkSize: int, overlap: int, start: nat): seq<string>
    requires start >= |text| || chunkSize - overlap >= 1
    decreases |text| - start
  {
    if start >= |text| then []
    else
      [Slice(text, start, Min(start + chunkSize, |text|))]
      + ChunksFrom(text, chunkSize, overlap, start + chunkSize - overlap)
  }

  /** `split_text(text, chunk_size, chunk_overlap)`. */
  function SplitText(text: string, chunkSize: int, overlap: int): (chunks: seq<string>)
    requires Terminates(text, chunkSize, overlap)
    ensures |text| == 0 <==> chunks == []
  {
    ChunksFrom(text, chunkSize, overlap, 0)
  }

  /** `split_text(text)` with its default parameters. */
  function SplitDefault(text: string): seq<string>
  {
    SplitText(text, DefaultChunkSize, DefaultOverlap)
  }

  /** The `while` loop of `split_text` as written computes `SplitText`. */
  method SplitTextLoop(text: string, chunkSize: int, overlap: int) returns (chunks: seq<string>)
    requires Terminates(text, chunkSize, overlap)
    ensures chunks == SplitText(text, chunkSize, overlap)
  {
    chunks := [];
    var start: nat := 0;
    var textLen := |text|;
    while start < textLen
      invariant chunks + ChunksFrom(text, chunkSize, overlap, start) == SplitText(text, chunkSize, overlap)
      decreases textLen - start
    {
      var end := Min(start + chunkSize, textLen);
      chunks := chunks + [Slice(text, start, end)];
      start := start + chunkSize - overlap;
    }
  }

  /** `i` strides of `step`, built by repeated addition so that the proofs
      below stay in linear arithmetic; `StrideIsProduct` converts it to `i * step`. */
  function Stride(i: nat, step: int): (r: int)
    ensures step >= 0 ==> r >= 0
  {
    if i == 0 then 0 else Stride(i - 1, step) + step
  }

  lemma {:induction false} StrideIsProduct(i: nat, step: int)
    ensures Stride(i, step) == i * step
  {
    if i > 0 {
      StrideIsProduct(i - 1, step);
      assert (i - 1) * step + step == i * step;
    }
  }

  /** The chunks emitted from `start` number the fewest strides of `step`
      that carry `start` to or past the end of the text. */
  lemma {:induction false} ChunksFromCount(text: string, chunkSize: int, overlap: int, start: nat)
    requires chunkSize - overlap >= 1
    ensures var n := |ChunksFrom(text, chunkSize, overlap, start)|;
            var step := chunkSize - overlap;
            && start + Stride(n, step) >= |text|
            && (n > 0 ==> start + Stride(n - 1, step) < |text|)
    decreases |text| - start
  {
    var step := chunkSize - overlap;
    if start < |text| {
      var rest := ChunksFrom(text, chunkSize, overlap, start + step);
      ChunksFromCount(text, chunkSize, overlap, start + step);
      var m := |rest|;
      StrideShift(m, step);
      if m > 0 {
        StrideShift(m - 1, step);
      }
    }
  }

  /** A stride taken first is the same as a stride taken last. */
  lemma {:induction false} StrideShift(i: nat, step: int)
    ensures Stride(i + 1, step) == step + Stride(i, step)
  {
  }

  /** Chunk `i` emitted from `start` begins `i` strides after `start`, inside
      the text, and is the window of at most `chunkSize` characters there. */
  lemma {:induction false} ChunkAt(text: string, chunkSize: int, overlap: int, start: nat, i: nat)
    requires chunkSize >= 1 && chunkSize - overlap >= 1
    requires i < |ChunksFrom(text, chunkSize, overlap, start)|
    ensures var off := start + Stride(i, chunkSize - overlap);
            && off < |text|
            && ChunksFrom(text, chunkSize, overlap, start)[i] == text[off..Min(off + chunkSize, |text|)]
    decreases i
  {
    var step := chunkSize - overlap;
    var r := ChunksFrom(text, chunkSize, overlap, start);
    var off := start + Stride(i, step);
    ChunksDrop(text, chunkSize, overlap, start, i);
    var tail := ChunksFrom(text, chunkSize, overlap, off);
    assert r[i] == r[i..][0] == tail[0];
    ChunksFromHead(text, chunkSize, overlap, off);
  }

  /** Dropping the first `i` chunks emitted from `start` leaves the chunks
      emitted from `i` strides further on. */
  lemma {:induction false} ChunksDrop(text: string, chunkSize: int, overlap: int, start: nat, i: nat)
    requires chunkSize - overlap >= 1
    requires i <= |ChunksFrom(text, chunkSize, overlap, start)|
    ensures ChunksFrom(text, chunkSize, overlap, start)[i..]
            == ChunksFrom(text, chunkSize, overlap, start + Stride(i, chunkSize - overlap))
    decreases i
  {
    if i > 0 {
      var step := chunkSize - overlap;
      var r := ChunksFrom(text, chunkSize, overlap, start);
      var rest := ChunksFrom(text, chunkSize, overlap, start + step);
      assert start < |text|;
      assert r[1..] == rest;
      ChunksDrop(text, chunkSize, overlap, start + step, i - 1);
      assert r[i..] == rest[i - 1..];
      StrideShift(i - 1, step);
    }
  }

  /** The first chunk from `start` is the window there; the others are
      emitted from the next stride on. */
  lemma ChunksFromHead(text: string, chunkSize: int, overlap: int, start: nat)
    requires chunkSize >= 1 && chunkSize - overlap >= 1 && start < |text|
    ensures var r := ChunksFrom(text, chunkSize, overlap, start);
            && |r| >= 1
            && r[0] == text[start..Min(start + chunkSize, |text|)]
            && r[1..] == ChunksFrom(text, chunkSize, overlap, start + chunkSize - overlap)
  {
  }

  /** `split_text` with a positive stride returns ceil(|text| / step)
      chunks: the fewest strides of `step` that reach the end of the text. */
  lemma SplitTextCount(text: string, chunkSize: int, overlap: int)
    requires chunkSize - overlap >= 1
    ensures var n := |SplitText(text, chunkSize, overlap)|;
            var step := chunkSize - overlap;
            && n * step >= |text|
            && (n > 0 ==> (n - 1) * step < |text|)
  {
    var n := |SplitText(text, chunkSize, overlap)|;
    var step := chunkSize - overlap;
    ChunksFromCount(text, chunkSize, overlap, 0);
    StrideIsProduct(n, step);
    if n > 0 {
      StrideIsProduct(n - 1, step);
    }
  }

  /** Chunk `i` of `split_text` is `text[i*step .. min(i*step + chunkSize, |text|)]`;
      so it is non-empty and at most `chunkSize` long. */
  lemma SplitTextChunk(text: string, chunkSize: int, overlap: int, i: nat)
    requires chunkSize >= 1 && chunkSize - overlap >= 1
    requires i < |SplitText(text, chunkSize, overlap)|
    ensures var chunk := SplitText(text, chunkSize, overlap)[i];
            var step := chunkSize - overlap;
            && i * step < |text|
            && chunk == text[i * step..Min(i * step + chunkSize, |text|)]
            && 1 <= |chunk| <= chunkSize
  {
    ChunkAt(text, chunkSize, overlap, 0, i);
    StrideIsProduct(i, chunkSize - overlap);
  }

  /** A position below `n` strides lies within one stride of some stride boundary below `n`. */
  lemma {:induction false} StrideCover(j: int, step: int, n: nat) returns (i: nat)
    requires step >= 1 && 0 <= j < Stride(n, step)
    ensures i < n && Stride(i, step) <= j < Stride(i, step) + step
  {
    if j >= Stride(n - 1, step) {
      i := n - 1;
    } else {
      i := StrideCover(j, step, n - 1);
    }
  }

  /** With `0 <= overlap < chunkSize`, every position of the text lies inside
      some chunk: chunk `i` spans `[i*step, i*step + |chunks[i]|)`. */
  lemma Coverage(text: string, chunkSize: int, overlap: int, j: int)
    requires 0 <= overlap < chunkSize
    requires 0 <= j < |text|
    ensures var chunks := SplitText(text, chunkSize, overlap);
            var step := chunkSize - overlap;
            exists i :: 0 <= i < |chunks| && i * step <= j < i * step + |chunks[i]|
  {
    var chunks := SplitText(text, chunkSize, overlap);
    var step := chunkSize - overlap;
    ChunksFromCount(text, chunkSize, overlap, 0);
    var i := StrideCover(j, step, |chunks|);
    ChunkAt(text, chunkSize, overlap, 0, i);
    StrideIsProduct(i, step);
    assert |chunks[i]| == Min(i * step + chunkSize, |text|) - i * step;
  }

  /** With no overlap, concatenating the chunks gives back the text. */
  lemma {:induction false} ConcatNoOverlapFrom(text: string, chunkSize: int, start: nat)
    requires chunkSize >= 1 && start <= |text|
    ensures Concat(ChunksFrom(text, chunkSize, 0, start)) == text[start..]
    decreases |text| - start
  {
    if start < |text| {
      var end := Min(start + chunkSize, |text|);
      ConcatNoOverlapFrom(text, chunkSize, end);
      assert text[start..] == text[start..end] + text[end..];
    }
  }

  lemma ConcatNoOverlap(text: string, chunkSize: int)
    requires chunkSize >= 1
    ensures Concat(SplitText(text, chunkSize, 0)) == text
  {
    ConcatNoOverlapFrom(text, chunkSize, 0);
  }

  /** The worked example: 23 characters, chunk size 5, no overlap. */
  lemma ExampleNoOverlap()
    ensures SplitText("AAAAA BBBBB CCCCC DDDDD", 5, 0)
            == ["AAAAA", " BBBB", "B CCC", "CC DD", "DDD"]
  {
    var t := "AAAAA BBBBB CCCCC DDDDD";
    assert t[0..5] == "AAAAA" && t[5..10] == " BBBB" && t[10..15] == "B CCC";
    assert t[15..20] == "CC DD" && t[20..23] == "DDD";
    assert ChunksFrom(t, 5, 0, 20) == [t[20..23]] + ChunksFrom(t, 5, 0, 25);
    assert ChunksFrom(t, 5, 0, 15) == [t[15..20]] + ChunksFrom(t, 5, 0, 20);
    assert ChunksFrom(t, 5, 0, 10) == [t[10..15]] + ChunksFrom(t, 5, 0, 15);
    assert ChunksFrom(t, 5, 0, 5) == [t[5..10]] + ChunksFrom(t, 5, 0, 10);
    assert ChunksFrom(t, 5, 0, 0) == [t[0..5]] + ChunksFrom(t, 5, 0, 5);
  }

  /** With a large overlap several chunks at the end are shorter than the chunk size. */
  lemma ExampleShortTail()
    ensures SplitText("abcde", 4, 3) == ["abcd", "bcde", "cde", "de", "e"]
  {
    var t := "abcde";
    assert t[0..4] == "abcd" && t[1..5] == "bcde" && t[2..5] == "cde";
    assert t[3..5] == "de" && t[4..5] == "e";
    assert ChunksFrom(t, 4, 3, 4) == [t[4..5]] + ChunksFrom(t, 4, 3, 5);
    assert ChunksFrom(t, 4, 3, 3) == [t[3..5]] + ChunksFrom(t, 4, 3, 4);
    assert ChunksFrom(t, 4, 3, 2) == [t[2..5]] + ChunksFrom(t, 4, 3, 3);
    assert ChunksFrom(t, 4, 3, 1) == [t[1..5]] + ChunksFrom(t, 4, 3, 2);
    assert ChunksFrom(t, 4, 3, 0) == [t[0..4]] + ChunksFrom(t, 4, 3, 1);
  }
}
