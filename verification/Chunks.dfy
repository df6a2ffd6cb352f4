/** Splitting a long text into overlapping chunks. */
module Chunks {

  datatype Chunk = Chunk(index: nat, start: nat, end: nat, text: string)

  /** Chunk number `k` of `text`: not empty, and the slice its own offsets name. */
  predicate IsPiece(text: string, c: Chunk, k: nat) {
    c.index == k && c.start < c.end <= |text| && c.text == text[c.start..c.end]
  }

  /** `next` starts exactly `overlap` characters before the full-size `c` ends. */
  predicate Follows(c: Chunk, next: Chunk, size: nat, overlap: nat) {
    c.end == c.start + size && next.start + overlap == c.end < next.end
  }

  /** Numbered pieces, each following the one before and all but the last one full. */
  ghost predicate IsRun(text: string, size: nat, overlap: nat, chunks: seq<Chunk>) {
    && (forall k :: 0 <= k < |chunks| ==> IsPiece(text, chunks[k], k) && chunks[k].end <= chunks[k].start + size)
    && (forall k :: 0 < k < |chunks| ==> Follows(chunks[k - 1], chunks[k], size, overlap))
    && (chunks != [] ==> chunks[0].start == 0)
  }

  /** A run of pieces that reaches the end of the text. */
  ghost predicate Tiles(text: string, size: nat, overlap: nat, chunks: seq<Chunk>) {
    && IsRun(text, size, overlap, chunks)
    && (text == "" <==> chunks == [])
    && (chunks != [] ==> chunks[|chunks| - 1].end == |text|)
  }

  /** The precondition is exactly what the loop needs to end: see `NoProgress`. */
  method ChunkText(text: string, size: nat, overlap: nat) returns (chunks: seq<Chunk>)
    requires text == "" || 0 < |text| <= size || overlap < size
    ensures Tiles(text, size, overlap, chunks)
  {
    if text == "" {
      return [];
    }
    chunks := [];
    var start, index := 0, 0;
    while start < |text|
      invariant 0 <= start < |text|
      invariant index == |chunks|
      invariant IsRun(text, size, overlap, chunks)
      invariant chunks == [] ==> start == 0
      invariant chunks != [] ==>
        var last := chunks[|chunks| - 1];
        overlap < size && last.end < |text| && last.end == last.start + size && start + overlap == last.end
      decreases |text| - start
    {
      var end := EndOfTurn(text, size, start);
      chunks := chunks + [Chunk(index, start, end, text[start..end])];
      if end == |text| {
        break;
      }
      start := NextStart(end, overlap);
      index := index + 1;
    }
  }

  /** Where a turn of the loop ends that starts at `start`, and where the next one starts. */
  function EndOfTurn(text: string, size: nat, start: nat): nat {
    if start + size < |text| then start + size else |text|
  }

  function NextStart(end: nat, overlap: nat): nat {
    if end > overlap then end - overlap else 0
  }

  function StartOfTurn(text: string, size: nat, overlap: nat, k: nat): nat {
    if k == 0 then 0
    else NextStart(EndOfTurn(text, size, StartOfTurn(text, size, overlap, k - 1)), overlap)
  }

  /** Otherwise the loop never ends: every turn starts at 0 and stops short of the text's end. */
  lemma {:induction false} NoProgress(text: string, size: nat, overlap: nat, k: nat)
    requires !(text == "" || |text| <= size || overlap < size)
    ensures StartOfTurn(text, size, overlap, k) == 0 && EndOfTurn(text, size, 0) < |text|
  {
    if k > 0 {
      NoProgress(text, size, overlap, k - 1);
    }
  }

  /** The tiling is settled by its specification: where chunk `k` starts and how many there are. */
  lemma {:induction false} StartOf(text: string, size: nat, overlap: nat, chunks: seq<Chunk>, k: nat)
    requires Tiles(text, size, overlap, chunks) && k < |chunks| && (k > 0 ==> overlap <= size)
    ensures chunks[k].start == k * (size - overlap)
  {
    if k > 0 {
      StartOf(text, size, overlap, chunks, k - 1);
      assert Follows(chunks[k - 1], chunks[k], size, overlap);
    }
  }

  lemma {:induction false} TilingIsUnique(text: string, size: nat, overlap: nat, a: seq<Chunk>, b: seq<Chunk>)
    requires overlap < size && Tiles(text, size, overlap, a) && Tiles(text, size, overlap, b)
    ensures a == b
  {
    if |a| < |b| {
      SamePrefix(text, size, overlap, a, b);
    } else {
      SamePrefix(text, size, overlap, b, a);
    }
  }

  lemma {:induction false} LaterChunkFollows(text: string, size: nat, overlap: nat, chunks: seq<Chunk>, k: nat)
    requires Tiles(text, size, overlap, chunks) && k + 1 < |chunks|
    ensures Follows(chunks[k], chunks[k + 1], size, overlap) && chunks[k].end < |text|
  {
  }

  lemma {:induction false} SamePrefix(text: string, size: nat, overlap: nat, a: seq<Chunk>, b: seq<Chunk>)
    requires overlap < size && |a| <= |b| && Tiles(text, size, overlap, a) && Tiles(text, size, overlap, b)
    ensures a == b
  {
    if a != [] {
      StartOf(text, size, overlap, a, |a| - 1);
      StartOf(text, size, overlap, b, |a| - 1);
      if |a| < |b| {
        LaterChunkFollows(text, size, overlap, b, |a| - 1);
        assert false;
      }
    }
    forall k | 0 <= k < |a| ensures a[k] == b[k] {
      StartOf(text, size, overlap, a, k);
      StartOf(text, size, overlap, b, k);
      assert IsPiece(text, a[k], k) && IsPiece(text, b[k], k);
      if k + 1 < |a| {
        assert Follows(a[k], a[k + 1], size, overlap) && Follows(b[k], b[k + 1], size, overlap);
      }
    }
  }

  /** The first chunk, then what each later chunk adds after its overlap. */
  function Rebuilt(chunks: seq<Chunk>, overlap: nat): string {
    if chunks == [] then ""
    else
      var last := chunks[|chunks| - 1];
      if |chunks| == 1 then last.text
      else Rebuilt(chunks[..|chunks| - 1], overlap) + (if overlap <= |last.text| then last.text[overlap..] else "")
  }

  lemma {:induction false} RunRebuilds(text: string, size: nat, overlap: nat, chunks: seq<Chunk>)
    requires IsRun(text, size, overlap, chunks) && chunks != []
    ensures Rebuilt(chunks, overlap) == text[..chunks[|chunks| - 1].end]
  {
    var n := |chunks| - 1;
    if n > 0 {
      assert Follows(chunks[n - 1], chunks[n], size, overlap);
      assert IsPiece(text, chunks[n], n);
      RunRebuilds(text, size, overlap, chunks[..n]);
      TailOfPiece(text, chunks[n], n, overlap);
    }
  }

  lemma {:induction false} TailOfPiece(text: string, c: Chunk, k: nat, overlap: nat)
    requires IsPiece(text, c, k) && c.start + overlap <= c.end
    ensures overlap <= |c.text| && text[..c.start + overlap] + c.text[overlap..] == text[..c.end]
  {
  }

  /** Nothing is lost and nothing is repeated beyond the overlap. */
  lemma {:induction false} ChunksRebuildText(text: string, size: nat, overlap: nat, chunks: seq<Chunk>)
    requires Tiles(text, size, overlap, chunks)
    ensures Rebuilt(chunks, overlap) == text
  {
    if chunks != [] {
      RunRebuilds(text, size, overlap, chunks);
      assert text[..|text|] == text;
    }
  }

  lemma {:induction false} SliceOfSlice(s: string, a: nat, b: nat, from: nat, to: nat)
    requires a <= from <= to <= b <= |s|
    ensures s[a..b][from - a..to - a] == s[from..to]
  {
    forall i | 0 <= i < to - from ensures s[a..b][from - a..to - a][i] == s[from..to][i] {
      assert s[a..b][from - a + i] == s[from + i];
    }
  }

  /** Every substring of up to `overlap` + 1 characters lies whole in one chunk. */
  lemma {:induction false} ShortPassageInOneChunk(text: string, size: nat, overlap: nat, chunks: seq<Chunk>,
                                                  from: nat, to: nat)
    returns (k: nat)
    requires Tiles(text, size, overlap, chunks) && from < to <= |text| && to - from <= overlap + 1
    ensures k < |chunks| && chunks[k].start <= from && to <= chunks[k].end
    ensures chunks[k].text[from - chunks[k].start..to - chunks[k].start] == text[from..to]
  {
    k := 0;
    while chunks[k].end < to
      invariant k < |chunks| && chunks[k].start <= from
      decreases |chunks| - k
    {
      assert Follows(chunks[k], chunks[k + 1], size, overlap);
      k := k + 1;
    }
    assert IsPiece(text, chunks[k], k);
    SliceOfSlice(text, chunks[k].start, chunks[k].end, from, to);
  }

  /** One character more and it can be cut: the passage that starts one before the second chunk and
      ends one past the first is whole in no chunk. */
  lemma {:induction false} LongerPassageIsCut(text: string, size: nat, overlap: nat, chunks: seq<Chunk>)
    requires Tiles(text, size, overlap, chunks) && overlap < size < |text|
    ensures forall k :: 0 <= k < |chunks| ==>
              !(chunks[k].start <= size - overlap - 1 && size + 1 <= chunks[k].end)
  {
    forall k | 0 <= k < |chunks|
      ensures !(chunks[k].start <= size - overlap - 1 && size + 1 <= chunks[k].end)
    {
      StartOf(text, size, overlap, chunks, k);
      if k > 0 {
        AtLeastOnce(k, size - overlap);
      }
    }
  }

  lemma {:induction false} AtLeastOnce(k: nat, step: nat)
    requires k > 0
    ensures k * step >= step
  {
  }
}
