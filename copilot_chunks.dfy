/** `chunkText` of src/lib/copilot.ts: fixed-size windows over a text,
    each starting `chunkSize - overlap` characters after the previous one. */
module CopilotChunks {
  function Min(a: int, b: int): int { if a < b then a else b }

  /** Where chunk `i` starts: `i` steps from the beginning. */
  function Offset(i: nat, step: nat): nat {
    if i == 0 then 0 else Offset(i - 1, step) + step
  }

  /** The offsets are the multiples of the step. */
  lemma {:induction false} OffsetIsProduct(i: nat, step: nat)
    ensures Offset(i, step) == i * step
  {
    if i > 0 {
      OffsetIsProduct(i - 1, step);
      assert (i - 1) * step + step == i * step;
    }
  }

  /** Where a chunk starting at `start` ends. */
  function ChunkEnd(n: nat, chunkSize: nat, start: nat): nat {
    Min(start + chunkSize, n)
  }

  /** Chunk number `i` of a run with the given size and step. */
  ghost predicate ChunkAt(text: string, chunkSize: nat, step: nat, c: string, i: nat) {
    Offset(i, step) < |text| && c == text[Offset(i, step) .. ChunkEnd(|text|, chunkSize, Offset(i, step))]
  }

  /** What the loop produces: chunk `i` is the text from `Offset(i)` to at
      most `chunkSize` characters further; the loop goes on after a chunk
      exactly when that chunk ends before the text and the next start is
      still inside it. */
  ghost predicate IsChunking(text: string, chunkSize: nat, overlap: int, chunks: seq<string>)
    requires overlap < chunkSize
  {
    var n, step := |text|, (chunkSize - overlap) as nat;
    && (n == 0 <==> chunks == [])
    && (forall i :: 0 <= i < |chunks| ==> ChunkAt(text, chunkSize, step, chunks[i], i))
    && (forall i :: 0 <= i < |chunks| - 1 ==> Offset(i, step) + chunkSize < n)
    && (chunks != [] ==> Offset(|chunks| - 1, step) + chunkSize >= n || Offset(|chunks|, step) >= n)
  }

  /** The loop. It only finishes when each step moves forward, which is
      what the two preconditions say; the defaults (1000, 200) meet them. */
  method ChunkText(text: string, chunkSize: int, overlap: int) returns (chunks: seq<string>)
    requires 0 < chunkSize && overlap < chunkSize
    ensures IsChunking(text, chunkSize, overlap, chunks)
  {
    var n := |text|;
    ghost var step: nat := chunkSize - overlap;
    chunks := [];
    var start := 0;
    while start < n
      invariant start == Offset(|chunks|, step)
      invariant forall i :: 0 <= i < |chunks| ==> ChunkAt(text, chunkSize, step, chunks[i], i)
      invariant forall i :: 0 <= i < |chunks| ==> Offset(i, step) + chunkSize < n
      decreases n - start
    {
      var end := Min(start + chunkSize, n);
      ghost var before := chunks;
      chunks := chunks + [text[start..end]];
      assert ChunkAt(text, chunkSize, step, chunks[|before|], |before|);
      assert forall i :: 0 <= i < |before| ==> chunks[i] == before[i];
      if end >= n {
        break;
      }
      start := start + chunkSize - overlap;
    }
  }

  /** With a non-negative overlap, every chunk is non-empty and at most
      `chunkSize` long, and the last one ends where the text ends. */
  lemma ChunkShape(text: string, chunkSize: nat, overlap: int, chunks: seq<string>)
    requires 0 <= overlap < chunkSize
    requires IsChunking(text, chunkSize, overlap, chunks)
    ensures forall i :: 0 <= i < |chunks| ==> 0 < |chunks[i]| <= chunkSize
    ensures chunks != [] ==>
              var start := Offset(|chunks| - 1, (chunkSize - overlap) as nat);
              start + chunkSize >= |text| && start < |text| && chunks[|chunks| - 1] == text[start..]
  {
    var step := (chunkSize - overlap) as nat;
    forall i | 0 <= i < |chunks|
      ensures 0 < |chunks[i]| <= chunkSize
    {
      assert ChunkAt(text, chunkSize, step, chunks[i], i);
    }
    if chunks != [] {
      assert ChunkAt(text, chunkSize, step, chunks[|chunks| - 1], |chunks| - 1);
    }
  }

  /** `s` without its first `k` characters (empty when it is shorter). */
  function Drop(s: string, k: int): string {
    if k <= 0 then s else if k <= |s| then s[k..] else []
  }

  /** The first chunk followed by every later chunk without its first
      `overlap` characters. */
  function Reassemble(chunks: seq<string>, overlap: int): string {
    if chunks == [] then []
    else if |chunks| == 1 then chunks[0]
    else Reassemble(chunks[..|chunks| - 1], overlap) + Drop(chunks[|chunks| - 1], overlap)
  }

  /** With a non-negative overlap the chunks overlap by exactly `overlap`
      characters, so dropping it from each later chunk gives the text back. */
  lemma ReassembleChunks(text: string, chunkSize: nat, overlap: int, chunks: seq<string>)
    requires 0 <= overlap < chunkSize
    requires IsChunking(text, chunkSize, overlap, chunks)
    ensures Reassemble(chunks, overlap) == text
  {
    if chunks != [] {
      ReassemblePrefix(text, chunkSize, overlap, chunks, |chunks|);
      assert chunks[..|chunks|] == chunks;
    }
  }

  lemma {:induction false} ReassemblePrefix(text: string, chunkSize: nat, overlap: int, chunks: seq<string>, k: nat)
    requires 0 <= overlap < chunkSize
    requires IsChunking(text, chunkSize, overlap, chunks)
    requires 1 <= k <= |chunks|
    ensures Reassemble(chunks[..k], overlap)
            == text[..ChunkEnd(|text|, chunkSize, Offset(k - 1, (chunkSize - overlap) as nat))]
  {
    if k > 1 {
      ReassemblePrefix(text, chunkSize, overlap, chunks, k - 1);
      ReassembleStep(text, chunkSize, overlap, chunks, k);
    } else {
      assert ChunkAt(text, chunkSize, (chunkSize - overlap) as nat, chunks[0], 0);
      assert chunks[..1] == [chunks[0]];
    }
  }

  /** One more chunk extends the reassembled prefix to where it ends. */
  lemma ReassembleStep(text: string, chunkSize: nat, overlap: int, chunks: seq<string>, k: nat)
    requires 0 <= overlap < chunkSize
    requires IsChunking(text, chunkSize, overlap, chunks)
    requires 2 <= k <= |chunks|
    requires Reassemble(chunks[..k - 1], overlap)
             == text[..ChunkEnd(|text|, chunkSize, Offset(k - 2, (chunkSize - overlap) as nat))]
    ensures Reassemble(chunks[..k], overlap)
            == text[..ChunkEnd(|text|, chunkSize, Offset(k - 1, (chunkSize - overlap) as nat))]
  {
    var n, step := |text|, (chunkSize - overlap) as nat;
    ReassembleSnoc(chunks, overlap, k);
    var prevEnd := ChunkEnd(n, chunkSize, Offset(k - 2, step));
    var e := ChunkEnd(n, chunkSize, Offset(k - 1, step));
    DropOverlap(text, chunkSize, overlap, chunks, k - 1);
    SliceConcat(text, prevEnd, e);
  }

  lemma ReassembleSnoc(chunks: seq<string>, overlap: int, k: nat)
    requires 2 <= k <= |chunks|
    ensures Reassemble(chunks[..k], overlap) == Reassemble(chunks[..k - 1], overlap) + Drop(chunks[k - 1], overlap)
  {
    assert chunks[..k][..k - 1] == chunks[..k - 1];
  }

  lemma SliceConcat(s: string, a: nat, b: nat)
    requires a <= b <= |s|
    ensures s[..a] + s[a..b] == s[..b]
  {
  }

  /** Chunk `i > 0` without its first `overlap` characters is the text
      from where chunk `i - 1` ends to where chunk `i` ends. */
  lemma DropOverlap(text: string, chunkSize: nat, overlap: int, chunks: seq<string>, i: nat)
    requires 0 <= overlap < chunkSize
    requires IsChunking(text, chunkSize, overlap, chunks)
    requires 1 <= i < |chunks|
    ensures var n, step := |text|, (chunkSize - overlap) as nat;
            var prevEnd := ChunkEnd(n, chunkSize, Offset(i - 1, step));
            prevEnd <= ChunkEnd(n, chunkSize, Offset(i, step)) &&
            Drop(chunks[i], overlap) == text[prevEnd .. ChunkEnd(n, chunkSize, Offset(i, step))]
  {
    var n, step := |text|, (chunkSize - overlap) as nat;
    assert Offset(i - 1, step) + chunkSize < n;
    assert Offset(i, step) == Offset(i - 1, step) + step;
    assert ChunkAt(text, chunkSize, step, chunks[i], i);
  }

  /** The chunking of a text is unique: the loop's output is determined by
      its arguments. */
  lemma ChunkingUnique(text: string, chunkSize: nat, overlap: int, a: seq<string>, b: seq<string>)
    requires overlap < chunkSize
    requires IsChunking(text, chunkSize, overlap, a) && IsChunking(text, chunkSize, overlap, b)
    ensures a == b
  {
    LengthBelow(text, chunkSize, overlap, a, b);
    LengthBelow(text, chunkSize, overlap, b, a);
  }

  lemma LengthBelow(text: string, chunkSize: nat, overlap: int, a: seq<string>, b: seq<string>)
    requires overlap < chunkSize
    requires IsChunking(text, chunkSize, overlap, a) && IsChunking(text, chunkSize, overlap, b)
    ensures |a| <= |b|
  {
    var n, step := |text|, (chunkSize - overlap) as nat;
    if b != [] {
      var j := |b| - 1;
      assert Offset(j, step) + chunkSize >= n || Offset(j + 1, step) >= n;
      forall i | 0 <= i < |a|
        ensures Offset(i, step) < n
      {
        assert ChunkAt(text, chunkSize, step, a[i], i);
      }
      assert !(j < |a| - 1);
    }
  }

  /** The default arguments meet the preconditions: 1000-character chunks
      starting every 800 characters. */
  lemma DefaultsChunkEvery800(text: string, chunks: seq<string>, i: nat)
    requires IsChunking(text, 1000, 200, chunks) && i < |chunks|
    ensures 800 * i < |text| && chunks[i] == text[800 * i .. Min(800 * i + 1000, |text|)]
  {
    OffsetIsProduct(i, 800);
    assert ChunkAt(text, 1000, 800, chunks[i], i);
  }
}
