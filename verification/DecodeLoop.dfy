/** One decode step over a paged spill pool: spilled blocks are packed into chunks of a byte budget, and
    the chunks are merged either one after another or through the prefetch pipeline. */
module DecodeLoop {
  import opened Arithmetic
  import opened Attention
  import opened PrefetchedAttention
  import PrefetchDriver

  /** How many blocks of so many bytes a chunk of the given kilobytes holds: as many as fit, and never
      none. */
  function BlocksPerChunk(chunkKb: nat, blockBytes: nat): (c: nat)
    requires blockBytes > 0
    ensures c >= 1 && chunkKb * 1024 < (c + 1) * blockBytes && (c == 1 || c * blockBytes <= chunkKb * 1024)
  {
    var c := chunkKb * 1024 / blockBytes;
    AtMostQuotient(c, chunkKb * 1024, blockBytes);
    AtMostQuotient(c + 1, chunkKb * 1024, blockBytes);
    if c < 1 then 1 else c
  }

  /** A chunk is one to `perChunk` whole blocks. */
  ghost predicate WholeBlocks(size: nat, blockTokens: nat, perChunk: nat) {
    exists c: nat :: 1 <= c <= perChunk && size == Rows(c, blockTokens)
  }

  function Rows(blocks: nat, blockTokens: nat): nat {
    blocks * blockTokens
  }

  lemma RowsAdd(a: nat, b: nat, blockTokens: nat)
    requires blockTokens >= 1
    ensures Rows(a, blockTokens) + Rows(b, blockTokens) == Rows(a + b, blockTokens)
    ensures b >= 1 ==> Rows(b, blockTokens) >= 1
  {
    assert b >= 1 ==> (b - 1) * blockTokens >= 0 && b * blockTokens == (b - 1) * blockTokens + blockTokens;
  }

  /** Each of the first n chunks holds the whole budget. */
  ghost predicate Full<T>(chunks: seq<seq<T>>, n: int, blockTokens: nat, perChunk: nat) {
    forall i :: 0 <= i < n && i < |chunks| ==> |chunks[i]| == Rows(perChunk, blockTokens)
  }

  /** Pack the spilled blocks in order: every row lands in exactly one chunk, and only the last chunk may
      hold fewer blocks than the budget allows. */
  method Pack<T>(rows: seq<T>, blocks: nat, blockTokens: nat, perChunk: nat) returns (chunks: seq<seq<T>>)
    requires blockTokens >= 1 && perChunk >= 1 && |rows| == Rows(blocks, blockTokens)
    ensures Concat(chunks) == rows
    ensures forall i :: 0 <= i < |chunks| ==> chunks[i] != [] && WholeBlocks(|chunks[i]|, blockTokens, perChunk)
    ensures Full(chunks, |chunks| - 1, blockTokens, perChunk)
  {
    chunks := [];
    var rem: nat, at: nat := blocks, 0;
    while rem > 0
      invariant rem <= blocks && at + Rows(rem, blockTokens) == |rows|
      invariant Concat(chunks) == rows[..at]
      invariant Full(chunks, if rem > 0 then |chunks| else |chunks| - 1, blockTokens, perChunk)
      invariant forall i :: 0 <= i < |chunks| ==> chunks[i] != [] && WholeBlocks(|chunks[i]|, blockTokens, perChunk)
    {
      var c := if perChunk < rem then perChunk else rem;
      RowsAdd(rem - c, c, blockTokens);
      var end := at + Rows(c, blockTokens);
      assert WholeBlocks(|rows[at..end]|, blockTokens, perChunk);
      ConcatSnoc(chunks, rows[at..end]);
      assert rows[..at] + rows[at..end] == rows[..end];
      chunks := chunks + [rows[at..end]];
      rem, at := rem - c, end;
    }
    assert rows[..at] == rows;
  }

  lemma {:induction false} PartsFit(h: Head, chunks: seq<seq<Token>>)
    requires h.Fits(Concat(chunks))
    ensures AllFit(h, chunks)
  {
    if chunks != [] {
      var p, last := chunks[..|chunks| - 1], chunks[|chunks| - 1];
      var whole := Concat(chunks);
      assert whole == Concat(p) + last;
      assert forall i :: 0 <= i < |Concat(p)| ==> whole[i] == Concat(p)[i];
      assert forall i :: 0 <= i < |last| ==> whole[|Concat(p)| + i] == last[i];
      PartsFit(h, p);
      assert forall i :: 0 <= i < |p| ==> chunks[i] == p[i];
    }
  }

  /** Whatever the block size, the chunk budget and the branch taken, the step is dense attention over
      the resident and the spilled rows. */
  method Step(h: Head, local: seq<Token>, spill: seq<Token>, blocks: nat, blockTokens: nat, chunkKb: nat,
              blockBytes: nat, prefetch: bool) returns (out: Vec)
    requires h.Valid() && h.Fits(local) && local != [] && h.Fits(spill)
    requires blockTokens >= 1 && blockBytes > 0 && |spill| == Rows(blocks, blockTokens)
    ensures h.Fits(local + spill) && out == Dense(h, local + spill)
  {
    var chunks := Pack(spill, blocks, blockTokens, BlocksPerChunk(chunkKb, blockBytes));
    PartsFit(h, chunks);
    StreamedIsDense(h, local, chunks);
    if chunks == [] {
      out := Finish(h, Merge(h, Fresh(h), local));
    } else if !prefetch {
      out := StepNoPrefetch(h, local, chunks);
    } else {
      var r := PrefetchDriver.StepPrefetch(FoldJob(h, local, chunks));
      FoldJobIsStreamed(h, local, chunks, |chunks|);
      assert chunks[..|chunks|] == chunks;
      out := Finish(h, r.s);
    }
  }
}
