/** Block-streaming attention that coalesces consecutive blocks of one device into one transfer. */
module FlashMerge {
  import opened Attention

  lemma {:induction false} ConcatSplit<T>(a: seq<seq<T>>, b: seq<seq<T>>)
    ensures Concat(a + b) == Concat(a) + Concat(b)
  {
    if b == [] {
      assert a + b == a;
    } else {
      var n := |b| - 1;
      ConcatSplit(a, b[..n]);
      assert (a + b)[..|a + b| - 1] == a + b[..n];
    }
  }

  /** Blocks i..j all live where block i lives. */
  predicate SameDevice(devices: seq<int>, i: nat, j: nat)
    requires i < j <= |devices|
  {
    forall k | i <= k < j :: devices[k] == devices[i]
  }

  /** A run of at most `cap` consecutive blocks of one device that could not be longer: the blocks end,
      the device changes, or the cap is reached. */
  predicate LongestRun(devices: seq<int>, t: (nat, nat), cap: nat) {
    && t.0 < t.1 <= |devices| && t.1 - t.0 <= cap && SameDevice(devices, t.0, t.1)
    && (t.1 < |devices| ==> t.1 - t.0 == cap || devices[t.1] != devices[t.0])
  }

  /** The transfers cover the first n blocks, in order, each beginning where the one before it ended. */
  predicate Tiles(transfers: seq<(nat, nat)>, n: nat) {
    && (transfers == [] <==> n == 0)
    && (transfers != [] ==> transfers[0].0 == 0 && transfers[|transfers| - 1].1 == n)
    && (forall k | 0 < k < |transfers| :: transfers[k].0 == transfers[k - 1].1)
  }

  /** Every block is moved once, in order, in the longest transfers the cap and the devices allow. */
  predicate Coalesced(devices: seq<int>, transfers: seq<(nat, nat)>, cap: nat, n: nat) {
    Tiles(transfers, n) && forall k | 0 <= k < |transfers| :: LongestRun(devices, transfers[k], cap)
  }

  lemma AddTransfer(devices: seq<int>, transfers: seq<(nat, nat)>, cap: nat, i: nat, j: nat)
    requires Coalesced(devices, transfers, cap, i) && LongestRun(devices, (i, j), cap)
    ensures Coalesced(devices, transfers + [(i, j)], cap, j)
  {
  }

  lemma AbsorbRun(h: Head, st: State, blocks: seq<seq<Token>>, i: nat, j: nat)
    requires h.Valid() && Chunked(h, blocks) && i < j <= |blocks|
    requires h.Fits(Concat(blocks[..i])) && Summarises(h, st, Concat(blocks[..i]))
    ensures |st.o| == h.dim && h.Fits(Concat(blocks[i..j])) && Concat(blocks[i..j]) != []
    ensures h.Fits(Concat(blocks[..j])) && Concat(blocks[..j]) != []
    ensures Summarises(h, Merge(h, st, Concat(blocks[i..j])), Concat(blocks[..j]))
  {
    RunFits(h, blocks[i..j]);
    MergeSummarises(h, st, Concat(blocks[..i]), Concat(blocks[i..j]));
    ConcatSplit(blocks[..i], blocks[i..j]);
    assert blocks[..i] + blocks[i..j] == blocks[..j];
  }

  /** The result is dense attention over all blocks, whatever `chunkBlocks` asks for and wherever the
      blocks live; the transfers move every block once, in order, in the longest runs that stay on one
      device and within the requested size. */
  method FlashMergeAttention(h: Head, blocks: seq<seq<Token>>, devices: seq<int>, chunkBlocks: int)
    returns (out: Vec, transfers: seq<(nat, nat)>)
    requires h.Valid() && |devices| == |blocks| > 0 && Chunked(h, blocks)
    ensures h.Fits(Concat(blocks)) && Concat(blocks) != []
    ensures out == Dense(h, Concat(blocks))
    ensures Coalesced(devices, transfers, Cap(chunkBlocks), |blocks|)
  {
    var c := Cap(chunkBlocks);
    var st := Fresh(h);
    var i := 0;
    transfers := [];
    while i < |blocks|
      invariant 0 <= i <= |blocks|
      invariant h.Fits(Concat(blocks[..i])) && Summarises(h, st, Concat(blocks[..i]))
      invariant i > 0 ==> Concat(blocks[..i]) != []
      invariant Coalesced(devices, transfers, c, i)
    {
      var j := i;
      while j < |blocks| && j - i < c && devices[j] == devices[i]
        invariant i <= j <= |blocks| && j - i <= c
        invariant i < j ==> SameDevice(devices, i, j)
      {
        j := j + 1;
      }
      AbsorbRun(h, st, blocks, i, j);
      st := Merge(h, st, Concat(blocks[i..j]));
      AddTransfer(devices, transfers, c, i, j);
      transfers := transfers + [(i, j)];
      i := j;
    }
    RunFits(h, blocks);
    assert blocks[..|blocks|] == blocks;
    FinishIsDense(h, st, Concat(blocks));
    out := Finish(h, st);
  }

  /** The requested size, and at least one. */
  function Cap(chunkBlocks: int): (c: nat)
    ensures c >= 1 && c >= chunkBlocks && (c == 1 || c == chunkBlocks)
  {
    if chunkBlocks < 1 then 1 else chunkBlocks
  }

  lemma RunFits(h: Head, run: seq<seq<Token>>)
    requires Chunked(h, run) && run != []
    ensures h.Fits(Concat(run)) && Concat(run) != []
  {
    ConcatFits(h, run);
    assert run[|run| - 1] != [];
  }
}
