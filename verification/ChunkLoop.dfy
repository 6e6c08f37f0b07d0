/** The packing loop of the prefetch driver as it stands, with no check on the chunk size: blocks that
    remain are cut off `chunk` at a time, and a tensor of negative size raises. */
module ChunkLoop {
  import opened Options

  /** Between turns of the loop, after it, or after an exception. */
  datatype Progress = Packing(rem: int, sizes: seq<int>) | Packed(sizes: seq<int>) | Raised

  function Min(a: int, b: int): int {
    if a < b then a else b
  }

  function Turn(p: Progress, chunk: int): Progress {
    match p
    case Packing(rem, sizes) =>
      if rem <= 0 then Packed(sizes)
      else
        var c := Min(chunk, rem);
        if c < 0 then Raised else Packing(rem - c, sizes + [c])
    case _ => p
  }

  function After(spill: int, chunk: int, turns: nat): Progress {
    if turns == 0 then Packing(spill, []) else Turn(After(spill, chunk, turns - 1), chunk)
  }

  function Sum(sizes: seq<int>): int {
    if sizes == [] then 0 else Sum(sizes[..|sizes| - 1]) + sizes[|sizes| - 1]
  }

  /** Full chunks, and a shorter last one only when nothing is left. */
  predicate FullChunks(sizes: seq<int>, chunk: int, rem: int) {
    && (forall i :: 0 <= i < |sizes| ==> 1 <= sizes[i] <= chunk)
    && (forall i :: 0 <= i < |sizes| - 1 ==> sizes[i] == chunk)
    && (sizes != [] && rem > 0 ==> sizes[|sizes| - 1] == chunk)
  }

  lemma SumLast(sizes: seq<int>, c: int)
    ensures Sum(sizes + [c]) == Sum(sizes) + c
  {
    assert (sizes + [c])[..|sizes|] == sizes;
  }

  /** With positive chunks: what has been packed and what remains add up to the spill, and every turn
      leaves less. */
  ghost predicate OnTheWay(p: Progress, spill: int, chunk: int, turns: nat) {
    match p
    case Packing(rem, sizes) =>
      && FullChunks(sizes, chunk, rem) && Sum(sizes) + rem == spill
      && (if spill <= 0 then sizes == [] else 0 <= rem <= spill) && (turns == 0 || rem <= spill - turns)
    case Packed(sizes) => FullChunks(sizes, chunk, 0) && Sum(sizes) == if spill > 0 then spill else 0
    case Raised => false
  }

  lemma CutKeepsFull(sizes: seq<int>, chunk: int, rem: int)
    requires chunk >= 1 && rem > 0 && FullChunks(sizes, chunk, rem)
    ensures var c := Min(chunk, rem); FullChunks(sizes + [c], chunk, rem - c)
  {
  }

  lemma TurnKeeps(p: Progress, spill: int, chunk: int, turns: nat)
    requires chunk >= 1 && OnTheWay(p, spill, chunk, turns)
    ensures OnTheWay(Turn(p, chunk), spill, chunk, turns + 1)
  {
    if p.Packing? && p.rem > 0 {
      CutKeepsFull(p.sizes, chunk, p.rem);
      SumLast(p.sizes, Min(chunk, p.rem));
    }
  }

  lemma {:induction false} PositiveChunkPacks(spill: int, chunk: int, turns: nat)
    requires chunk >= 1
    ensures OnTheWay(After(spill, chunk, turns), spill, chunk, turns)
  {
    if turns > 0 {
      PositiveChunkPacks(spill, chunk, turns - 1);
      TurnKeeps(After(spill, chunk, turns - 1), spill, chunk, turns - 1);
    }
  }

  /** With nothing to pack the loop ends at once; with an empty chunk nothing ever leaves; with a negative
      one the first turn raises. */
  lemma {:induction false} OtherwisePacksNothing(spill: int, chunk: int, turns: nat)
    requires spill <= 0 || chunk < 1
    ensures var p := After(spill, chunk, turns);
      if turns == 0 then p == Packing(spill, [])
      else if spill <= 0 then p == Packed([])
      else if chunk < 0 then p == Raised
      else p.Packing? && p.rem == spill
  {
    if turns > 0 {
      OtherwisePacksNothing(spill, chunk, turns - 1);
    }
  }

  ghost predicate Ends(spill: int, chunk: int) {
    exists turns: nat :: After(spill, chunk, turns).Packed?
  }

  ghost predicate Raises(spill: int, chunk: int) {
    exists turns: nat :: After(spill, chunk, turns) == Raised
  }

  ghost predicate RunsForEver(spill: int, chunk: int) {
    forall turns: nat :: After(spill, chunk, turns).Packing?
  }

  /** The loop ends with the spill packed exactly when there is none or chunks are not empty; it raises
      exactly when there is some and the size is negative; it runs for ever exactly in between. */
  lemma LoopEndsExactly(spill: int, chunk: int)
    ensures Ends(spill, chunk) <==> spill <= 0 || chunk >= 1
    ensures Raises(spill, chunk) <==> spill > 0 && chunk < 0
    ensures RunsForEver(spill, chunk) <==> spill > 0 && chunk == 0
  {
    if spill > 0 && chunk >= 1 {
      PositiveChunkPacks(spill, chunk, spill);
      PositiveChunkPacks(spill, chunk, spill + 1);
      forall turns: nat ensures After(spill, chunk, turns) != Raised {
        PositiveChunkPacks(spill, chunk, turns);
      }
      assert After(spill, chunk, spill + 1).Packed?;
      assert !After(spill, chunk, spill + 1).Packing?;
    } else {
      forall turns: nat ensures
        (spill <= 0 ==> After(spill, chunk, turns) != Raised) && (spill > 0 ==> !After(spill, chunk, turns).Packed?)
        && (spill > 0 && chunk == 0 ==> After(spill, chunk, turns).Packing?)
      {
        OtherwisePacksNothing(spill, chunk, turns);
      }
      OtherwisePacksNothing(spill, chunk, 1);
      assert spill <= 0 ==> After(spill, chunk, 1).Packed?;
      assert spill > 0 && chunk < 0 ==> After(spill, chunk, 1) == Raised;
      assert spill <= 0 || chunk < 0 ==> !After(spill, chunk, 1).Packing?;
    }
  }

  /** The loop itself, wherever it ends: the block counts of the chunks, or an exception. */
  method MakeChunks(spill: int, chunk: int) returns (sizes: Option<seq<int>>)
    requires !(spill > 0 && chunk == 0)
    ensures sizes.None? <==> Raises(spill, chunk)
    ensures sizes.Some? ==>
      FullChunks(sizes.value, if chunk < 1 then 1 else chunk, 0) && Sum(sizes.value) == if spill > 0 then spill else 0
  {
    LoopEndsExactly(spill, chunk);
    var rem, ck := spill, [];
    ghost var turns := 0;
    while rem > 0
      invariant After(spill, chunk, turns) == Packing(rem, ck)
      decreases rem
    {
      var c := Min(chunk, rem);
      if c < 0 {
        assert After(spill, chunk, turns + 1) == Raised;
        return None;
      }
      ck, rem, turns := ck + [c], rem - c, turns + 1;
    }
    if spill > 0 {
      if chunk < 0 {
        OtherwisePacksNothing(spill, chunk, turns);
        assert false;
      }
      PositiveChunkPacks(spill, chunk, turns);
    } else {
      OtherwisePacksNothing(spill, chunk, turns);
    }
    assert After(spill, chunk, turns + 1) == Packed(ck);
    if spill > 0 {
      PositiveChunkPacks(spill, chunk, turns + 1);
    }
    sizes := Some(ck);
  }
}
