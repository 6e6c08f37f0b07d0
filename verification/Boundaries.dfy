/** Compressing a labelled grid row into the list of points where the label changes. */
module Boundaries {
  import opened Options

  datatype Change<L> = Change(at: int, becomes: L)

  /** The label a change-point list gives to x: that of its last entry at or below x. */
  function Look<L>(changes: seq<Change<L>>, x: int): Option<L> {
    if changes == [] then None
    else
      var last := changes[|changes| - 1];
      if last.at <= x then Some(last.becomes) else Look(changes[..|changes| - 1], x)
  }

  ghost predicate Increasing(grid: seq<int>) {
    forall i, j :: 0 <= i < j < |grid| ==> grid[i] < grid[j]
  }

  /** The list describes the row: it gives every grid point its label. */
  ghost predicate Describes<L>(changes: seq<Change<L>>, grid: seq<int>, labelOf: int -> L) {
    forall k :: 0 <= k < |grid| ==> Look(changes, grid[k]) == Some(labelOf(grid[k]))
  }

  /** What the scan has written after the first k grid points. */
  function Scanned<L(==)>(grid: seq<int>, labelOf: int -> L, k: nat): seq<Change<L>>
    requires k <= |grid|
  {
    if k == 0 then []
    else if k == 1 || labelOf(grid[k - 1]) != labelOf(grid[k - 2]) then
      Scanned(grid, labelOf, k - 1) + [Change(grid[k - 1], labelOf(grid[k - 1]))]
    else Scanned(grid, labelOf, k - 1)
  }

  /** The list expands back to exactly the row. Its entries are grid points, in order, each with its own
      label, and the last one carries the label of the last point scanned. */
  lemma {:induction false} ScannedDescribes<L>(grid: seq<int>, labelOf: int -> L, k: nat)
    requires Increasing(grid) && k <= |grid|
    ensures var out := Scanned(grid, labelOf, k);
      && Describes(out, grid[..k], labelOf)
      && (forall i :: 0 <= i < |out| ==> out[i].at in grid[..k] && out[i].becomes == labelOf(out[i].at))
      && (k > 0 ==> out != [] && out[|out| - 1].becomes == labelOf(grid[k - 1]))
  {
    if k > 0 {
      ScannedDescribes(grid, labelOf, k - 1);
      var p, out := Scanned(grid, labelOf, k - 1), Scanned(grid, labelOf, k);
      if out != p {
        assert out[..|out| - 1] == p;
      }
      forall i | 0 <= i < k ensures Look(out, grid[..k][i]) == Some(labelOf(grid[..k][i])) {
        if i < k - 1 {
          assert Look(p, grid[..k - 1][i]) == Some(labelOf(grid[i]));
        } else if out == p {
          assert p[|p| - 1].at in grid[..k - 1];
        }
      }
    }
  }

  lemma {:induction false} NeighboursDiffer<L>(grid: seq<int>, labelOf: int -> L, k: nat)
    requires k <= |grid|
    ensures var out := Scanned(grid, labelOf, k);
      && (k > 0 ==> out != [] && out[|out| - 1].becomes == labelOf(grid[k - 1]))
      && forall i :: 0 < i < |out| ==> out[i - 1].becomes != out[i].becomes
  {
    if k > 0 {
      NeighboursDiffer(grid, labelOf, k - 1);
    }
  }

  /** Entries at or below x. */
  function Reached<L>(changes: seq<Change<L>>, x: int): nat {
    if changes == [] then 0
    else Reached(changes[..|changes| - 1], x) + if changes[|changes| - 1].at <= x then 1 else 0
  }

  lemma {:induction false} NoEntryNoChange<L>(changes: seq<Change<L>>, x: int, y: int)
    requires x <= y
    ensures Reached(changes, x) <= Reached(changes, y) <= |changes|
    ensures Reached(changes, x) == Reached(changes, y) ==> Look(changes, x) == Look(changes, y)
  {
    if changes != [] {
      NoEntryNoChange(changes[..|changes| - 1], x, y);
    }
  }

  lemma {:induction false} EveryChangeCosts<L>(changes: seq<Change<L>>, grid: seq<int>, labelOf: int -> L, k: nat)
    requires Increasing(grid) && Describes(changes, grid, labelOf) && 0 < k <= |grid|
    ensures |Scanned(grid, labelOf, k)| <= Reached(changes, grid[k - 1])
  {
    assert Look(changes, grid[k - 1]) == Some(labelOf(grid[k - 1]));
    if k == 1 {
      NothingReached(changes, grid[0]);
    } else {
      EveryChangeCosts(changes, grid, labelOf, k - 1);
      NoEntryNoChange(changes, grid[k - 2], grid[k - 1]);
      assert Look(changes, grid[k - 2]) == Some(labelOf(grid[k - 2]));
    }
  }

  lemma {:induction false} NothingReached<L>(changes: seq<Change<L>>, x: int)
    ensures Reached(changes, x) == 0 ==> Look(changes, x) == None
  {
    if changes != [] {
      NothingReached(changes[..|changes| - 1], x);
    }
  }

  /** No list of change points, in whatever order and at whatever points, describes the row in fewer
      entries. */
  lemma NoShorterList<L>(changes: seq<Change<L>>, grid: seq<int>, labelOf: int -> L)
    requires Increasing(grid) && Describes(changes, grid, labelOf)
    ensures |Scanned(grid, labelOf, |grid|)| <= |changes|
  {
    if grid != [] {
      EveryChangeCosts(changes, grid, labelOf, |grid|);
      NoEntryNoChange(changes, grid[|grid| - 1], grid[|grid| - 1]);
    }
  }

  /** The scan: append when the label differs from the previous one. */
  method FindBoundaries<L(==)>(grid: seq<int>, labelOf: int -> L) returns (out: seq<Change<L>>)
    requires Increasing(grid)
    ensures Describes(out, grid, labelOf)
    ensures forall i :: 0 < i < |out| ==> out[i - 1].becomes != out[i].becomes
    ensures out == Scanned(grid, labelOf, |grid|)
  {
    out := [];
    var prev: Option<L> := None;
    for k := 0 to |grid|
      invariant out == Scanned(grid, labelOf, k)
      invariant prev == if k == 0 then None else Some(labelOf(grid[k - 1]))
    {
      var becomes := labelOf(grid[k]);
      if prev != Some(becomes) {
        out := out + [Change(grid[k], becomes)];
        prev := Some(becomes);
      }
    }
    ScannedDescribes(grid, labelOf, |grid|);
    NeighboursDiffer(grid, labelOf, |grid|);
    assert grid[..|grid|] == grid;
  }
}
