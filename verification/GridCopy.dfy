/** A grid-stride copy: every thread of the grid copies the 16-byte words its own index selects, moving
    on by the size of the grid. Threads run in any order, and a load and its store are separate steps. */
module GridCopy {
  import opened Options

  function WordAt<B>(s: seq<B>, k: nat): (w: seq<B>)
    requires 16 * k + 16 <= |s|
    ensures |w| == 16
  {
    s[16 * k..16 * k + 16]
  }

  // ---------------------------------------------------------------- the grid

  /** The thread of a grid of `count` threads that comes past index k. */
  function Owner(k: nat, count: nat): (t: nat)
    requires count > 0
    ensures t < count && t <= k
  {
    if k < count then k else Owner(k - count, count)
  }

  lemma {:induction false} SameOwner(i: nat, k: nat, count: nat)
    requires count > 0 && i < k && Owner(i, count) == Owner(k, count)
    ensures i + count <= k
  {
    if count <= i {
      SameOwner(i - count, k - count, count);
    }
  }

  /** The thread that comes past index k has gone past it; `at` holds each thread's loop variable. */
  predicate Passed(at: seq<nat>, k: nat)
    requires |at| > 0
  {
    k < at[Owner(k, |at|)]
  }

  predicate OnTrack(at: seq<nat>, t: nat)
    requires t < |at|
  {
    Owner(at[t], |at|) == t
  }

  /** Each thread only ever holds indices it owns, and word k has been stored exactly when its thread
      has gone past it. */
  ghost predicate Strided(at: seq<nat>, done: seq<bool>) {
    && |at| > 0
    && (forall t :: 0 <= t < |at| ==> OnTrack(at, t))
    && (forall k :: 0 <= k < |done| ==> (done[k] <==> Passed(at, k)))
  }

  function Launch(count: nat): (at: seq<nat>)
    ensures |at| == count && forall t :: 0 <= t < count ==> at[t] == t
  {
    if count == 0 then [] else Launch(count - 1) + [count - 1]
  }

  lemma LaunchStrided(count: nat, done: seq<bool>)
    requires count > 0 && forall k :: 0 <= k < |done| ==> !done[k]
    ensures Strided(Launch(count), done)
  {
  }

  /** Storing its word takes a thread past exactly that word. */
  lemma StoreStrided(at: seq<nat>, done: seq<bool>, t: nat)
    requires Strided(at, done) && t < |at| && at[t] < |done|
    ensures !done[at[t]]
    ensures Strided(at[t := at[t] + |at|], done[at[t] := true])
  {
    var i, n := at[t], |at|;
    var after := at[t := i + n];
    assert OnTrack(at, t);
    forall k | 0 <= k < |done| ensures Passed(after, k) <==> Passed(at, k) || k == i {
      if Owner(k, n) == t && i < k {
        SameOwner(i, k, n);
      }
    }
    forall u | 0 <= u < n ensures OnTrack(after, u) {
      assert OnTrack(at, u);
    }
  }

  // ---------------------------------------------------------------- one step

  function Put<B>(s: seq<B>, k: nat, w: seq<B>): (r: seq<B>)
    requires 16 * k + 16 <= |s| && |w| == 16
    ensures |r| == |s|
  {
    s[..16 * k] + w + s[16 * k + 16..]
  }

  lemma PutWord<B>(s: seq<B>, k: nat, w: seq<B>, j: nat)
    requires 16 * k + 16 <= |s| && 16 * j + 16 <= |s| && |w| == 16
    ensures WordAt(Put(s, k, w), j) == if j == k then w else WordAt(s, j)
  {
    var r := Put(s, k, w);
    assert forall b :: 0 <= b < 16 ==> WordAt(r, j)[b] == r[16 * j + b] && WordAt(s, j)[b] == s[16 * j + b];
  }

  lemma PutKeepsTail<B>(s: seq<B>, k: nat, w: seq<B>, from: nat)
    requires 16 * k + 16 <= from <= |s| && |w| == 16
    ensures Put(s, k, w)[from..] == s[from..]
  {
  }

  /** What the stores so far leave in dst. */
  ghost predicate Written<B>(dst: seq<B>, src: seq<B>, was: seq<B>, done: seq<bool>) {
    && |dst| == |was| && 16 * |done| <= |src| && 16 * |done| <= |dst|
    && (forall k {:trigger WordAt(dst, k)} :: 0 <= k < |done| ==>
          WordAt(dst, k) == if done[k] then WordAt(src, k) else WordAt(was, k))
    && dst[16 * |done|..] == was[16 * |done|..]
  }

  lemma StoreWrites<B>(dst: seq<B>, src: seq<B>, was: seq<B>, done: seq<bool>, k: nat)
    requires Written(dst, src, was, done) && k < |done|
    ensures Written(Put(dst, k, WordAt(src, k)), src, was, done[k := true])
  {
    PutKeepsTail(dst, k, WordAt(src, k), 16 * |done|);
    forall j | 0 <= j < |done|
      ensures WordAt(Put(dst, k, WordAt(src, k)), j)
           == if done[k := true][j] then WordAt(src, j) else WordAt(was, j)
    {
      PutWord(dst, k, WordAt(src, k), j);
    }
  }

  /** Every index is among the stores once if its word is done, and otherwise not at all. */
  ghost predicate Once(stores: seq<nat>, done: seq<bool>) {
    forall k: nat :: multiset(stores)[k] == if k < |done| && done[k] then 1 else 0
  }

  lemma StoreOnce(stores: seq<nat>, done: seq<bool>, k: nat)
    requires Once(stores, done) && k < |done| && !done[k]
    ensures Once(stores + [k], done[k := true])
  {
    assert multiset(stores + [k]) == multiset(stores) + multiset{k};
  }

  /** A loaded word is the source's word at the thread's index. */
  ghost predicate Loaded<B>(at: seq<nat>, registers: seq<Option<seq<B>>>, src: seq<B>, n4: nat) {
    && |at| == |registers| && 16 * n4 <= |src|
    && forall t :: 0 <= t < |registers| && registers[t].Some? ==>
         at[t] < n4 && registers[t].value == WordAt(src, at[t])
  }

  lemma StoreLoaded<B>(at: seq<nat>, registers: seq<Option<seq<B>>>, src: seq<B>, n4: nat, t: nat, i: nat)
    requires Loaded(at, registers, src, n4) && t < |at|
    ensures Loaded(at[t := i], registers[t := None], src, n4)
  {
  }

  /** Each thread's loop variable and the word it has loaded but not yet stored. */
  datatype Threads<B> = Threads(at: seq<nat>, registers: seq<Option<seq<B>>>) {
    /** Thread t has loaded w. */
    function Hold(t: nat, w: seq<B>): Threads<B>
      requires t < |registers|
    {
      this.(registers := registers[t := Some(w)])
    }

    /** Thread t has stored, and its loop variable moves on by the size of the grid. */
    function Advance(t: nat): Threads<B>
      requires t < |at| == |registers|
    {
      Threads(at[t := at[t] + |at|], registers[t := None])
    }
  }

  /** A moment of the kernel: the threads, the destination, and (history) which words are done and the
      stores in the order they happened. */
  datatype Grid<B> = Grid(threads: Threads<B>, dst: seq<B>, done: seq<bool>, stores: seq<nat>)

  ghost predicate Sound<B>(g: Grid<B>, src: seq<B>, was: seq<B>) {
    && Strided(g.threads.at, g.done) && Written(g.dst, src, was, g.done) && Once(g.stores, g.done)
    && Loaded(g.threads.at, g.threads.registers, src, |g.done|)
  }

  function Load<B>(g: Grid<B>, t: nat, w: seq<B>): Grid<B>
    requires t < |g.threads.registers|
  {
    g.(threads := g.threads.Hold(t, w))
  }

  function Store<B>(g: Grid<B>, t: nat, w: seq<B>): Grid<B>
    requires t < |g.threads.at| == |g.threads.registers| && g.threads.at[t] < |g.done|
    requires 16 * g.threads.at[t] + 16 <= |g.dst| && |w| == 16
  {
    var i := g.threads.at[t];
    Grid(g.threads.Advance(t), Put(g.dst, i, w), g.done[i := true], g.stores + [i])
  }

  lemma LoadSound<B>(g: Grid<B>, src: seq<B>, was: seq<B>, t: nat)
    requires Sound(g, src, was) && t < |g.threads.at| && g.threads.at[t] < |g.done|
    ensures Sound(Load(g, t, WordAt(src, g.threads.at[t])), src, was)
  {
  }

  lemma StoreSound<B>(g: Grid<B>, src: seq<B>, was: seq<B>, t: nat, w: seq<B>)
    requires Sound(g, src, was) && t < |g.threads.at| && g.threads.registers[t] == Some(w) && |w| == 16
    ensures var i := g.threads.at[t];
      i < |g.done| && !g.done[i] && Sound(Store(g, t, w), src, was)
  {
    var at := g.threads.at;
    StoreStrided(at, g.done, t);
    StoreLoaded(at, g.threads.registers, src, |g.done|, t, at[t] + |at|);
    StoreWrites(g.dst, src, was, g.done, at[t]);
    StoreOnce(g.stores, g.done, at[t]);
  }

  // ---------------------------------------------------------------- the kernel

  /** How many marks are not set. */
  function Unset(marks: seq<bool>): nat {
    if marks == [] then 0 else Unset(marks[..|marks| - 1]) + if marks[|marks| - 1] then 0 else 1
  }

  lemma {:induction false} SetOne(marks: seq<bool>, k: nat)
    requires k < |marks| && !marks[k]
    ensures Unset(marks[k := true]) < Unset(marks)
  {
    var n := |marks| - 1;
    if k < n {
      assert marks[k := true][..n] == marks[..n][k := true];
      SetOne(marks[..n], k);
    } else {
      assert marks[k := true][..n] == marks[..n];
    }
  }

  function Empty<B>(registers: seq<Option<seq<B>>>): nat {
    if registers == [] then 0
    else Empty(registers[..|registers| - 1]) + if registers[|registers| - 1].None? then 1 else 0
  }

  lemma {:induction false} FillOne<B>(registers: seq<Option<seq<B>>>, t: nat, w: seq<B>)
    requires t < |registers| && registers[t].None?
    ensures Empty(registers[t := Some(w)]) < Empty(registers)
  {
    var n := |registers| - 1;
    if t < n {
      assert registers[t := Some(w)][..n] == registers[..n][t := Some(w)];
      FillOne(registers[..n], t, w);
    } else {
      assert registers[t := Some(w)][..n] == registers[..n];
    }
  }

  lemma LaunchSound<B>(count: nat, n4: nat, src: seq<B>, was: seq<B>)
    requires count > 0 && 16 * n4 <= |src| && 16 * n4 <= |was|
    ensures Sound(Grid(Threads(Launch(count), seq(count, _ => None)), was, seq(n4, _ => false), []), src, was)
  {
    LaunchStrided(count, seq(n4, _ => false));
  }

  lemma FinishedIsCopied<B>(g: Grid<B>, src: seq<B>, was: seq<B>)
    requires Sound(g, src, was) && forall t :: 0 <= t < |g.threads.at| ==> g.threads.at[t] >= |g.done|
    ensures g.dst == src[..16 * |g.done|] + was[16 * |g.done|..]
    ensures forall k: nat :: multiset(g.stores)[k] == if k < |g.done| then 1 else 0
  {
    forall k | 0 <= k < |g.done| ensures g.done[k] {
      assert Passed(g.threads.at, k);
    }
    forall k | 0 <= k < |g.done| ensures WordAt(g.dst, k) == WordAt(src, k) {
    }
    WordsMakePrefix(g.dst, src, |g.done|);
  }

  lemma {:induction false} WordsMakePrefix<B>(a: seq<B>, b: seq<B>, n: nat)
    requires 16 * n <= |a| && 16 * n <= |b| && forall k :: 0 <= k < n ==> WordAt(a, k) == WordAt(b, k)
    ensures a[..16 * n] == b[..16 * n]
  {
    if n > 0 {
      WordsMakePrefix(a, b, n - 1);
      assert a[..16 * n] == a[..16 * (n - 1)] + WordAt(a, n - 1);
      assert b[..16 * n] == b[..16 * (n - 1)] + WordAt(b, n - 1);
    }
  }

  /** One thread's store, `dst[i] = value`. */
  method StoreWord<B>(dst: array<B>, i: nat, w: seq<B>, ghost was: seq<B>)
    requires 16 * i + 16 <= dst.Length && |w| == 16 && dst[..] == was
    modifies dst
    ensures dst[..] == Put(was, i, w)
  {
    var base := 16 * i;
    forall b | 0 <= b < 16 {
      dst[base + b] := w[b];
    }
  }

  /** Every index below n4 is stored exactly once and nothing else is, whatever order the threads run
      in. `stores` lists the stores in the order they happened. */
  method CopyKernel<B>(src: array<B>, dst: array<B>, n4: nat, count: nat) returns (ghost stores: seq<nat>)
    requires src != dst && count > 0
    requires 16 * n4 <= src.Length && 16 * n4 <= dst.Length
    modifies dst
    ensures dst[..] == src[..16 * n4] + old(dst[16 * n4..])
    ensures forall k: nat :: multiset(stores)[k] == if k < n4 then 1 else 0
  {
    ghost var from, was := src[..], dst[..];
    var threads: Threads<B> := Threads(Launch(count), seq(count, _ => None));
    ghost var g := Grid(threads, was, seq(n4, _ => false), []);
    LaunchSound(count, n4, from, was);
    while exists t :: 0 <= t < |threads.at| && threads.at[t] < n4
      invariant src[..] == from && |g.done| == n4
      invariant g.threads == threads && g.dst == dst[..] && Sound(g, from, was)
      decreases Unset(g.done), Empty(threads.registers)
    {
      var t: nat :| 0 <= t < |threads.at| && threads.at[t] < n4;
      var i := threads.at[t];
      match threads.registers[t] {
        case None =>
          var w := src[16 * i..16 * i + 16];
          assert w == WordAt(from, i);
          FillOne(threads.registers, t, w);
          LoadSound(g, from, was, t);
          threads, g := threads.Hold(t, w), Load(g, t, w);
        case Some(w) =>
          assert w == WordAt(from, i);
          StoreSound(g, from, was, t, w);
          SetOne(g.done, i);
          StoreWord(dst, i, w, g.dst);
          threads, g := threads.Advance(t), Store(g, t, w);
      }
    }
    FinishedIsCopied(g, from, was);
    stores := g.stores;
  }

  // ---------------------------------------------------------------- the launcher

  /** What the copy leaves in dst: whole words of src, and dst's own tail. */
  function Copied<B>(src: seq<B>, dst: seq<B>): seq<B>
    requires |src| <= |dst|
  {
    src[..16 * (|src| / 16)] + dst[16 * (|src| / 16)..]
  }

  method SmCopy<B>(dst: array<B>, src: array<B>, blocks: nat)
    requires src != dst && blocks > 0 && src.Length <= dst.Length
    modifies dst
    ensures dst[..] == Copied(src[..], old(dst[..]))
  {
    var n4 := src.Length / 16;
    ghost var stores := CopyKernel(src, dst, n4, blocks * 256);
  }

  /** The tensor arrives whole, whatever was in dst before, exactly when its size is a multiple of the
      word; otherwise the last 1 to 15 bytes stay as they were. */
  lemma WholeTensorExactly(src: seq<bv8>)
    ensures (forall dst: seq<bv8> :: |dst| == |src| ==> Copied(src, dst) == src) <==> |src| % 16 == 0
  {
    var n := 16 * (|src| / 16);
    if |src| % 16 == 0 {
      assert n == |src| && src[..n] == src;
    } else {
      var last := |src| - 1;
      var other: bv8 := if src[last] == 0 then 1 else 0;
      var dst := src[last := other];
      assert n <= last;
      assert Copied(src, dst)[last] == dst[last] != src[last];
    }
  }
}
