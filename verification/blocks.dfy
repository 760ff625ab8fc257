// A boundary-tagged heap as its physical sequence of blocks: what allocation and coalescing do to it, and the header
// words that represent it.
module Blocks {
  /** `size` includes the header. */
  datatype Block = Block(at: nat, size: nat, free: bool)

  /** Header size and alignment of a heap, and the least size a cut-off rest must have to become a block. */
  datatype Shape = Shape(header: nat, unit: nat, least: nat)

  function Times(q: nat, m: nat): nat { q * m }

  ghost predicate Aligned(n: nat, m: nat) { exists q: nat :: n == Times(q, m) }

  ghost predicate ShapeOk(k: Shape) { k.unit % 2 == 0 && k.unit > 0 && 0 < k.header <= k.least && Aligned(k.header, k.unit) }

  const NULL: int := -1

  lemma AlignedSum(a: nat, b: nat, m: nat)
    requires Aligned(a, m) && Aligned(b, m)
    ensures Aligned(a + b, m) && (a >= b ==> Aligned(a - b, m))
  {
    var p: nat :| a == Times(p, m);
    var q: nat :| b == Times(q, m);
    assert a + b == Times(p + q, m) by { assert (p + q) * m == p * m + q * m; }
    if a > b {
      assert p > q by { if p <= q { MulMonotone(p, q, m); } }
      assert a - b == Times(p - q, m) by { assert (p - q) * m == p * m - q * m; }
    } else if a == b {
      assert 0 == Times(0, m);
    }
  }

  lemma MulMonotone(p: nat, q: nat, m: nat)
    requires p <= q
    ensures p * m <= q * m
  {
    assert q * m == p * m + (q - p) * m;
  }

  /** Multiples of an even unit leave bit 0 free for the flag. */
  lemma AlignedEven(n: nat, m: nat)
    requires Aligned(n, m) && m % 2 == 0
    ensures n % 2 == 0
  {
    var q: nat :| n == Times(q, m);
    var u := m / 2;
    assert q * m == 2 * (q * u);
  }

  // ----- tiling -----

  function Total(bs: seq<Block>): nat
  {
    if bs == [] then 0 else bs[0].size + Total(bs[1..])
  }

  /** The blocks follow one another without gap from `from`; every one has room for a header and keeps the alignment. */
  ghost predicate Tiles(k: Shape, bs: seq<Block>, from: nat)
  {
    bs == [] || (bs[0].at == from && bs[0].size >= k.header && Aligned(bs[0].size, k.unit) && Tiles(k, bs[1..], from + bs[0].size))
  }

  predicate NoTwoFree(bs: seq<Block>)
  {
    forall i :: 0 <= i < |bs| - 1 ==> !(bs[i].free && bs[i + 1].free)
  }

  function UsedSum(bs: seq<Block>): nat
  {
    if bs == [] then 0 else (if bs[0].free then 0 else bs[0].size) + UsedSum(bs[1..])
  }

  /** Addresses of the free blocks in physical order. */
  function FreeAts(bs: seq<Block>): seq<nat>
  {
    if bs == [] then [] else (if bs[0].free then [bs[0].at] else []) + FreeAts(bs[1..])
  }

  lemma {:induction false} TotalSplit(a: seq<Block>, b: seq<Block>)
    ensures Total(a + b) == Total(a) + Total(b)
    decreases |a|
  {
    if a == [] {
      assert a + b == b;
    } else {
      assert (a + b)[1..] == a[1..] + b;
      TotalSplit(a[1..], b);
    }
  }

  lemma {:induction false} TilesSplit(k: Shape, a: seq<Block>, b: seq<Block>, from: nat)
    ensures Tiles(k, a + b, from) <==> Tiles(k, a, from) && Tiles(k, b, from + Total(a))
    decreases |a|
  {
    if a == [] {
      assert a + b == b;
    } else {
      assert (a + b)[1..] == a[1..] + b;
      TilesSplit(k, a[1..], b, from + a[0].size);
    }
  }

  lemma {:induction false} UsedSplit(a: seq<Block>, b: seq<Block>)
    ensures UsedSum(a + b) == UsedSum(a) + UsedSum(b)
    decreases |a|
  {
    if a == [] {
      assert a + b == b;
    } else {
      assert (a + b)[1..] == a[1..] + b;
      UsedSplit(a[1..], b);
    }
  }

  lemma {:induction false} FreeSplit(a: seq<Block>, b: seq<Block>)
    ensures FreeAts(a + b) == FreeAts(a) + FreeAts(b)
    decreases |a|
  {
    if a == [] {
      assert a + b == b;
    } else {
      assert (a + b)[1..] == a[1..] + b && (a + b)[0] == a[0];
      FreeSplit(a[1..], b);
      var first: seq<nat> := if a[0].free then [a[0].at] else [];
      assert first + (FreeAts(a[1..]) + FreeAts(b)) == (first + FreeAts(a[1..])) + FreeAts(b);
    }
  }

  lemma SplitHeap(k: Shape, a: seq<Block>, b: seq<Block>, from: nat)
    ensures Total(a + b) == Total(a) + Total(b)
    ensures Tiles(k, a + b, from) <==> Tiles(k, a, from) && Tiles(k, b, from + Total(a))
    ensures UsedSum(a + b) == UsedSum(a) + UsedSum(b)
    ensures FreeAts(a + b) == FreeAts(a) + FreeAts(b)
  {
    hide Total, Tiles, UsedSum, FreeAts;
    TotalSplit(a, b);
    TilesSplit(k, a, b, from);
    UsedSplit(a, b);
    FreeSplit(a, b);
  }

  /** Where block `i` stands. */
  lemma BlockStands(k: Shape, bs: seq<Block>, from: nat, i: nat)
    requires Tiles(k, bs, from) && i < |bs|
    ensures bs[i].at == from + Total(bs[..i]) && bs[i].size >= k.header && Aligned(bs[i].size, k.unit)
    ensures Tiles(k, bs[..i], from) && Tiles(k, bs[i + 1..], bs[i].at + bs[i].size)
    ensures bs[i].at + bs[i].size + Total(bs[i + 1..]) == from + Total(bs)
    ensures i + 1 < |bs| ==> bs[i + 1].at == bs[i].at + bs[i].size
  {
    SplitHeap(k, bs[..i], bs[i..], from);
    assert bs == bs[..i] + bs[i..] && bs[i..][1..] == bs[i + 1..];
  }

  /** Blocks lie at increasing addresses, so distinct blocks do not overlap. */
  lemma Apart(k: Shape, bs: seq<Block>, from: nat, i: nat, j: nat)
    requires Tiles(k, bs, from) && i < j < |bs|
    ensures bs[i].at + bs[i].size <= bs[j].at
  {
    BlockStands(k, bs, from, i);
    BlockStands(k, bs[i + 1..], bs[i].at + bs[i].size, j - i - 1);
  }

  /** Two blocks at one address are one block. */
  lemma SameBlock(k: Shape, bs: seq<Block>, i: nat, j: nat)
    requires k.header > 0 && Tiles(k, bs, 0) && i < |bs| && j < |bs| && bs[i].at == bs[j].at
    ensures i == j
  {
    BlockStands(k, bs, 0, i);
    BlockStands(k, bs, 0, j);
    if i < j { Apart(k, bs, 0, i, j); }
    if j < i { Apart(k, bs, 0, j, i); }
  }

  lemma {:induction false} FreeIndex(bs: seq<Block>, at: nat) returns (i: nat)
    requires at in FreeAts(bs)
    ensures i < |bs| && bs[i].at == at && bs[i].free
    decreases |bs|
  {
    if bs[0].free && bs[0].at == at { return 0; }
    i := FreeIndex(bs[1..], at);
    i := i + 1;
  }

  lemma {:induction false} FreeListed(bs: seq<Block>, i: nat)
    requires i < |bs| && bs[i].free
    ensures bs[i].at in FreeAts(bs)
    decreases i
  {
    if i > 0 { FreeListed(bs[1..], i - 1); }
  }

  lemma LastOfRun(bs: seq<Block>, i: nat, n: nat)
    requires n > 0 && i + n <= |bs|
    ensures bs[..i + n - 1] + [bs[i + n - 1]] == bs[..i] + bs[i..i + n] == bs[..i + n]
  {
  }

  /** Bytes of the blocks in front of [i, i + n), and of those blocks. */
  lemma RunBytes(k: Shape, bs: seq<Block>, i: nat, n: nat)
    requires n > 0 && i + n <= |bs| && Tiles(k, bs, 0)
    ensures Total(bs[..i]) == bs[i].at
    ensures Total(bs[..i]) + Total(bs[i..i + n]) == bs[i + n - 1].at + bs[i + n - 1].size
  {
    hide Tiles, Total;
    BlockStands(k, bs, 0, i);
    BlockStands(k, bs, 0, i + n - 1);
    LastOfRun(bs, i, n);
    SplitHeap(k, bs[..i + n - 1], [bs[i + n - 1]], 0);
    SplitHeap(k, bs[..i], bs[i..i + n], 0);
    One(k, bs[i + n - 1], 0);
  }

  /** Every block starts at a multiple of the unit. */
  lemma {:induction false} TotalAligned(k: Shape, bs: seq<Block>, from: nat, i: nat)
    requires ShapeOk(k) && Tiles(k, bs, from) && i < |bs| && Aligned(from, k.unit)
    ensures Aligned(bs[i].at, k.unit)
    decreases i
  {
    hide Aligned;
    if i > 0 {
      AlignedSum(from, bs[0].size, k.unit);
      TotalAligned(k, bs[1..], from + bs[0].size, i - 1);
    }
  }

  // ----- allocation and release -----

  /** Block `i` taken for `total` bytes: split when the rest is large enough, otherwise handed out whole. */
  function AllocateAt(k: Shape, bs: seq<Block>, i: nat, total: nat): seq<Block>
    requires i < |bs| && total <= bs[i].size
  {
    var b := bs[i];
    if b.size - total >= k.least
      then bs[..i] + [Block(b.at, total, false), Block(b.at + total, b.size - total, true)] + bs[i + 1..]
      else bs[..i] + [b.(free := false)] + bs[i + 1..]
  }

  /** The first `total` bytes of the free block become a used one; the rest, if it has the least size, follows as a free block,
      and else stays part of it. All other blocks are as before. */
  lemma AllocatedExactly(k: Shape, bs: seq<Block>, i: nat, total: nat)
    requires i < |bs| && total <= bs[i].size && k.least > 0
    ensures var r := AllocateAt(k, bs, i, total);
            && i < |r| && !r[i].free && r[i].at == bs[i].at && total <= r[i].size < total + k.least && r[..i] == bs[..i]
            && if bs[i].size >= total + k.least then
                 |r| == |bs| + 1 && r[i].size == total && r[i + 1] == Block(bs[i].at + total, bs[i].size - total, true) && r[i + 2..] == bs[i + 1..]
               else
                 |r| == |bs| && r[i].size == bs[i].size && r[i + 1..] == bs[i + 1..]
  {
  }

  /** The released block is one with its free neighbours; all other blocks are as before. */
  lemma FreedExactly(bs: seq<Block>, i: nat)
    requires i < |bs| && !bs[i].free
    ensures var r, prev, next := FreeAt(bs, i), i > 0 && bs[i - 1].free, i + 1 < |bs| && bs[i + 1].free;
            var lo, hi := if prev then i - 1 else i, if next then i + 2 else i + 1;
            && |r| == |bs| - (hi - lo) + 1 && r[..lo] == bs[..lo] && r[lo + 1..] == bs[hi..]
            && r[lo] == Block(bs[lo].at, bs[i].size + (if prev then bs[i - 1].size else 0) + (if next then bs[i + 1].size else 0), true)
  {
    FreeShape(bs, i);
  }

  /** Blocks `i` and `i + 1` as one free block. */
  function MergeAt(bs: seq<Block>, i: nat): seq<Block>
    requires i + 1 < |bs|
  {
    bs[..i] + [Block(bs[i].at, bs[i].size + bs[i + 1].size, true)] + bs[i + 2..]
  }

  function MarkFree(bs: seq<Block>, i: nat): seq<Block>
    requires i < |bs|
  {
    bs[..i] + [bs[i].(free := true)] + bs[i + 1..]
  }

  function MergeNext(bs: seq<Block>, i: nat): seq<Block>
    requires i < |bs|
  {
    if i + 1 < |bs| && bs[i + 1].free then MergeAt(bs, i) else bs
  }

  function MergePrev(bs: seq<Block>, i: nat): seq<Block>
    requires i < |bs|
  {
    if i > 0 && bs[i - 1].free then MergeAt(bs, i - 1) else bs
  }

  /** Block `i` released and merged with its free neighbours. */
  function FreeAt(bs: seq<Block>, i: nat): seq<Block>
    requires i < |bs|
  {
    MergePrev(MergeNext(MarkFree(bs, i), i), i)
  }

  /** The heap invariant. */
  ghost predicate HeapOk(k: Shape, bs: seq<Block>, capacity: nat)
  {
    bs != [] && Tiles(k, bs, 0) && Total(bs) == capacity && NoTwoFree(bs)
  }

  /** One block replaced by blocks covering the same bytes. */
  lemma ReplaceTiles(k: Shape, a: seq<Block>, mid: seq<Block>, mid': seq<Block>, b: seq<Block>, from: nat)
    requires Tiles(k, a + mid + b, from)
    requires Total(mid') == Total(mid) && Tiles(k, mid', from + Total(a))
    ensures Tiles(k, a + mid' + b, from) && Total(a + mid' + b) == Total(a + mid + b)
    ensures UsedSum(a + mid' + b) + UsedSum(mid) == UsedSum(a + mid + b) + UsedSum(mid')
    ensures FreeAts(a + mid + b) == FreeAts(a) + FreeAts(mid) + FreeAts(b)
    ensures FreeAts(a + mid' + b) == FreeAts(a) + FreeAts(mid') + FreeAts(b)
  {
    hide Tiles, Total, UsedSum, FreeAts;
    SplitHeap(k, a + mid, b, from);
    SplitHeap(k, a, mid, from);
    SplitHeap(k, a + mid', b, from);
    SplitHeap(k, a, mid', from);
  }

  lemma One(k: Shape, b: Block, from: nat)
    ensures Total([b]) == b.size && UsedSum([b]) == (if b.free then 0 else b.size)
    ensures FreeAts([b]) == if b.free then [b.at] else []
    ensures Tiles(k, [b], from) <==> b.at == from && b.size >= k.header && Aligned(b.size, k.unit)
  {
    assert [b][1..] == [];
  }

  lemma Two(k: Shape, b: Block, c: Block, from: nat)
    ensures Total([b, c]) == b.size + c.size && UsedSum([b, c]) == UsedSum([b]) + UsedSum([c])
    ensures FreeAts([b, c]) == FreeAts([b]) + FreeAts([c])
    ensures Tiles(k, [b, c], from) <==> Tiles(k, [b], from) && Tiles(k, [c], from + b.size)
  {
    One(k, b, from);
    assert [b] + [c] == [b, c];
    SplitHeap(k, [b], [c], from);
  }

  lemma SplitKeeps(k: Shape, bs: seq<Block>, i: nat, total: nat)
    requires ShapeOk(k) && Tiles(k, bs, 0) && i < |bs| && bs[i].free
    requires k.header <= total && total + k.header <= bs[i].size && Aligned(total, k.unit)
    ensures var b := bs[i];
            var bs' := bs[..i] + [Block(b.at, total, false), Block(b.at + total, b.size - total, true)] + bs[i + 1..];
            && Tiles(k, bs', 0) && Total(bs') == Total(bs) && UsedSum(bs') == UsedSum(bs) + total
            && FreeAts(bs) == FreeAts(bs[..i]) + [b.at] + FreeAts(bs[i + 1..])
            && FreeAts(bs') == FreeAts(bs[..i]) + [b.at + total] + FreeAts(bs[i + 1..])
  {
    hide Tiles, Total, UsedSum, FreeAts, Aligned, NoTwoFree;
    var b := bs[i];
    BlockStands(k, bs, 0, i);
    assert bs == bs[..i] + [b] + bs[i + 1..];
    One(k, b, b.at);
    var x, y := Block(b.at, total, false), Block(b.at + total, b.size - total, true);
    One(k, x, b.at);
    One(k, y, b.at + total);
    Two(k, x, y, b.at);
    AlignedSum(b.size, total, k.unit);
    ReplaceTiles(k, bs[..i], [b], [x, y], bs[i + 1..], 0);
  }

  lemma WholeKeeps(k: Shape, bs: seq<Block>, i: nat)
    requires Tiles(k, bs, 0) && i < |bs| && bs[i].free
    ensures var bs' := bs[..i] + [bs[i].(free := false)] + bs[i + 1..];
            && Tiles(k, bs', 0) && Total(bs') == Total(bs) && UsedSum(bs') == UsedSum(bs) + bs[i].size
            && FreeAts(bs) == FreeAts(bs[..i]) + [bs[i].at] + FreeAts(bs[i + 1..])
            && FreeAts(bs') == FreeAts(bs[..i]) + FreeAts(bs[i + 1..])
  {
    hide Tiles, Total, UsedSum, FreeAts, Aligned, NoTwoFree;
    var b := bs[i];
    BlockStands(k, bs, 0, i);
    assert bs == bs[..i] + [b] + bs[i + 1..];
    One(k, b, b.at);
    One(k, b.(free := false), b.at);
    ReplaceTiles(k, bs[..i], [b], [b.(free := false)], bs[i + 1..], 0);
  }

  /** Addresses of the free blocks around `i`, with `mid` in place of its own. */
  function Around(bs: seq<Block>, i: nat, n: nat, mid: seq<nat>): seq<nat>
    requires i + n <= |bs|
  {
    FreeAts(bs[..i]) + mid + FreeAts(bs[i + n..])
  }

  /** Allocation keeps the heap, and takes exactly the block it hands out from the free ones. */
  lemma AllocateKeeps(k: Shape, bs: seq<Block>, capacity: nat, i: nat, total: nat)
    requires ShapeOk(k) && HeapOk(k, bs, capacity) && i < |bs| && bs[i].free
    requires k.header <= total <= bs[i].size && Aligned(total, k.unit)
    ensures var bs' := AllocateAt(k, bs, i, total);
            && HeapOk(k, bs', capacity) && UsedSum(bs') == UsedSum(bs) + bs'[i].size
            && FreeAts(bs) == Around(bs, i, 1, [bs[i].at])
            && FreeAts(bs') == Around(bs, i, 1, if bs[i].size - total >= k.least then [bs[i].at + total] else [])
  {
    hide Tiles, Total, UsedSum, FreeAts, Aligned, NoTwoFree;
    if bs[i].size - total >= k.least {
      SplitKeeps(k, bs, i, total);
      AllocatedNoTwins(bs, i, Block(bs[i].at, total, false), Block(bs[i].at + total, bs[i].size - total, true));
    } else {
      WholeKeeps(k, bs, i);
      UsedNoTwins(bs, i);
    }
  }

  lemma AllocatedNoTwins(bs: seq<Block>, i: nat, x: Block, y: Block)
    requires NoTwoFree(bs) && i < |bs| && bs[i].free && !x.free && y.free
    ensures NoTwoFree(bs[..i] + [x, y] + bs[i + 1..])
  {
    var r := bs[..i] + [x, y] + bs[i + 1..];
    forall j | 0 <= j < |r| - 1 ensures !(r[j].free && r[j + 1].free) {
      if j > i + 1 { assert r[j] == bs[j - 1] && r[j + 1] == bs[j]; }
      if j == i + 1 && j + 1 < |r| { assert r[j + 1] == bs[i + 1]; }
    }
  }

  lemma UsedNoTwins(bs: seq<Block>, i: nat)
    requires NoTwoFree(bs) && i < |bs|
    ensures NoTwoFree(bs[..i] + [bs[i].(free := false)] + bs[i + 1..])
  {
    var r := bs[..i] + [bs[i].(free := false)] + bs[i + 1..];
    forall j | 0 <= j < |r| - 1 ensures !(r[j].free && r[j + 1].free) {
      assert j != i ==> r[j] == bs[j];
      assert j + 1 != i ==> r[j + 1] == bs[j + 1];
    }
  }

  // ----- release -----

  lemma Remarked(k: Shape, bs: seq<Block>, i: nat, free: bool)
    requires Tiles(k, bs, 0) && i < |bs|
    ensures var bs' := bs[..i] + [bs[i].(free := free)] + bs[i + 1..];
            Tiles(k, bs', 0) && Total(bs') == Total(bs) && bs' != []
  {
    hide Tiles, Total, UsedSum, FreeAts;
    var b, c := bs[i], bs[i].(free := free);
    BlockStands(k, bs, 0, i);
    assert bs == bs[..i] + [b] + bs[i + 1..];
    One(k, b, b.at);
    One(k, c, b.at);
    ReplaceTiles(k, bs[..i], [b], [c], bs[i + 1..], 0);
  }

  /** Merging two neighbours keeps the tiling. */
  lemma MergeKeeps(k: Shape, bs: seq<Block>, i: nat)
    requires Tiles(k, bs, 0) && i + 1 < |bs| && bs[i].free && bs[i + 1].free
    ensures var bs' := MergeAt(bs, i);
            && Tiles(k, bs', 0) && Total(bs') == Total(bs) && UsedSum(bs') == UsedSum(bs)
            && FreeAts(bs) == FreeAts(bs[..i]) + [bs[i].at, bs[i + 1].at] + FreeAts(bs[i + 2..])
            && FreeAts(bs') == FreeAts(bs[..i]) + [bs[i].at] + FreeAts(bs[i + 2..])
  {
    hide Tiles, Total, UsedSum, FreeAts, Aligned;
    var b, c := bs[i], bs[i + 1];
    var m := Block(b.at, b.size + c.size, true);
    BlockStands(k, bs, 0, i);
    BlockStands(k, bs, 0, i + 1);
    assert bs == bs[..i] + [b, c] + bs[i + 2..];
    One(k, b, b.at);
    One(k, c, c.at);
    Two(k, b, c, b.at);
    AlignedSum(b.size, c.size, k.unit);
    One(k, m, b.at);
    ReplaceTiles(k, bs[..i], [b, c], [m], bs[i + 2..], 0);
  }

  lemma MarkKeeps(k: Shape, bs: seq<Block>, i: nat)
    requires Tiles(k, bs, 0) && i < |bs| && !bs[i].free
    ensures var bs' := MarkFree(bs, i);
            && Tiles(k, bs', 0) && Total(bs') == Total(bs) && UsedSum(bs) == UsedSum(bs') + bs[i].size
            && FreeAts(bs) == FreeAts(bs[..i]) + FreeAts(bs[i + 1..])
            && FreeAts(bs') == FreeAts(bs[..i]) + [bs[i].at] + FreeAts(bs[i + 1..])
  {
    hide Tiles, Total, UsedSum, FreeAts, Aligned;
    var b := bs[i];
    BlockStands(k, bs, 0, i);
    assert bs == bs[..i] + [b] + bs[i + 1..];
    One(k, b, b.at);
    One(k, b.(free := true), b.at);
    ReplaceTiles(k, bs[..i], [b], [b.(free := true)], bs[i + 1..], 0);
  }

  /** First and last block of the run that becomes one when `i` is released. */
  function RunFrom(bs: seq<Block>, i: nat): (lo: nat)
    requires i < |bs|
    ensures lo <= i
  {
    if i > 0 && bs[i - 1].free then i - 1 else i
  }

  function RunTo(bs: seq<Block>, i: nat): (hi: nat)
    requires i < |bs|
    ensures i <= hi < |bs|
  {
    if i + 1 < |bs| && bs[i + 1].free then i + 1 else i
  }

  lemma FreeShape(bs: seq<Block>, i: nat)
    requires i < |bs|
    ensures var lo, hi, r := RunFrom(bs, i), RunTo(bs, i), FreeAt(bs, i);
            && |r| == |bs| - (hi - lo) && r[lo].free && r[lo].at == bs[lo].at
            && r[..lo] == bs[..lo] && r[lo + 1..] == bs[hi + 1..]
  {
    var m := MergeNext(MarkFree(bs, i), i);
    assert |m| == |bs| - (RunTo(bs, i) - i) && m[i].free && m[i].at == bs[i].at;
    assert m[..i] == bs[..i] && m[i + 1..] == bs[RunTo(bs, i) + 1..];
    if i > 0 {
      assert m[i - 1] == bs[i - 1];
      assert m[..i - 1] == bs[..i - 1];
    }
  }

  /** A released block and its merged neighbours leave no two free blocks side by side. */
  lemma FreeNoTwins(bs: seq<Block>, i: nat)
    requires NoTwoFree(bs) && i < |bs| && !bs[i].free
    ensures NoTwoFree(FreeAt(bs, i))
  {
    hide FreeAt;
    FreeShape(bs, i);
    var lo, hi, r := RunFrom(bs, i), RunTo(bs, i), FreeAt(bs, i);
    var d := hi - lo;
    forall j | 0 <= j < |r| - 1 ensures !(r[j].free && r[j + 1].free) {
      if j + 1 < lo { assert r[j] == r[..lo][j] && r[j + 1] == r[..lo][j + 1]; }
      if j + 1 == lo { assert r[j] == r[..lo][j] == bs[j]; }
      if j == lo { assert r[j + 1] == r[lo + 1..][0] == bs[hi + 1]; }
      if j > lo { assert r[j] == r[lo + 1..][j - lo - 1] == bs[j + d] && r[j + 1] == r[lo + 1..][j - lo] == bs[j + 1 + d]; }
    }
  }

  /** Releasing keeps the heap and takes the block's bytes from the used ones. */
  lemma FreeKeeps(k: Shape, bs: seq<Block>, capacity: nat, i: nat)
    requires HeapOk(k, bs, capacity) && i < |bs| && !bs[i].free
    ensures HeapOk(k, FreeAt(bs, i), capacity) && UsedSum(bs) == UsedSum(FreeAt(bs, i)) + bs[i].size
  {
    hide Tiles, Total, UsedSum, FreeAts, Aligned, NoTwoFree;
    MarkKeeps(k, bs, i);
    var b1 := MarkFree(bs, i);
    if i + 1 < |bs| && bs[i + 1].free { MergeKeeps(k, b1, i); }
    var b2 := MergeNext(b1, i);
    if i > 0 && bs[i - 1].free { MergeKeeps(k, b2, i - 1); }
    FreeNoTwins(bs, i);
  }

  // ----- what one call undoes, and what all calls together restore -----

  /** Releasing a block right after its allocation restores the heap. */
  lemma FreeUndoesAllocate(k: Shape, bs: seq<Block>, capacity: nat, i: nat, total: nat)
    requires ShapeOk(k) && HeapOk(k, bs, capacity) && i < |bs| && bs[i].free
    requires k.header <= total <= bs[i].size
    ensures i < |AllocateAt(k, bs, i, total)| && FreeAt(AllocateAt(k, bs, i, total), i) == bs
  {
    hide Tiles, Total, Aligned;
    var a := AllocateAt(k, bs, i, total);
    assert i > 0 ==> a[i - 1] == bs[i - 1] && !bs[i - 1].free;
    assert i + 1 < |bs| ==> !bs[i + 1].free;
    if bs[i].size - total >= k.least {
      assert a[i + 1].free;
      assert MergeNext(MarkFree(a, i), i) == bs;
    } else {
      assert a[i] == bs[i].(free := false);
      assert i + 1 < |bs| ==> a[i + 1] == bs[i + 1];
      assert MarkFree(a, i) == bs;
    }
  }

  lemma {:induction false} NothingUsed(k: Shape, bs: seq<Block>, from: nat)
    requires k.header > 0 && Tiles(k, bs, from) && UsedSum(bs) == 0
    ensures forall i :: 0 <= i < |bs| ==> bs[i].free
    decreases |bs|
  {
    if bs != [] {
      NothingUsed(k, bs[1..], from + bs[0].size);
      assert forall i :: 1 <= i < |bs| ==> bs[i] == bs[1..][i - 1];
    }
  }

  lemma TwoFree(bs: seq<Block>)
    ensures |bs| > 1 && (forall i :: 0 <= i < |bs| ==> bs[i].free) ==> !NoTwoFree(bs)
  {
    if |bs| > 1 && forall i :: 0 <= i < |bs| ==> bs[i].free {
      assert bs[0].free && bs[0 + 1].free;
    }
  }

  /** When no byte is used the heap is one free block of full capacity. */
  lemma EmptyHeapIsOneBlock(k: Shape, bs: seq<Block>, capacity: nat)
    requires k.header > 0 && HeapOk(k, bs, capacity)
    ensures UsedSum(bs) == 0 <==> bs == [Block(0, capacity, true)]
  {
    if UsedSum(bs) == 0 {
      NothingUsed(k, bs, 0);
      TwoFree(bs);
      One(k, bs[0], 0);
      assert bs == [bs[0]];
    }
  }
}
