// The guest's malloc, free and realloc: a chain of blocks inside one static byte array, headers and payloads alike.
module GuestHeap {
  import opened Blocks
  import opened Leb128

  const HEAP: nat := 16384
  const HEADER: nat := 12

  /** Headers of 12 bytes; every size is a multiple of 4; a rest is cut off when it keeps 8 payload bytes. */
  const SHAPE: Shape := Shape(12, 4, 20)

  lemma ShapeIsOk()
    ensures ShapeOk(SHAPE)
  {
    assert HEADER == Times(3, 4);
  }

  // ----- header words in memory -----

  function GetWord(m: seq<Byte>, p: nat): nat
    requires p + 4 <= |m|
  {
    var b0: int, b1: int, b2: int, b3: int := m[p], m[p + 1], m[p + 2], m[p + 3];
    b0 + 0x100 * b1 + 0x1_0000 * b2 + 0x100_0000 * b3
  }

  lemma WordParts(v: nat)
    requires v < TWO_32
    ensures v == v % 0x100 + 0x100 * (v / 0x100 % 0x100) + 0x1_0000 * (v / 0x1_0000 % 0x100) + 0x100_0000 * (v / 0x100_0000)
    ensures v / 0x100_0000 < 0x100
  {
    TwoBytes(v);
    TwoBytes(v / 0x100);
    assert v / 0x100_0000 == v / 0x1_0000 / 0x100;
  }

  lemma TwoBytes(v: nat)
    ensures v == v % 0x100 + 0x100 * (v / 0x100) && v / 0x1_0000 == v / 0x100 / 0x100
  {
  }

  /** The header of `b`, with `next` as its successor's address. */
  predicate HeadAt(m: seq<Byte>, b: Block, next: nat)
  {
    && b.at + HEADER <= |m| && b.size >= HEADER
    && GetWord(m, b.at) == b.size - HEADER && m[b.at + 4] == (if b.free then 1 else 0) && GetWord(m, b.at + 8) == next
  }

  /** Address of the first block, or `end` without blocks. */
  function FirstAddress(base: nat, bs: seq<Block>, end: nat): nat { if bs == [] then end else base + bs[0].at }

  /** Headers of consecutive blocks, each pointing to the next and the last one to `end`. */
  predicate Chain(m: seq<Byte>, base: nat, bs: seq<Block>, end: nat)
  {
    bs == [] || (HeadAt(m, bs[0], FirstAddress(base, bs[1..], end)) && Chain(m, base, bs[1..], end))
  }

  lemma {:induction false} ChainSplit(m: seq<Byte>, base: nat, a: seq<Block>, b: seq<Block>, end: nat)
    ensures Chain(m, base, a + b, end) <==> Chain(m, base, a, FirstAddress(base, b, end)) && Chain(m, base, b, end)
    decreases |a|
  {
    hide HeadAt;
    if a == [] {
      assert a + b == b;
    } else {
      assert (a + b)[1..] == a[1..] + b;
      ChainSplit(m, base, a[1..], b, end);
    }
  }

  lemma {:induction false} HeadOf(m: seq<Byte>, base: nat, bs: seq<Block>, end: nat, i: nat)
    requires Chain(m, base, bs, end) && i < |bs|
    ensures HeadAt(m, bs[i], FirstAddress(base, bs[i + 1..], end))
    decreases i
  {
    hide HeadAt;
    if i > 0 { HeadOf(m, base, bs[1..], end, i - 1); }
  }

  /** The headers of `bs` hold the same bytes in both memories. */
  predicate SameHeads(m: seq<Byte>, m': seq<Byte>, bs: seq<Block>)
  {
    |m| == |m'| && forall i, x :: 0 <= i < |bs| && bs[i].at <= x < bs[i].at + HEADER && x < |m| ==> m'[x] == m[x]
  }

  lemma {:induction false} ChainFrame(m: seq<Byte>, m': seq<Byte>, base: nat, bs: seq<Block>, end: nat)
    requires Chain(m, base, bs, end) && SameHeads(m, m', bs)
    ensures Chain(m', base, bs, end)
    decreases |bs|
  {
    if bs != [] {
      HeadSame(m, m', bs[0], FirstAddress(base, bs[1..], end));
      ChainFrame(m, m', base, bs[1..], end);
    }
  }

  lemma HeadSame(m: seq<Byte>, m': seq<Byte>, b: Block, next: nat)
    requires HeadAt(m, b, next) && |m| == |m'| && forall x :: b.at <= x < b.at + HEADER && x < |m| ==> m'[x] == m[x]
    ensures HeadAt(m', b, next)
  {
  }

  /** Bytes outside [p, q) are the same. */
  predicate Outside(m: seq<Byte>, m': seq<Byte>, p: nat, q: nat)
  {
    |m| == |m'| && forall x :: 0 <= x < |m| && (x < p || x >= q) ==> m'[x] == m[x]
  }

  /** Blocks of a tiling that start at `from` do not reach below it, and those of a front do not reach its end. */
  lemma {:induction false} HeadsInside(bs: seq<Block>, from: nat, m: seq<Byte>, m': seq<Byte>, p: nat, q: nat)
    requires Tiles(SHAPE, bs, from) && Outside(m, m', p, q) && (from + Total(bs) <= p || q <= from)
    ensures SameHeads(m, m', bs)
    decreases |bs|
  {
    if bs != [] {
      HeadsInside(bs[1..], from + bs[0].size, m, m', p, q);
      assert forall i :: 1 <= i < |bs| ==> bs[i] == bs[1..][i - 1];
    }
  }

  /** A run of blocks replaced by another one over the same bytes, whose headers have been written. */
  lemma ChainReplaced(m: seq<Byte>, m': seq<Byte>, base: nat, a: seq<Block>, run: seq<Block>, mid: seq<Block>, b: seq<Block>)
    requires Tiles(SHAPE, a + (run + b), 0) && Chain(m, base, a + (run + b), 0)
    requires Outside(m, m', Total(a), Total(a) + Total(run))
    requires Chain(m', base, mid, FirstAddress(base, b, 0))
    requires mid != [] && run != [] && mid[0].at == run[0].at
    ensures Chain(m', base, a + (mid + b), 0)
  {
    hide Chain, Tiles, Total, Outside, SameHeads;
    SplitHeap(SHAPE, a, run + b, 0);
    SplitHeap(SHAPE, run, b, Total(a));
    ChainSplit(m, base, a, run + b, 0);
    ChainSplit(m, base, run, b, 0);
    HeadsInside(a, 0, m, m', Total(a), Total(a) + Total(run));
    HeadsInside(b, Total(a) + Total(run), m, m', Total(a), Total(a) + Total(run));
    ChainFrame(m, m', base, a, FirstAddress(base, run + b, 0));
    ChainFrame(m, m', base, b, 0);
    ChainSplit(m', base, mid, b, 0);
    ChainSplit(m', base, a, mid + b, 0);
  }

  /** The same for blocks [i, i + n) of a heap. */
  lemma RewriteRun(m: seq<Byte>, m': seq<Byte>, base: nat, bs: seq<Block>, i: nat, n: nat, mid: seq<Block>)
    requires n > 0 && i + n <= |bs| && Tiles(SHAPE, bs, 0) && Chain(m, base, bs, 0)
    requires Outside(m, m', bs[i].at, bs[i + n - 1].at + bs[i + n - 1].size)
    requires Chain(m', base, mid, FirstAddress(base, bs[i + n..], 0)) && mid != [] && mid[0].at == bs[i].at
    ensures Chain(m', base, bs[..i] + mid + bs[i + n..], 0)
  {
    hide Chain, Tiles, Total, Outside;
    var a, run, b := bs[..i], bs[i..i + n], bs[i + n..];
    RunBytes(SHAPE, bs, i, n);
    assert bs == a + (run + b);
    ChainReplaced(m, m', base, a, run, mid, b);
    assert a + mid + b == a + (mid + b);
  }

  lemma OneHead(m: seq<Byte>, base: nat, b: Block, end: nat)
    requires HeadAt(m, b, end)
    ensures Chain(m, base, [b], end)
  {
    assert [b][1..] == [];
  }

  lemma TwoHeads(m: seq<Byte>, base: nat, b: Block, c: Block, end: nat)
    requires HeadAt(m, b, base + c.at) && HeadAt(m, c, end)
    ensures Chain(m, base, [b, c], end)
  {
    OneHead(m, base, c, end);
    assert [b, c][1..] == [c];
  }

  // ----- coalescing all free runs -----

  predicate TwinsAt(bs: seq<Block>, i: nat) { i + 1 < |bs| && bs[i].free && bs[i + 1].free }

  /** One pass over the blocks from `i` on, merging every free block with the free ones behind it. */
  function CoalesceFrom(bs: seq<Block>, i: nat): seq<Block>
    decreases |bs| - i, |bs|
  {
    if i >= |bs| then bs
    else if TwinsAt(bs, i) then CoalesceFrom(MergeAt(bs, i), i)
    else CoalesceFrom(bs, i + 1)
  }

  /** Every used block of `bs` other than the one at `but` is a block of `bs'`. */
  predicate UsedKept(bs: seq<Block>, bs': seq<Block>, but: int)
  {
    forall b :: b in bs && !b.free && b.at != but ==> b in bs'
  }

  lemma MergeUsed(bs: seq<Block>, i: nat)
    requires TwinsAt(bs, i)
    ensures UsedKept(bs, MergeAt(bs, i), NULL)
  {
    var r := MergeAt(bs, i);
    forall b | b in bs && !b.free ensures b in r {
      var j :| 0 <= j < |bs| && bs[j] == b;
      assert j != i && j != i + 1;
      assert b == r[if j < i then j else j - 1];
    }
  }

  /** A whole pass keeps the tiling and the used blocks. */
  lemma {:induction false} CoalesceKeeps(bs: seq<Block>, i: nat)
    requires Tiles(SHAPE, bs, 0)
    ensures var r := CoalesceFrom(bs, i);
            Tiles(SHAPE, r, 0) && Total(r) == Total(bs) && UsedSum(r) == UsedSum(bs) && UsedKept(bs, r, NULL) && (bs != [] ==> r != [])
    decreases |bs| - i, |bs|
  {
    hide Tiles, Total, UsedSum, MergeAt;
    if i < |bs| {
      if TwinsAt(bs, i) {
        MergeKeeps(SHAPE, bs, i);
        MergeUsed(bs, i);
        assert |MergeAt(bs, i)| == |bs| - 1 by { MergeSize(bs, i); }
        CoalesceKeeps(MergeAt(bs, i), i);
      } else {
        CoalesceKeeps(bs, i + 1);
      }
    }
  }

  lemma MergeSize(bs: seq<Block>, i: nat)
    requires TwinsAt(bs, i)
    ensures |MergeAt(bs, i)| == |bs| - 1
  {
  }

  /** After a whole pass no two neighbours are free. */
  lemma {:induction false} CoalescedApart(bs: seq<Block>, i: nat)
    requires forall j :: 0 <= j < i ==> !TwinsAt(bs, j)
    ensures NoTwoFree(CoalesceFrom(bs, i))
    decreases |bs| - i, |bs|
  {
    if i >= |bs| {
      forall j | 0 <= j < |bs| - 1 ensures !(bs[j].free && bs[j + 1].free) { assert !TwinsAt(bs, j); }
    } else if TwinsAt(bs, i) {
      var r := MergeAt(bs, i);
      forall j | 0 <= j < i ensures !TwinsAt(r, j) {
        assert !TwinsAt(bs, j);
        assert r[j] == bs[j];
        if j + 1 < i { assert r[j + 1] == bs[j + 1]; } else { assert r[i].free == bs[i].free; }
      }
      CoalescedApart(r, i);
    } else {
      CoalescedApart(bs, i + 1);
    }
  }

  lemma {:induction false} NothingToMerge(bs: seq<Block>, i: nat, k: nat)
    requires i <= k && forall j :: i <= j < k ==> !TwinsAt(bs, j)
    ensures CoalesceFrom(bs, i) == CoalesceFrom(bs, k)
    decreases k - i
  {
    if i < k && i < |bs| {
      NothingToMerge(bs, i + 1, k);
    }
  }

  /** On a heap without free neighbours the whole pass after a release does what merging with the two neighbours does. */
  lemma CoalesceIsFreeAt(bs: seq<Block>, i: nat)
    requires NoTwoFree(bs) && i < |bs| && !bs[i].free
    ensures CoalesceFrom(MarkFree(bs, i), 0) == FreeAt(bs, i)
  {
    hide CoalesceFrom;
    var b1 := MarkFree(bs, i);
    assert forall j :: 0 <= j < |bs| && j != i ==> b1[j] == bs[j];
    var prev, next := i > 0 && bs[i - 1].free, i + 1 < |bs| && bs[i + 1].free;
    var lo := if prev then i - 1 else i;
    NothingToMerge(b1, 0, lo);
    MergeRun(bs, i);
  }

  lemma CoalesceStep(bs: seq<Block>, i: nat)
    requires TwinsAt(bs, i)
    ensures CoalesceFrom(bs, i) == CoalesceFrom(MergeAt(bs, i), i)
  {
  }

  lemma CoalesceEnd(bs: seq<Block>)
    ensures CoalesceFrom(bs, |bs|) == bs
  {
  }

  /** From the first block of the released run on. */
  lemma MergeRun(bs: seq<Block>, i: nat)
    requires NoTwoFree(bs) && i < |bs| && !bs[i].free
    ensures CoalesceFrom(MarkFree(bs, i), RunFrom(bs, i)) == FreeAt(bs, i)
  {
    hide CoalesceFrom, FreeAt;
    var b1, r := MarkFree(bs, i), FreeAt(bs, i);
    var prev, next := i > 0 && bs[i - 1].free, i + 1 < |bs| && bs[i + 1].free;
    var lo := RunFrom(bs, i);
    FreeNoTwins(bs, i);
    FreeAsMerges(bs, i);
    if prev { CoalesceStep(b1, lo); }
    var b2 := if prev then MergeAt(b1, lo) else b1;
    if next { CoalesceStep(b2, lo); }
    assert CoalesceFrom(b1, lo) == CoalesceFrom(r, lo);
    NothingToMerge(r, lo, |r|);
    CoalesceEnd(r);
  }

  /** Releasing merges with the predecessor first or with the successor first, to the same effect. */
  lemma FreeAsMerges(bs: seq<Block>, i: nat)
    requires i < |bs| && !bs[i].free
    ensures var b1, prev, next := MarkFree(bs, i), i > 0 && bs[i - 1].free, i + 1 < |bs| && bs[i + 1].free;
            var lo := RunFrom(bs, i);
            && (prev ==> TwinsAt(b1, lo))
            && var b2 := if prev then MergeAt(b1, lo) else b1;
               && (next ==> TwinsAt(b2, lo))
               && FreeAt(bs, i) == if next then MergeAt(b2, lo) else b2
  {
    if i > 0 && bs[i - 1].free && i + 1 < |bs| && bs[i + 1].free { BothMerged(bs, i); }
  }

  lemma BothMerged(bs: seq<Block>, i: nat)
    requires 0 < i && i + 1 < |bs|
    ensures var b1 := MarkFree(bs, i);
            |MergeAt(b1, i)| == |bs| - 1 && |MergeAt(b1, i - 1)| == |bs| - 1 && MergeAt(MergeAt(b1, i), i - 1) == MergeAt(MergeAt(b1, i - 1), i - 1)
  {
    var a, c, x, y, z := bs[..i - 1], bs[i + 2..], bs[i - 1], bs[i].(free := true), bs[i + 1];
    var b1 := MarkFree(bs, i);
    assert b1 == a + [x, y, z] + c;
    assert MergeAt(b1, i - 1) == a + [Block(x.at, x.size + y.size, true), z] + c;
    assert MergeAt(b1, i) == a + [x, Block(y.at, y.size + z.size, true)] + c;
  }

  // ----- cutting and growing -----

  /** Block `i` cut after `total` bytes; the rest is free. */
  function CutAs(bs: seq<Block>, i: nat, total: nat, free: bool): seq<Block>
    requires i < |bs| && total <= bs[i].size
  {
    bs[..i] + [Block(bs[i].at, total, free), Block(bs[i].at + total, bs[i].size - total, true)] + bs[i + 1..]
  }

  function Cut(bs: seq<Block>, i: nat, total: nat): seq<Block>
    requires i < |bs| && total <= bs[i].size
  {
    CutAs(bs, i, total, false)
  }

  lemma CutKeeps(bs: seq<Block>, i: nat, total: nat, free: bool)
    requires Tiles(SHAPE, bs, 0) && i < |bs| && HEADER <= total && total + SHAPE.least <= bs[i].size && Aligned(total, 4)
    ensures var r := CutAs(bs, i, total, free); Tiles(SHAPE, r, 0) && Total(r) == Total(bs) && UsedKept(bs, r, bs[i].at)
  {
    hide Tiles, Total, UsedSum, FreeAts, Aligned, UsedKept;
    var b := bs[i];
    BlockStands(SHAPE, bs, 0, i);
    assert bs == bs[..i] + [b] + bs[i + 1..];
    One(SHAPE, b, b.at);
    var x, y := Block(b.at, total, free), Block(b.at + total, b.size - total, true);
    One(SHAPE, x, b.at);
    One(SHAPE, y, b.at + total);
    Two(SHAPE, x, y, b.at);
    AlignedSum(b.size, total, 4);
    ReplaceTiles(SHAPE, bs[..i], [b], [x, y], bs[i + 1..], 0);
    ReplacedUsed(bs, i, 1, [x, y]);
  }

  /** Blocks outside the run [i, i + n) stay when it is replaced. */
  lemma ReplacedUsed(bs: seq<Block>, i: nat, n: nat, mid: seq<Block>)
    requires i + n <= |bs| && n > 0 && forall j :: i < j < i + n ==> bs[j].free
    ensures UsedKept(bs, bs[..i] + mid + bs[i + n..], bs[i].at)
  {
    var r := bs[..i] + mid + bs[i + n..];
    forall b | b in bs && !b.free && b.at != bs[i].at ensures b in r {
      var j :| 0 <= j < |bs| && bs[j] == b;
      assert b == r[if j < i then j else j - n + |mid|];
    }
  }

  /** Block `i` and its free successor as one used block. */
  function Swallow(bs: seq<Block>, i: nat): seq<Block>
    requires i + 1 < |bs|
  {
    bs[..i] + [Block(bs[i].at, bs[i].size + bs[i + 1].size, false)] + bs[i + 2..]
  }

  lemma SwallowKeeps(bs: seq<Block>, i: nat)
    requires Tiles(SHAPE, bs, 0) && i + 1 < |bs| && bs[i + 1].free
    ensures Tiles(SHAPE, Swallow(bs, i), 0) && Total(Swallow(bs, i)) == Total(bs) && UsedKept(bs, Swallow(bs, i), bs[i].at)
  {
    hide Tiles, Total, UsedSum, FreeAts, Aligned, UsedKept;
    var b, c := bs[i], bs[i + 1];
    var x := Block(b.at, b.size + c.size, false);
    BlockStands(SHAPE, bs, 0, i);
    BlockStands(SHAPE, bs, 0, i + 1);
    assert bs == bs[..i] + [b, c] + bs[i + 2..];
    One(SHAPE, b, b.at);
    One(SHAPE, c, c.at);
    Two(SHAPE, b, c, b.at);
    AlignedSum(b.size, c.size, 4);
    One(SHAPE, x, b.at);
    ReplaceTiles(SHAPE, bs[..i], [b, c], [x], bs[i + 2..], 0);
    ReplacedUsed(bs, i, 2, [x]);
  }

  /** What growing block `i` into its free successor makes of the heap. */
  function GrowAt(bs: seq<Block>, i: nat, total: nat): seq<Block>
    requires i + 1 < |bs| && total <= bs[i].size + bs[i + 1].size
  {
    var s := Swallow(bs, i);
    if s[i].size - total >= SHAPE.least then Cut(s, i, total) else s
  }

  /** What shrinking block `i` makes of the heap. */
  function ShrinkAt(bs: seq<Block>, i: nat, total: nat): seq<Block>
    requires i < |bs| && total <= bs[i].size
  {
    if bs[i].size - total >= SHAPE.least then CoalesceFrom(Cut(bs, i, total), 0) else bs
  }

  lemma GrowKeeps(bs: seq<Block>, i: nat, total: nat)
    requires HeapOk(SHAPE, bs, HEAP) && i + 1 < |bs| && !bs[i].free && bs[i + 1].free
    requires HEADER <= total <= bs[i].size + bs[i + 1].size && Aligned(total, 4)
    ensures HeapOk(SHAPE, GrowAt(bs, i, total), HEAP) && UsedKept(bs, GrowAt(bs, i, total), bs[i].at)
  {
    hide Tiles, Total, Aligned, NoTwoFree, UsedKept;
    var s := Swallow(bs, i);
    SwallowKeeps(bs, i);
    SwallowApart(bs, i);
    if s[i].size - total >= SHAPE.least {
      CutKeeps(s, i, total, false);
      GrowApart(bs, i, total);
      UsedTrans(bs, s, Cut(s, i, total), bs[i].at);
    }
  }

  lemma SwallowApart(bs: seq<Block>, i: nat)
    requires NoTwoFree(bs) && i + 1 < |bs|
    ensures NoTwoFree(Swallow(bs, i))
  {
    var s := Swallow(bs, i);
    assert forall j :: 0 <= j < |s| ==> s[j].free == (if j < i then bs[j].free else if j == i then false else bs[j + 1].free);
  }

  lemma GrowApart(bs: seq<Block>, i: nat, total: nat)
    requires NoTwoFree(bs) && i + 1 < |bs| && bs[i + 1].free && total <= bs[i].size + bs[i + 1].size
    ensures NoTwoFree(Cut(Swallow(bs, i), i, total))
  {
    var r := Cut(Swallow(bs, i), i, total);
    assert forall j :: 0 <= j < |r| ==> r[j].free == (if j == i then false else bs[j].free);
  }

  /** After growing in place block `i` is used, at its place, and has at least `total` bytes, but less than 20 more. If the two
      blocks exceed `total` by 20 bytes, header included, the rest follows as a free block; all other blocks are as before. */
  lemma GrownExactly(bs: seq<Block>, i: nat, total: nat)
    requires i + 1 < |bs| && !bs[i].free && bs[i + 1].free && total <= bs[i].size + bs[i + 1].size
    ensures var r, both := GrowAt(bs, i, total), bs[i].size + bs[i + 1].size;
            && i < |r| && r[i].at == bs[i].at && !r[i].free && total <= r[i].size < total + 20 && r[..i] == bs[..i]
            && if both >= total + 20 then
                 |r| == |bs| && r[i].size == total && r[i + 1] == Block(bs[i].at + total, both - total, true) && r[i + 2..] == bs[i + 2..]
               else
                 |r| == |bs| - 1 && r[i].size == both && r[i + 1..] == bs[i + 2..]
  {
  }

  /** After shrinking block `i` is used, at its place, and has at least `total` bytes, but less than 20 more. What it exceeds
      `total` by, if that is 20 bytes or more, follows as a free block together with a free successor; all other blocks are as
      before. */
  lemma ShrunkExactly(bs: seq<Block>, i: nat, total: nat)
    requires NoTwoFree(bs) && i < |bs| && !bs[i].free && total <= bs[i].size
    ensures var r, next := ShrinkAt(bs, i, total), i + 1 < |bs| && bs[i + 1].free;
            && i < |r| && r[i].at == bs[i].at && !r[i].free && total <= r[i].size < total + 20 && r[..i] == bs[..i]
            && if bs[i].size < total + 20 then r == bs
               else
                 && r[i].size == total && i + 1 < |r|
                 && r[i + 1] == Block(bs[i].at + total, bs[i].size - total + (if next then bs[i + 1].size else 0), true)
                 && r[i + 2..] == bs[if next then i + 2 else i + 1..]
  {
    hide CoalesceFrom, NoTwoFree;
    if bs[i].size >= total + 20 {
      var c, d := Cut(bs, i, total), CutJoined(bs, i, total);
      CutTwins(bs, i, total);
      NothingToMerge(c, 0, i + 1);
      if d != c { CoalesceStep(c, i + 1); }
      NothingToMerge(d, i + 1, |d|);
      CoalesceEnd(d);
    }
  }

  /** The cut-off rest joined with a free successor. */
  function CutJoined(bs: seq<Block>, i: nat, total: nat): seq<Block>
    requires i < |bs| && total <= bs[i].size
  {
    if i + 1 < |bs| && bs[i + 1].free then MergeAt(Cut(bs, i, total), i + 1) else Cut(bs, i, total)
  }

  lemma CutTwins(bs: seq<Block>, i: nat, total: nat)
    requires NoTwoFree(bs) && i < |bs| && !bs[i].free && total <= bs[i].size
    ensures var c, d := Cut(bs, i, total), CutJoined(bs, i, total);
            && |c| == |bs| + 1 && (forall j :: 0 <= j < i + 1 ==> !TwinsAt(c, j))
            && (d != c ==> TwinsAt(c, i + 1)) && i + 1 < |d| && forall j :: i + 1 <= j < |d| ==> !TwinsAt(d, j)
  {
    var c, d := Cut(bs, i, total), CutJoined(bs, i, total);
    assert forall j :: 0 <= j < |c| ==> c[j].free == if j <= i then j < i && bs[j].free else j == i + 1 || bs[j - 1].free;
    assert forall j :: i + 2 <= j < |d| ==> d[j] == bs[if i + 1 < |bs| && bs[i + 1].free then j else j - 1];
  }

  /** The first request of all is served if and only if, rounded up, it and the header of 12 bytes fit the 16384 bytes. */
  lemma FirstRequest(need: nat)
    ensures (exists b :: b in [Block(0, HEAP, true)] && b.free && b.size >= need + HEADER) <==> need + 12 <= 16384
  {
    assert [Block(0, HEAP, true)][0] in [Block(0, HEAP, true)];
  }

  // ----- where malloc and realloc place a block -----

  /** Block `i` is the first free one with `total` bytes. */
  predicate FirstFitAt(bs: seq<Block>, i: nat, total: nat)
  {
    i < |bs| && bs[i].free && total <= bs[i].size && forall j :: 0 <= j < i && bs[j].free ==> bs[j].size < total
  }

  /** `bs'` is the heap after the first fitting block, which stands at `at`, was handed out. */
  predicate Served(bs: seq<Block>, bs': seq<Block>, at: nat, total: nat)
  {
    exists i :: 0 <= i < |bs| && FirstFitAt(bs, i, total) && bs[i].at == at && bs' == AllocateAt(SHAPE, bs, i, total)
  }

  /** The index of block `i` after `total` bytes of the free block `j` were handed out. */
  function IndexAfter(bs: seq<Block>, i: nat, j: nat, total: nat): nat
    requires j < |bs| && total <= bs[j].size
  {
    if i >= j && bs[j].size - total >= SHAPE.least then i + 1 else i
  }

  /** `bs'` is the heap after block `i` was moved into the first fitting block, which stands at `at`. */
  predicate MovedTo(bs: seq<Block>, bs': seq<Block>, i: nat, at: nat, total: nat)
  {
    exists j :: 0 <= j < |bs| && FirstFitAt(bs, j, total) && bs[j].at == at
                && IndexAfter(bs, i, j, total) < |AllocateAt(SHAPE, bs, j, total)|
                && bs' == FreeAt(AllocateAt(SHAPE, bs, j, total), IndexAfter(bs, i, j, total))
  }

  // ----- payloads -----

  /** The first `n` payload bytes of the block at `at` are the same. */
  predicate PayloadSame(m: seq<Byte>, m': seq<Byte>, at: nat, n: nat)
  {
    |m| == |m'| && forall x :: at + HEADER <= x < at + HEADER + n && x < |m| ==> m'[x] == m[x]
  }

  /** Payloads of all used blocks other than the one at `but` are the same. */
  predicate LiveSame(m: seq<Byte>, m': seq<Byte>, bs: seq<Block>, but: int)
  {
    forall b :: b in bs && !b.free && b.at != but && b.size >= HEADER ==> PayloadSame(m, m', b.at, b.size - HEADER)
  }

  /** Writing inside one block leaves all others alone. */
  lemma OthersSame(bs: seq<Block>, m: seq<Byte>, m': seq<Byte>, i: nat, p: nat, q: nat)
    requires Tiles(SHAPE, bs, 0) && i < |bs| && Outside(m, m', p, q) && bs[i].at <= p && q <= bs[i].at + bs[i].size
    ensures LiveSame(m, m', bs, bs[i].at)
  {
    hide Tiles;
    forall b | b in bs && !b.free && b.at != bs[i].at && b.size >= HEADER ensures PayloadSame(m, m', b.at, b.size - HEADER) {
      var j :| 0 <= j < |bs| && bs[j] == b;
      if j < i { Apart(SHAPE, bs, 0, j, i); } else { Apart(SHAPE, bs, 0, i, j); }
    }
  }

  lemma LiveTrans(m: seq<Byte>, m1: seq<Byte>, m2: seq<Byte>, bs: seq<Block>, bs1: seq<Block>, but: int)
    requires LiveSame(m, m1, bs, but) && UsedKept(bs, bs1, but) && LiveSame(m1, m2, bs1, but) && |m| == |m1| == |m2|
    ensures LiveSame(m, m2, bs, but)
  {
    forall b | b in bs && !b.free && b.at != but && b.size >= HEADER ensures PayloadSame(m, m2, b.at, b.size - HEADER) {
      assert PayloadSame(m, m1, b.at, b.size - HEADER) && PayloadSame(m1, m2, b.at, b.size - HEADER);
    }
  }

  /** Writing the header of a free block, or the rest of it, leaves every live payload alone. */
  lemma FreeWritten(bs: seq<Block>, m: seq<Byte>, m': seq<Byte>, i: nat, p: nat, q: nat)
    requires Tiles(SHAPE, bs, 0) && i < |bs| && bs[i].free && Outside(m, m', p, q) && bs[i].at <= p && q <= bs[i].at + bs[i].size
    ensures LiveSame(m, m', bs, NULL)
  {
    hide Tiles, PayloadSame;
    OthersSame(bs, m, m', i, p, q);
    forall b | b in bs && !b.free && b.size >= HEADER ensures PayloadSame(m, m', b.at, b.size - HEADER) {
      var j :| 0 <= j < |bs| && bs[j] == b;
      if b.at == bs[i].at { SameBlock(SHAPE, bs, i, j); }
    }
  }

  /** Blocks whose size is no multiple of 8. */
  function OddBlocks(bs: seq<Block>): nat
  {
    if bs == [] then 0 else OddBlocks(bs[..|bs| - 1]) + (if bs[|bs| - 1].size % 8 == 0 then 0 else 1)
  }

  /** Payloads are aligned to 4 bytes, but not always to the 8 bytes requests are rounded to: the payload of a block is if
      and only if the blocks in front of it whose size is no multiple of 8 are odd in number; that of the first never is. */
  lemma {:induction false} PayloadAlignment(bs: seq<Block>, i: nat)
    requires HeapOk(SHAPE, bs, HEAP) && i < |bs|
    ensures (bs[i].at + HEADER) % 4 == 0
    ensures (bs[i].at + HEADER) % 8 == 0 <==> OddBlocks(bs[..i]) % 2 == 1
    decreases i
  {
    hide Tiles, Total, NoTwoFree, Aligned;
    BlockStands(SHAPE, bs, 0, i);
    if i == 0 {
      assert Total(bs[..0]) == 0 by { NoBytes(); assert bs[..0] == []; }
    } else {
      PayloadAlignment(bs, i - 1);
      BlockStands(SHAPE, bs, 0, i - 1);
      FourDivides(bs[i - 1].size);
      assert bs[..i][..i - 1] == bs[..i - 1];
      OneFurther(bs[i - 1].at + HEADER, bs[i - 1].size, OddBlocks(bs[..i - 1]));
    }
  }

  lemma OneFurther(p: nat, size: nat, odd: nat)
    requires p % 4 == 0 && size % 4 == 0 && (p % 8 == 0 <==> odd % 2 == 1)
    ensures (p + size) % 4 == 0
    ensures (p + size) % 8 == 0 <==> (odd + (if size % 8 == 0 then 0 else 1)) % 2 == 1
  {
    EightOrFour(p);
    EightOrFour(size);
    EightOrFour(p + size);
  }

  lemma EightOrFour(n: nat)
    ensures n % 4 == 0 <==> n % 8 == 0 || n % 8 == 4
  {
  }

  lemma NoBytes()
    ensures Total([]) == 0
  {
  }

  lemma FourDivides(n: nat)
    requires Aligned(n, 4)
    ensures n % 4 == 0
  {
  }

  // ----- requests -----

  /** `(size + 7) & ~7` on 32-bit words. */
  function Round8(size: nat): nat { Times((size + 7) % TWO_32 / 8, 8) }

  lemma Round8Bounds(size: nat)
    requires size < TWO_32
    ensures Aligned(Round8(size) + HEADER, 4) && Round8(size) < TWO_32 && Round8(size) % 8 == 0
    ensures if size + 7 < TWO_32 then size <= Round8(size) <= size + 7 else Round8(size) == 0
  {
    var q := (size + 7) % TWO_32 / 8;
    assert Round8(size) + HEADER == Times(2 * q + 3, 4);
  }

  const NULLPTR: nat := 0

  class Heap {
    /** The static array; `base` is its address. */
    const mem: array<Byte>
    const base: nat
    var freeListHead: nat
    ghost var blocks: seq<Block>

    ghost predicate Sized()
    {
      mem.Length == HEAP && 0 < base && base + HEAP < TWO_32
    }

    /** Headers in memory describe a tiling of the array. */
    ghost predicate Chained()
      reads this, mem
    {
      && Sized() && freeListHead == base && blocks != []
      && Tiles(SHAPE, blocks, 0) && Total(blocks) == HEAP && Chain(mem[..], base, blocks, 0)
    }

    /** Before the first call there is no heap; afterwards it is tiled without two free neighbours. */
    ghost predicate Valid()
      reads this, mem
    {
      if freeListHead == NULLPTR then Sized() && blocks == [] else Chained() && NoTwoFree(blocks)
    }

    constructor (base: nat)
      requires 0 < base && base + HEAP < TWO_32
      ensures Valid() && blocks == [] && this.base == base && fresh(mem)
    {
      mem := new Byte[HEAP];
      this.base := base;
      freeListHead := NULLPTR;
      blocks := [];
    }

    // ----- memory words -----

    method PutWord(p: nat, v: nat)
      requires p + 4 <= mem.Length && v < TWO_32
      modifies mem
      ensures GetWord(mem[..], p) == v && Outside(old(mem[..]), mem[..], p, p + 4)
    {
      WordParts(v);
      mem[p], mem[p + 1], mem[p + 2], mem[p + 3] := v % 0x100, v / 0x100 % 0x100, v / 0x1_0000 % 0x100, v / 0x100_0000;
    }

    function WordAt(p: nat): nat
      reads mem
      requires p + 4 <= mem.Length
    {
      GetWord(mem[..], p)
    }

    /** Header of block `i` as read from memory. */
    lemma Look(i: nat)
      requires Chained() && i < |blocks|
      ensures blocks[i].at + HEADER <= blocks[i].at + blocks[i].size <= HEAP
      ensures WordAt(blocks[i].at) == blocks[i].size - HEADER && mem[blocks[i].at + 4] == (if blocks[i].free then 1 else 0)
      ensures WordAt(blocks[i].at + 8) == FirstAddress(base, blocks[i + 1..], 0)
      ensures i + 1 < |blocks| ==> blocks[i + 1].at == blocks[i].at + blocks[i].size
      ensures HeadAt(mem[..], blocks[i], FirstAddress(base, blocks[i + 1..], 0))
      ensures i == 0 ==> blocks[i].at == 0
      ensures i == |blocks| - 1 <==> blocks[i].at + blocks[i].size == HEAP
    {
      hide Tiles, Chain;
      HeadOf(mem[..], base, blocks, 0, i);
      BlockStands(SHAPE, blocks, 0, i);
      if i + 1 < |blocks| { BlockStands(SHAPE, blocks, 0, i + 1); }
    }

    method InitHeap()
      requires Sized() && blocks == []
      modifies this, mem
      ensures Chained() && NoTwoFree(blocks) && blocks == [Block(0, HEAP, true)]
    {
      freeListHead := base;
      WriteHead(0, HEAP - HEADER, true, NULLPTR);
      blocks := [Block(0, HEAP, true)];
      One(SHAPE, blocks[0], 0);
      assert Aligned(HEAP, 4) by { assert HEAP == Times(4096, 4); }
      OneHead(mem[..], base, blocks[0], 0);
    }

    /** Replaces blocks [i, i + n) after their headers have been written. */
    lemma Rewritten(m: seq<Byte>, bs: seq<Block>, i: nat, n: nat, mid: seq<Block>)
      requires Sized() && freeListHead == base && |m| == HEAP && Tiles(SHAPE, bs, 0) && Chain(m, base, bs, 0)
      requires n > 0 && i + n <= |bs| && mid != [] && mid[0].at == bs[i].at
      requires Outside(m, mem[..], bs[i].at, bs[i + n - 1].at + bs[i + n - 1].size)
      requires Chain(mem[..], base, mid, FirstAddress(base, bs[i + n..], 0))
      requires blocks == bs[..i] + mid + bs[i + n..] && Tiles(SHAPE, blocks, 0) && Total(blocks) == HEAP
      ensures Chained()
    {
      hide Chain, Tiles, Outside;
      RewriteRun(m, mem[..], base, bs, i, n, mid);
    }

    /** Sets the free flag of block `i`. */
    method Mark(ghost i: nat, at: nat, free: bool)
      requires Chained() && i < |blocks| && blocks[i].at == at
      modifies this`blocks, mem
      ensures Chained() && blocks == old(blocks)[..i] + [old(blocks)[i].(free := free)] + old(blocks)[i + 1..]
      ensures Outside(old(mem[..]), mem[..], at, at + HEADER)
    {
      hide Chain, Tiles, Total;
      ghost var m, bs := mem[..], blocks;
      Look(i);
      mem[at + 4] := if free then 1 else 0;
      ghost var b := bs[i].(free := free);
      OneHead(mem[..], base, b, FirstAddress(base, bs[i + 1..], 0));
      blocks := bs[..i] + [b] + bs[i + 1..];
      Remarked(SHAPE, bs, i, free);
      Rewritten(m, bs, i, 1, [b]);
    }

    /** Adds the free successor of block `i` to it. */
    method Absorb(ghost i: nat, at: nat)
      requires Chained() && i + 1 < |blocks| && blocks[i].at == at && blocks[i + 1].free
      modifies this`blocks, mem
      ensures Chained() && Outside(old(mem[..]), mem[..], at, at + HEADER)
      ensures blocks == if old(blocks)[i].free then MergeAt(old(blocks), i) else Swallow(old(blocks), i)
    {
      hide Chain, Tiles, Total, HeadAt, GetWord, UsedKept;
      ghost var m, bs := mem[..], blocks;
      Look(i);
      Look(i + 1);
      var next := WordAt(at + 8) - base;
      SetSizeNext(at, WordAt(at) + HEADER + WordAt(next), WordAt(next + 8), bs[i].free);
      ghost var b := Block(at, bs[i].size + bs[i + 1].size, bs[i].free);
      OneHead(mem[..], base, b, FirstAddress(base, bs[i + 2..], 0));
      blocks := bs[..i] + [b] + bs[i + 2..];
      if bs[i].free { MergeKeeps(SHAPE, bs, i); } else { SwallowKeeps(bs, i); }
      Rewritten(m, bs, i, 2, [b]);
    }

    /** Cuts block `i` after `size` payload bytes; the rest becomes a free block. */
    method CutBlock(ghost i: nat, at: nat, size: nat)
      requires Chained() && i < |blocks| && blocks[i].at == at && size + HEADER + SHAPE.least <= blocks[i].size && Aligned(size + HEADER, 4)
      modifies this`blocks, mem
      ensures Chained() && Outside(old(mem[..]), mem[..], at, at + old(blocks)[i].size)
      ensures PayloadSame(old(mem[..]), mem[..], at, size)
      ensures blocks == CutAs(old(blocks), i, size + HEADER, old(blocks)[i].free)
    {
      hide Chain, Tiles, Total, Aligned, HeadAt, GetWord, UsedKept;
      ghost var m, bs := mem[..], blocks;
      Look(i);
      var rest := at + HEADER + size;
      ghost var end := FirstAddress(base, bs[i + 1..], 0);
      WriteHead(rest, WordAt(at) - size - HEADER, true, WordAt(at + 8));
      ghost var m1 := mem[..];
      SetSizeNext(at, size, base + rest, bs[i].free);
      ghost var b, c := Block(at, size + HEADER, bs[i].free), Block(rest, bs[i].size - size - HEADER, true);
      HeadSame(m1, mem[..], c, end);
      TwoHeads(mem[..], base, b, c, end);
      blocks := CutAs(bs, i, size + HEADER, bs[i].free);
      CutKeeps(bs, i, size + HEADER, bs[i].free);
      Rewritten(m, bs, i, 1, [b, c]);
    }

    method WriteHead(at: nat, size: nat, free: bool, next: nat)
      requires at + HEADER <= mem.Length && size < TWO_32 && next < TWO_32
      modifies mem
      ensures HeadAt(mem[..], Block(at, size + HEADER, free), next) && Outside(old(mem[..]), mem[..], at, at + HEADER)
    {
      PutWord(at, size);
      mem[at + 4] := if free then 1 else 0;
      PutWord(at + 8, next);
    }

    /** Writes size and successor of a block whose flag stays. */
    method SetSizeNext(at: nat, size: nat, next: nat, ghost free: bool)
      requires at + HEADER <= mem.Length && size < TWO_32 && next < TWO_32 && mem[at + 4] == (if free then 1 else 0)
      modifies mem
      ensures HeadAt(mem[..], Block(at, size + HEADER, free), next) && Outside(old(mem[..]), mem[..], at, at + HEADER)
    {
      PutWord(at, size);
      PutWord(at + 8, next);
    }

    // ----- the interface -----

    /** Merges all neighbouring free blocks in one pass. */
    method Coalesce()
      requires Chained()
      modifies this`blocks, mem
      ensures Chained() && NoTwoFree(blocks) && blocks == CoalesceFrom(old(blocks), 0)
      ensures LiveSame(old(mem[..]), mem[..], old(blocks), NULL)
    {
      hide Tiles, Chain, Total, CoalesceFrom, NoTwoFree, LiveSame, UsedKept, Outside, TwinsAt;
      ghost var m0, bs0 := mem[..], blocks;
      CoalescedApart(blocks, 0);
      var curr := freeListHead;
      ghost var i := 0;
      assert blocks[0..] == blocks;
      Look(0);
      NothingWritten(m0, bs0);
      while curr != NULLPTR
        invariant Chained() && i <= |blocks| && curr == FirstAddress(base, blocks[i..], 0)
        invariant CoalesceFrom(blocks, i) == CoalesceFrom(bs0, 0)
        invariant LiveSame(m0, mem[..], bs0, NULL) && UsedKept(bs0, blocks, NULL)
        decreases |blocks| - i
      {
        var at := curr - base;
        ghost var n := |blocks|;
        Look(i);
        if mem[at + 4] == 1 {
          MergeBehind(i, at, m0, bs0);
        } else {
          UsedIsNoTwin(blocks, i);
        }
        Look(i);
        Visited(blocks, i);
        curr := WordAt(at + 8);
        i := i + 1;
      }
      CoalesceEnd(blocks);
    }

    lemma NothingWritten(m: seq<Byte>, bs: seq<Block>)
      ensures LiveSame(m, m, bs, NULL) && UsedKept(bs, bs, NULL)
    {
    }

    lemma Visited(bs: seq<Block>, i: nat)
      requires i < |bs| && !TwinsAt(bs, i)
      ensures CoalesceFrom(bs, i) == CoalesceFrom(bs, i + 1)
    {
    }

    /** The inner loop: the free block `i` takes in the free blocks behind it. */
    method MergeBehind(ghost i: nat, at: nat, ghost m0: seq<Byte>, ghost bs0: seq<Block>)
      requires Chained() && i < |blocks| && blocks[i].at == at && blocks[i].free
      requires |m0| == HEAP && LiveSame(m0, mem[..], bs0, NULL) && UsedKept(bs0, blocks, NULL)
      modifies this`blocks, mem
      ensures Chained() && i < |blocks| <= |old(blocks)| && blocks[i].at == at && !TwinsAt(blocks, i)
      ensures CoalesceFrom(blocks, i) == CoalesceFrom(old(blocks), i)
      ensures LiveSame(m0, mem[..], bs0, NULL) && UsedKept(bs0, blocks, NULL)
    {
      hide Tiles, Chain, Total, CoalesceFrom, LiveSame, UsedKept, Outside, TwinsAt;
      ghost var goal := CoalesceFrom(blocks, i);
      Look(i);
      var next := WordAt(at + 8);
      NextFree(i, at, next);
      while next != NULLPTR && mem[next - base + 4] == 1
        invariant Chained() && i < |blocks| <= |old(blocks)| && blocks[i].at == at && blocks[i].free
        invariant at + 12 <= mem.Length && next == WordAt(at + 8)
        invariant next != NULLPTR ==> base <= next && next - base + 4 < mem.Length
        invariant next != NULLPTR && mem[next - base + 4] == 1 <==> TwinsAt(blocks, i)
        invariant CoalesceFrom(blocks, i) == goal
        invariant LiveSame(m0, mem[..], bs0, NULL) && UsedKept(bs0, blocks, NULL)
        decreases |blocks|
      {
        ghost var m, bs := mem[..], blocks;
        TwinsMean(bs, i);
        CoalesceStep(bs, i);
        MergeSize(bs, i);
        MergedHead(bs, i);
        MergeUsed(bs, i);
        Look(i);
        Absorb(i, at);
        FreeWritten(bs, m, mem[..], i, at, at + HEADER);
        LiveTrans(m0, m, mem[..], bs0, bs, NULL);
        UsedTrans(bs0, bs, blocks, NULL);
        Look(i);
        next := WordAt(at + 8);
        NextFree(i, at, next);
      }
    }

    lemma NextFree(i: nat, at: nat, next: nat)
      requires Chained() && i < |blocks| && blocks[i].at == at && at + 12 <= mem.Length && next == WordAt(at + 8) && blocks[i].free
      ensures next != NULLPTR ==> base <= next && next - base + 4 < mem.Length
      ensures next != NULLPTR && mem[next - base + 4] == 1 <==> TwinsAt(blocks, i)
    {
      hide Tiles, Chain;
      Look(i);
      if i + 1 < |blocks| { Look(i + 1); }
    }

    /** The heap as malloc finds it: created on the first call. */
    ghost function Started(): seq<Block>
      reads this
    {
      if freeListHead == NULLPTR then [Block(0, HEAP, true)] else blocks
    }

    /** First block in address order with room for `size` payload bytes, or NULL. */
    method FindFit(size: nat) returns (curr: nat, ghost i: nat)
      requires Chained()
      ensures curr == NULLPTR ==> forall b :: b in blocks && b.free ==> b.size < size + HEADER
      ensures curr != NULLPTR ==>
                && i < |blocks| && curr == base + blocks[i].at && blocks[i].free && blocks[i].size >= size + HEADER
                && forall j :: 0 <= j < i && blocks[j].free ==> blocks[j].size < size + HEADER
    {
      hide Tiles, Chain, Total;
      curr, i := freeListHead, 0;
      assert blocks[0..] == blocks;
      Look(0);
      while curr != NULLPTR
        invariant i <= |blocks| && curr == FirstAddress(base, blocks[i..], 0)
        invariant forall j :: 0 <= j < i && blocks[j].free ==> blocks[j].size < size + HEADER
        decreases |blocks| - i
      {
        Look(i);
        var at := curr - base;
        if mem[at + 4] == 1 && WordAt(at) >= size { return; }
        curr := WordAt(at + 8);
        i := i + 1;
      }
    }

    /** malloc: the first fitting block, or NULL exactly when nothing is asked for or no free block is large enough. Live
        payloads keep their bytes. */
    method Malloc(size: nat) returns (p: nat, ghost i: nat)
      requires Valid() && size < TWO_32
      modifies this, mem
      ensures Valid()
      ensures p == NULLPTR <==> size == 0 || forall b :: b in old(Started()) && b.free ==> b.size < Round8(size) + HEADER
      ensures p == NULLPTR ==> blocks == if size == 0 then old(blocks) else old(Started())
      ensures p != NULLPTR ==>
                var bs, total := old(Started()), Round8(size) + HEADER;
                && FirstFitAt(bs, i, total) && p == base + bs[i].at + HEADER
                && blocks == AllocateAt(SHAPE, bs, i, total) && freeListHead == base
      ensures LiveSame(old(mem[..]), mem[..], old(blocks), NULL)
      ensures old(freeListHead) != NULLPTR && p == NULLPTR ==> mem[..] == old(mem[..])
    {
      hide Tiles, Chain, Total, LiveSame, NoTwoFree, Round8;
      p, i := NULLPTR, 0;
      ghost var m0, bs0 := mem[..], blocks;
      NothingWritten(m0, bs0);
      if size == 0 { return; }
      var need := Round8(size);
      Round8Bounds(size);
      if freeListHead == NULLPTR {
        InitHeap();
        NoBlocks(m0, mem[..]);
      }
      var curr;
      curr, i := FindFit(need);
      if curr == NULLPTR { return; }
      ShapeIsOk();
      AllocateKeeps(SHAPE, blocks, HEAP, i, need + HEADER);
      Hand(i, curr - base, need, m0, bs0);
      p := curr + HEADER;
    }

    lemma NoBlocks(m: seq<Byte>, m': seq<Byte>)
      ensures LiveSame(m, m', [], NULL)
    {
    }

    /** Splits the free block `i` if the rest is worth it, and marks it used. */
    method Hand(ghost i: nat, at: nat, need: nat, ghost m0: seq<Byte>, ghost bs0: seq<Block>)
      requires Chained() && i < |blocks| && blocks[i].at == at && blocks[i].free && need + HEADER <= blocks[i].size && Aligned(need + HEADER, 4)
      requires |m0| == HEAP && LiveSame(m0, mem[..], bs0, NULL) && (bs0 == [] || bs0 == blocks)
      modifies this`blocks, mem
      ensures Chained() && blocks == AllocateAt(SHAPE, old(blocks), i, need + HEADER)
      ensures LiveSame(m0, mem[..], bs0, NULL)
    {
      hide Tiles, Chain, Total, LiveSame, Outside, Aligned;
      ghost var m, bs := mem[..], blocks;
      Look(i);
      if WordAt(at) >= need + HEADER + 8 {
        CutBlock(i, at, need);
        FreeWritten(bs, m, mem[..], i, at, at + bs[i].size);
      } else {
        NothingWritten(m, bs);
      }
      ghost var m1, bs1 := mem[..], blocks;
      Mark(i, at, false);
      HandedOut(bs, bs1, blocks, i, need + HEADER);
      FreeWritten(bs1, m1, mem[..], i, at, at + HEADER);
      UsedBefore(bs, bs1, i);
      LiveTrans(m, m1, mem[..], bs, bs1, NULL);
      if bs0 == [] { NoBlocks(m0, mem[..]); } else { KeptSelf(bs); LiveTrans(m0, m, mem[..], bs, bs, NULL); }
    }

    lemma KeptSelf(bs: seq<Block>)
      ensures UsedKept(bs, bs, NULL)
    {
    }

    lemma HandedOut(bs: seq<Block>, bs1: seq<Block>, bs2: seq<Block>, i: nat, total: nat)
      requires i < |bs| && total <= bs[i].size && bs[i].free
      requires bs1 == if bs[i].size - total >= SHAPE.least then CutAs(bs, i, total, true) else bs
      requires i < |bs1| && bs2 == bs1[..i] + [bs1[i].(free := false)] + bs1[i + 1..]
      ensures bs2 == AllocateAt(SHAPE, bs, i, total) && bs1[i].free && bs1[i].at == bs[i].at
    {
    }

    lemma UsedBefore(bs: seq<Block>, bs1: seq<Block>, i: nat)
      requires i < |bs| && bs[i].free && (bs1 == bs || exists total: nat :: total <= bs[i].size && bs1 == CutAs(bs, i, total, true))
      ensures UsedKept(bs, bs1, NULL)
    {
      if bs1 != bs {
        var total: nat :| total <= bs[i].size && bs1 == CutAs(bs, i, total, true);
        forall b | b in bs && !b.free ensures b in bs1 {
          var j :| 0 <= j < |bs| && bs[j] == b;
          assert b == bs1[if j < i then j else j + 1];
        }
      }
    }

    /** free: the block is released and all neighbouring free blocks are merged. Other live payloads keep their bytes. */
    method Free(ptr: nat, ghost i: nat)
      requires Valid() && (ptr != NULLPTR ==> i < |blocks| && ptr == base + blocks[i].at + HEADER)
      modifies this`blocks, mem
      ensures Valid()
      ensures blocks == if ptr == NULLPTR || old(blocks)[i].free then old(blocks) else FreeAt(old(blocks), i)
      ensures LiveSame(old(mem[..]), mem[..], old(blocks), if ptr == NULLPTR then NULL else old(blocks)[i].at)
    {
      hide Tiles, Chain, Total, LiveSame, NoTwoFree, Outside, CoalesceFrom, FreeAt, MarkFree;
      ghost var m, bs := mem[..], blocks;
      if ptr == NULLPTR {
        NothingWritten(m, bs);
        return;
      }
      var at := ptr - HEADER - base;
      Look(i);
      Mark(i, at, true);
      ghost var m1, bs1 := mem[..], blocks;
      OthersSame(bs, m, m1, i, at, at + HEADER);
      Coalesce();
      Released(bs, bs1, i);
      LiveWeaken(m1, mem[..], bs1, at);
      LiveTrans(m, m1, mem[..], bs, bs1, at);
    }

    // ----- realloc -----

    /** Shrinks the used block `i` in place; a rest worth it is released. */
    method Shrink(ghost i: nat, at: nat, need: nat)
      requires Chained() && NoTwoFree(blocks) && i < |blocks| && blocks[i].at == at && !blocks[i].free
      requires need + HEADER <= blocks[i].size && Aligned(need + HEADER, 4)
      modifies this`blocks, mem
      ensures Chained() && NoTwoFree(blocks) && blocks == ShrinkAt(old(blocks), i, need + HEADER)
      ensures Retained(old(mem[..]), mem[..], old(blocks), blocks, i, at, need)
    {
      hide Tiles, Chain, Total, LiveSame, NoTwoFree, Outside, CoalesceFrom, Aligned, PayloadSame, UsedKept;
      ghost var m, bs := mem[..], blocks;
      Look(i);
      if WordAt(at) >= need + HEADER + 8 {
        CutBlock(i, at, need);
        ghost var m1, bs1 := mem[..], blocks;
        OthersSame(bs, m, m1, i, at, at + bs[i].size);
        CutKeeps(bs, i, need + HEADER, false);
        CoalesceKeeps(bs1, 0);
        Coalesce();
        ShrunkRetained(m, m1, mem[..], bs, bs1, blocks, i, at, need);
      } else {
        StillRetained(m, bs, i, at, need);
      }
    }

    /** Grows the used block `i` into its free successor. */
    method Grow(ghost i: nat, at: nat, need: nat)
      requires Chained() && NoTwoFree(blocks) && i + 1 < |blocks| && blocks[i].at == at && !blocks[i].free && blocks[i + 1].free
      requires blocks[i].size < need + HEADER <= blocks[i].size + blocks[i + 1].size && Aligned(need + HEADER, 4)
      modifies this`blocks, mem
      ensures Chained() && NoTwoFree(blocks) && blocks == GrowAt(old(blocks), i, need + HEADER)
      ensures Retained(old(mem[..]), mem[..], old(blocks), blocks, i, at, need)
    {
      hide Tiles, Chain, Total, LiveSame, NoTwoFree, Outside, Aligned, PayloadSame, UsedKept;
      ghost var m, bs := mem[..], blocks;
      Look(i);
      GrowKeeps(bs, i, need + HEADER);
      SwallowKeeps(bs, i);
      Absorb(i, at);
      ghost var m1, bs1 := mem[..], blocks;
      OthersSame(bs, m, m1, i, at, at + HEADER);
      HeaderOnly(m, m1, at);
      Swallowed(bs, i);
      Look(i);
      if WordAt(at) >= need + HEADER + 8 {
        CutBlock(i, at, need);
        OthersSame(bs1, m1, mem[..], i, at, at + bs1[i].size);
      } else {
        NothingWritten(m1, bs1);
        LiveWeaken(m1, m1, bs1, at);
        AllSame(m1, at, need);
      }
      GrownRetained(m, m1, mem[..], bs, bs1, blocks, i, at, need);
    }

    /** Copies payload bytes into the used block `j`. */
    method CopyPayload(ghost j: nat, to: nat, from: nat, n: nat)
      requires Chained() && NoTwoFree(blocks) && j < |blocks| && to == blocks[j].at + HEADER && to + n <= blocks[j].at + blocks[j].size
      requires from + n <= HEAP && (from + n <= to || to + n <= from)
      modifies mem
      ensures Chained() && NoTwoFree(blocks) && CopiedTo(old(mem[..]), mem[..], from, to, n)
      ensures LiveSame(old(mem[..]), mem[..], blocks, blocks[j].at)
    {
      hide Tiles, Chain, Total, LiveSame, NoTwoFree;
      Look(j);
      ghost var m := mem[..];
      for k := 0 to n
        invariant Outside(m, mem[..], to, to + n)
        invariant forall x :: to <= x < to + k ==> mem[x] == m[x - to + from]
      {
        mem[to + k] := mem[from + k];
      }
      OthersSame(blocks, m, mem[..], j, to, to + n);
      PayloadWriteKeeps(m, blocks, j, to, to + n);
    }

    lemma PayloadWriteKeeps(m: seq<Byte>, bs: seq<Block>, j: nat, p: nat, q: nat)
      requires Sized() && Tiles(SHAPE, bs, 0) && Chain(m, base, bs, 0) && |m| == HEAP && j < |bs|
      requires bs[j].at + HEADER <= p && q <= bs[j].at + bs[j].size && Outside(m, mem[..], p, q)
      ensures Chain(mem[..], base, bs, 0)
    {
      hide Tiles, Chain;
      forall i, x | 0 <= i < |bs| && bs[i].at <= x < bs[i].at + HEADER && x < |m| ensures mem[x] == m[x] {
        BlockStands(SHAPE, bs, 0, i);
        if i < j { Apart(SHAPE, bs, 0, i, j); }
        if j < i { Apart(SHAPE, bs, 0, j, i); }
      }
      ChainFrame(m, mem[..], base, bs, 0);
    }

    /** Allocates anew, copies, and releases the old block; without room nothing changes. */
    method Relocate(ptr: nat, size: nat, ghost i: nat) returns (q: nat)
      requires Valid() && freeListHead == base && 0 < size < TWO_32 && i < |blocks| && ptr == base + blocks[i].at + HEADER && !blocks[i].free
      requires Round8(size) == size && blocks[i].size < size + HEADER
      modifies this, mem
      ensures Valid()
      ensures q == NULLPTR <==> forall b :: b in old(blocks) && b.free ==> b.size < size + HEADER
      ensures q == NULLPTR ==> blocks == old(blocks) && mem[..] == old(mem[..])
      ensures q != NULLPTR ==> q >= base + HEADER && Retained(old(mem[..]), mem[..], old(blocks), blocks, i, q - base - HEADER, size)
      ensures q != NULLPTR ==> MovedTo(old(blocks), blocks, i, q - base - HEADER, size + HEADER)
    {
      hide Tiles, Chain, Total, LiveSame, NoTwoFree, Outside, AllocateAt, FreeAt, UsedKept, CopiedTo, Retained, Round8;
      ghost var m, bs := mem[..], blocks;
      Look(i);
      Round8Bounds(size);
      ghost var j;
      q, j := Malloc(size);
      if q == NULLPTR { return; }
      ghost var m1, bs1 := mem[..], blocks;
      ghost var i1 := OldBlock(bs, i, j, size + HEADER);
      ghost var m2 := CopyAndFree(ptr, q, size, i1, j);
      FreeUsed(bs1, i1);
      UsedNotAt(bs, j);
      RelocatedRetained(m, m1, m2, mem[..], bs, bs1, blocks, i, i1, j, q - HEADER - base, size);
      assert FirstFitAt(bs, j, size + HEADER);
    }

    /** Copies the payload of block `i1` into the larger block `j` and releases `i1`. */
    method CopyAndFree(ptr: nat, q: nat, size: nat, ghost i1: nat, ghost j: nat) returns (ghost m2: seq<Byte>)
      requires Chained() && NoTwoFree(blocks) && i1 < |blocks| && j < |blocks| && i1 != j && !blocks[i1].free
      requires ptr == base + blocks[i1].at + HEADER && q == base + blocks[j].at + HEADER && blocks[i1].size < size + HEADER <= blocks[j].size
      modifies this, mem
      ensures Chained() && NoTwoFree(blocks) && blocks == FreeAt(old(blocks), i1)
      ensures var a, b := old(blocks)[i1], old(blocks)[j];
              && HEADER <= a.size && a.at + a.size <= HEAP && b.at + b.size <= HEAP && a.at != b.at && |m2| == HEAP
              && CopiedTo(old(mem[..]), m2, a.at + HEADER, b.at + HEADER, a.size - HEADER)
              && LiveSame(old(mem[..]), m2, old(blocks), b.at) && LiveSame(m2, mem[..], old(blocks), a.at)
    {
      hide Tiles, Chain, Total, LiveSame, NoTwoFree, Outside, FreeAt, CopiedTo;
      Look(i1);
      Look(j);
      var at, to := ptr - HEADER - base, q - HEADER - base;
      var copySize := if WordAt(at) < size then WordAt(at) else size;
      ApartBlocks(i1, j);
      CopyPayload(j, to + HEADER, at + HEADER, copySize);
      m2 := mem[..];
      Free(ptr, i1);
    }

    lemma ApartBlocks(i: nat, j: nat)
      requires Chained() && i < |blocks| && j < |blocks| && i != j
      ensures blocks[i].at + blocks[i].size <= blocks[j].at || blocks[j].at + blocks[j].size <= blocks[i].at
    {
      if i < j { Apart(SHAPE, blocks, 0, i, j); } else { Apart(SHAPE, blocks, 0, j, i); }
    }

    /** Where the old block is after the allocation. */
    lemma OldBlock(bs: seq<Block>, i: nat, j: nat, total: nat) returns (i1: nat)
      requires i < |bs| && j < |bs| && !bs[i].free && bs[j].free && total <= bs[j].size
      ensures var bs1 := AllocateAt(SHAPE, bs, j, total);
              && i1 == IndexAfter(bs, i, j, total) && i1 < |bs1| && bs1[i1] == bs[i] && i1 != j && j < |bs1| && UsedKept(bs, bs1, NULL)
              && bs1[j].at == bs[j].at && !bs1[j].free && bs1[j].size >= total
    {
      i1 := IndexAfter(bs, i, j, total);
      var bs1 := AllocateAt(SHAPE, bs, j, total);
      forall b | b in bs && !b.free ensures b in bs1 {
        var n :| 0 <= n < |bs| && bs[n] == b;
        assert b == bs1[if n < j then n else if bs[j].size - total >= SHAPE.least then n + 1 else n];
      }
    }

    /** realloc: shrinks in place, grows into a free successor, or moves. The first min(old, new) payload bytes and all
        other live payloads are kept; on failure the original block is intact. */
    method Realloc(ptr: nat, size: nat, ghost i: nat) returns (q: nat)
      requires Valid() && size < TWO_32 && (ptr != NULLPTR ==> i < |blocks| && ptr == base + blocks[i].at + HEADER && !blocks[i].free)
      modifies this, mem
      ensures Valid()
      ensures ptr == NULLPTR ==>
                && (q == NULLPTR <==> size == 0 || forall b :: b in old(Started()) && b.free ==> b.size < Round8(size) + HEADER)
                && (q == NULLPTR ==> blocks == if size == 0 then old(blocks) else old(Started()))
                && (q != NULLPTR ==> q >= base + HEADER && Served(old(Started()), blocks, q - base - HEADER, Round8(size) + HEADER))
                && LiveSame(old(mem[..]), mem[..], old(blocks), NULL)
      ensures ptr != NULLPTR && size == 0 ==> q == NULLPTR && blocks == FreeAt(old(blocks), i) && LiveSame(old(mem[..]), mem[..], old(blocks), old(blocks)[i].at)
      ensures ptr != NULLPTR && size != 0 ==>
                var bs, total := old(blocks), Round8(size) + HEADER;
                if q == NULLPTR then
                  && blocks == bs && mem[..] == old(mem[..]) && bs[i].size < total
                  && (forall b :: b in bs && b.free ==> b.size < total)
                  && (i + 1 < |bs| && bs[i + 1].free ==> bs[i].size + bs[i + 1].size < total)
                else
                  && q >= base + HEADER && Retained(old(mem[..]), mem[..], bs, blocks, i, q - base - HEADER, Round8(size))
                  && (bs[i].size >= total ==> q == ptr && blocks == ShrinkAt(bs, i, total))
                  && (bs[i].size < total && i + 1 < |bs| && bs[i + 1].free && bs[i].size + bs[i + 1].size >= total ==>
                        q == ptr && blocks == GrowAt(bs, i, total))
                  && (bs[i].size < total && !(i + 1 < |bs| && bs[i + 1].free && bs[i].size + bs[i + 1].size >= total) ==>
                        MovedTo(bs, blocks, i, q - base - HEADER, total))
    {
      hide Tiles, Chain, Total, LiveSame, NoTwoFree, Outside, Round8, Retained, FreeAt, ShrinkAt, GrowAt, MovedTo;
      if ptr == NULLPTR {
        ghost var j;
        q, j := Malloc(size);
        return;
      }
      if size == 0 {
        Free(ptr, i);
        return NULLPTR;
      }
      var need := Round8(size);
      Round8Bounds(size);
      Round8Again(size);
      var at := ptr - HEADER - base;
      Look(i);
      if WordAt(at) >= need {
        Shrink(i, at, need);
        return ptr;
      }
      var next := WordAt(at + 8);
      if i + 1 < |blocks| { Look(i + 1); }
      if next != NULLPTR && mem[next - base + 4] == 1 && WordAt(at) + HEADER + WordAt(next - base) >= need {
        Grow(i, at, need);
        return ptr;
      }
      q := Relocate(ptr, need, i);
    }
  }

  lemma Round8Again(size: nat)
    requires size < TWO_32
    ensures Round8(Round8(size)) == Round8(size)
  {
  }

  lemma RelocatedRetained(m: seq<Byte>, m1: seq<Byte>, m2: seq<Byte>, m3: seq<Byte>, bs: seq<Block>, bs1: seq<Block>, bs2: seq<Block>,
                          i: nat, i1: nat, j: nat, to: nat, need: nat)
    requires |m| == |m1| == |m2| == |m3| == HEAP
    requires i < |bs| && i1 < |bs1| && j < |bs1| && i1 != j && bs1[i1] == bs[i] && !bs[i].free && !bs1[j].free && bs1[j].at == to
    requires HEADER <= bs[i].size < need + HEADER <= bs1[j].size && bs[i].at + bs[i].size <= HEAP && to + bs1[j].size <= HEAP
    requires bs1[j].at != bs[i].at && bs1[j].at >= 0
    requires LiveSame(m, m1, bs, NULL) && UsedKept(bs, bs1, NULL) && LiveSame(m1, m2, bs1, to) && LiveSame(m2, m3, bs1, bs[i].at)
    requires CopiedTo(m1, m2, bs[i].at + HEADER, to + HEADER, bs[i].size - HEADER)
    requires bs2 == FreeAt(bs1, i1) && UsedKept(bs1, bs2, bs[i].at)
    requires forall b :: b in bs && !b.free ==> b.at != to
    ensures Retained(m, m3, bs, bs2, i, to, need)
  {
    hide FreeAt;
    forall b | b in bs && !b.free && b.at != bs[i].at && b.size >= HEADER ensures PayloadSame(m, m3, b.at, b.size - HEADER) {
      assert PayloadSame(m, m1, b.at, b.size - HEADER) && PayloadSame(m1, m2, b.at, b.size - HEADER) && PayloadSame(m2, m3, b.at, b.size - HEADER);
    }
    var from, n := bs[i].at + HEADER, bs[i].size - HEADER;
    assert bs[i] in bs && PayloadSame(m, m1, bs[i].at, n);
    assert bs1[j] in bs1 && PayloadSame(m2, m3, to, bs1[j].size - HEADER);
    forall x | to + HEADER <= x < to + HEADER + n ensures m3[x] == m[x - (to + HEADER) + from] {
      assert m1[x - (to + HEADER) + from] == m[x - (to + HEADER) + from];
    }
  }

  /** Releasing a block keeps all other used blocks. */
  lemma FreeUsed(bs: seq<Block>, i: nat)
    requires i < |bs| && !bs[i].free
    ensures UsedKept(bs, FreeAt(bs, i), bs[i].at)
  {
    hide UsedKept;
    ReplacedUsed(bs, i, 1, [bs[i].(free := true)]);
    var b1 := MarkFree(bs, i);
    UsedWhole(b1, bs[i].at);
    var b2 := MergeNext(b1, i);
    if b2 != b1 { MergeUsed(b1, i); UsedWeaken(b1, b2, bs[i].at); } else { UsedWhole(b1, bs[i].at); }
    var b3 := MergePrev(b2, i);
    if b3 != b2 { MergeUsed(b2, i - 1); UsedWeaken(b2, b3, bs[i].at); } else { UsedWhole(b2, bs[i].at); }
    UsedTrans(bs, b1, b2, bs[i].at);
    UsedTrans(bs, b2, b3, bs[i].at);
  }

  lemma UsedWhole(bs: seq<Block>, but: int)
    ensures UsedKept(bs, bs, but)
  {
  }

  lemma UsedWeaken(a: seq<Block>, b: seq<Block>, but: int)
    requires UsedKept(a, b, NULL)
    ensures UsedKept(a, b, but)
  {
  }

  lemma UsedNotAt(bs: seq<Block>, j: nat)
    requires Tiles(SHAPE, bs, 0) && j < |bs| && bs[j].free
    ensures forall b :: b in bs && !b.free ==> b.at != bs[j].at
  {
    hide Tiles;
    forall b | b in bs && !b.free ensures b.at != bs[j].at {
      var n :| 0 <= n < |bs| && bs[n] == b;
      if b.at == bs[j].at { SameBlock(SHAPE, bs, n, j); }
    }
  }

  /** What a reallocation that succeeds at payload block `to` keeps: other live payloads, and the first bytes of the moved
      one; the block at `to` is used and large enough. */
  ghost predicate Retained(m: seq<Byte>, m': seq<Byte>, bs: seq<Block>, bs': seq<Block>, i: nat, to: nat, need: nat)
    requires i < |bs|
  {
    && |m| == |m'| && LiveSame(m, m', bs, bs[i].at)
    && (exists b :: b in bs' && b.at == to && !b.free && b.size >= need + HEADER)
    && CopiedTo(m, m', bs[i].at + HEADER, to + HEADER, if bs[i].size - HEADER < need then bs[i].size - HEADER else need)
  }

  /** `n` bytes from `from` stand at `to`. */
  predicate CopiedTo(m: seq<Byte>, m': seq<Byte>, from: nat, to: nat, n: int)
  {
    n > 0 ==> from + n <= |m| && to + n <= |m'| && forall x :: to <= x < to + n ==> m'[x] == m[x - to + from]
  }

  lemma LiveWeaken(m: seq<Byte>, m': seq<Byte>, bs: seq<Block>, but: int)
    requires LiveSame(m, m', bs, NULL)
    ensures LiveSame(m, m', bs, but)
  {
  }

  lemma AllSame(m: seq<Byte>, at: nat, n: nat)
    ensures PayloadSame(m, m, at, n)
  {
  }

  lemma HeaderOnly(m: seq<Byte>, m': seq<Byte>, at: nat)
    requires Outside(m, m', at, at + HEADER)
    ensures forall n: nat :: PayloadSame(m, m', at, n)
  {
  }

  lemma Swallowed(bs: seq<Block>, i: nat)
    requires i + 1 < |bs|
    ensures i < |Swallow(bs, i)| && Swallow(bs, i)[i] == Block(bs[i].at, bs[i].size + bs[i + 1].size, false)
  {
  }

  lemma Released(bs: seq<Block>, bs1: seq<Block>, i: nat)
    requires NoTwoFree(bs) && i < |bs| && bs1 == bs[..i] + [bs[i].(free := true)] + bs[i + 1..]
    ensures CoalesceFrom(bs1, 0) == if bs[i].free then bs else FreeAt(bs, i)
    ensures UsedKept(bs, bs1, bs[i].at)
  {
    hide CoalesceFrom;
    if bs[i].free {
      assert bs1 == bs;
      NothingToMerge(bs, 0, |bs|);
      CoalesceEnd(bs);
    } else {
      CoalesceIsFreeAt(bs, i);
    }
    ReplacedUsed(bs, i, 1, [bs[i].(free := true)]);
  }

  lemma StillRetained(m: seq<Byte>, bs: seq<Block>, i: nat, at: nat, need: nat)
    requires i < |bs| && bs[i].at == at && !bs[i].free && need + HEADER <= bs[i].size && at + bs[i].size <= |m|
    ensures Retained(m, m, bs, bs, i, at, need)
  {
    assert bs[i] in bs;
  }

  lemma ShrunkRetained(m: seq<Byte>, m1: seq<Byte>, m2: seq<Byte>, bs: seq<Block>, bs1: seq<Block>, bs2: seq<Block>, i: nat, at: nat, need: nat)
    requires i < |bs| && bs[i].at == at && !bs[i].free && need + HEADER <= bs[i].size && bs1 == Cut(bs, i, need + HEADER)
    requires |m| == |m1| == |m2| && LiveSame(m, m1, bs, at) && UsedKept(bs, bs1, at) && LiveSame(m1, m2, bs1, NULL) && UsedKept(bs1, bs2, NULL)
    requires PayloadSame(m, m1, at, need) && at + bs[i].size <= |m|
    ensures Retained(m, m2, bs, bs2, i, at, need)
  {
    LiveWeaken(m1, m2, bs1, at);
    LiveTrans(m, m1, m2, bs, bs1, at);
    var b := bs1[i];
    assert b == Block(at, need + HEADER, false) && b in bs1;
    assert PayloadSame(m1, m2, b.at, b.size - HEADER);
  }

  lemma GrownRetained(m: seq<Byte>, m1: seq<Byte>, m2: seq<Byte>, bs: seq<Block>, bs1: seq<Block>, bs2: seq<Block>, i: nat, at: nat, need: nat)
    requires i + 1 < |bs| && bs[i].at == at && !bs[i].free && bs[i].size < need + HEADER <= bs[i].size + bs[i + 1].size
    requires bs1 == Swallow(bs, i) && bs2 == GrowAt(bs, i, need + HEADER)
    requires |m| == |m1| == |m2| && LiveSame(m, m1, bs, at) && UsedKept(bs, bs1, at) && LiveSame(m1, m2, bs1, at)
    requires (forall n: nat :: PayloadSame(m, m1, at, n)) && PayloadSame(m1, m2, at, need) && at + bs[i].size <= |m|
    ensures Retained(m, m2, bs, bs2, i, at, need)
  {
    LiveTrans(m, m1, m2, bs, bs1, at);
    assert PayloadSame(m, m1, at, need);
    Swallowed(bs, i);
    assert bs2[i].at == at && !bs2[i].free && bs2[i].size >= need + HEADER;
    assert bs2[i] in bs2;
  }

  lemma UsedIsNoTwin(bs: seq<Block>, i: nat)
    requires i < |bs| && !bs[i].free
    ensures !TwinsAt(bs, i)
  {
  }

  lemma TwinsMean(bs: seq<Block>, i: nat)
    requires TwinsAt(bs, i)
    ensures i + 1 < |bs| && bs[i].free && bs[i + 1].free
  {
  }

  lemma MergedHead(bs: seq<Block>, i: nat)
    requires TwinsAt(bs, i)
    ensures MergeAt(bs, i)[i].at == bs[i].at && MergeAt(bs, i)[i].free
  {
  }

  lemma UsedTrans(a: seq<Block>, b: seq<Block>, c: seq<Block>, but: int)
    requires UsedKept(a, b, but) && UsedKept(b, c, but)
    ensures UsedKept(a, c, but)
  {
  }
}