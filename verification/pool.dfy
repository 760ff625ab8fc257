// The static memory pool: boundary tags, the physical `prev` chain and the intrusive free list, updated in place.
// A header field of the block at address p is element p of that field's array.
module Pool {
  import opened Blocks
  import opened Sequences
  import RawFree

  function Flags(b: Block): nat { b.size + (if b.free then 1 else 0) }

  function LastAt(bs: seq<Block>, prev: int): int
  {
    if bs == [] then prev else bs[|bs| - 1].at
  }

  /** Size words and physical predecessors of consecutive blocks; `prev` is the block in front of them. */
  predicate Headers(sz: seq<nat>, pv: seq<int>, bs: seq<Block>, prev: int)
    requires |sz| == |pv|
  {
    bs == [] ||
    (bs[0].at < |sz| && sz[bs[0].at] == Flags(bs[0]) && pv[bs[0].at] == prev && Headers(sz, pv, bs[1..], bs[0].at))
  }

  lemma {:induction false} HeadersSplit(sz: seq<nat>, pv: seq<int>, a: seq<Block>, b: seq<Block>, prev: int)
    requires |sz| == |pv|
    ensures Headers(sz, pv, a + b, prev) <==> Headers(sz, pv, a, prev) && Headers(sz, pv, b, LastAt(a, prev))
    decreases |a|
  {
    if a == [] {
      assert a + b == b;
    } else {
      assert (a + b)[1..] == a[1..] + b;
      HeadersSplit(sz, pv, a[1..], b, a[0].at);
    }
  }

  lemma {:induction false} HeaderOf(sz: seq<nat>, pv: seq<int>, bs: seq<Block>, prev: int, i: nat)
    requires |sz| == |pv| && Headers(sz, pv, bs, prev) && i < |bs|
    ensures bs[i].at < |sz| && sz[bs[i].at] == Flags(bs[i]) && pv[bs[i].at] == (if i == 0 then prev else bs[i - 1].at)
    decreases i
  {
    if i > 0 { HeaderOf(sz, pv, bs[1..], bs[0].at, i - 1); }
  }

  /** Words outside the blocks do not matter. */
  lemma {:induction false} HeadersFrame(k: Shape, sz: seq<nat>, pv: seq<int>, sz': seq<nat>, pv': seq<int>, bs: seq<Block>, from: nat, prev: int)
    requires |sz| == |pv| == |sz'| == |pv'| && k.header > 0 && Tiles(k, bs, from) && Headers(sz, pv, bs, prev)
    requires forall x :: from <= x < from + Total(bs) && x < |sz| ==> sz'[x] == sz[x] && pv'[x] == pv[x]
    ensures Headers(sz', pv', bs, prev)
    decreases |bs|
  {
    if bs != [] { HeadersFrame(k, sz, pv, sz', pv', bs[1..], from + bs[0].size, bs[0].at); }
  }

  /** Rewrites the tail's first `prev` word. */
  lemma HeadersRehang(k: Shape, sz: seq<nat>, pv: seq<int>, sz': seq<nat>, pv': seq<int>, bs: seq<Block>, from: nat, prev: int, prev': int)
    requires |sz| == |pv| == |sz'| == |pv'| && k.header > 0 && Tiles(k, bs, from) && Headers(sz, pv, bs, prev)
    requires forall x :: from <= x < from + Total(bs) && x < |sz| ==> sz'[x] == sz[x] && (x != from ==> pv'[x] == pv[x])
    requires bs != [] && from < |pv| ==> pv'[from] == prev'
    ensures Headers(sz', pv', bs, prev')
  {
    if bs != [] { HeadersFrame(k, sz, pv, sz', pv', bs[1..], from + bs[0].size, bs[0].at); }
  }

  /** Nothing was written outside the bytes [p, q), except perhaps the `prev` word at q. */
  predicate Untouched(sz: seq<nat>, pv: seq<int>, sz': seq<nat>, pv': seq<int>, p: nat, q: nat)
  {
    && |sz| == |pv| == |sz'| == |pv'|
    && (forall x :: 0 <= x < |sz| && (x < p || x >= q) ==> sz'[x] == sz[x])
    && (forall x :: 0 <= x < |sz| && (x < p || x > q) ==> pv'[x] == pv[x])
  }

  lemma FrontKept(k: Shape, sz: seq<nat>, pv: seq<int>, sz': seq<nat>, pv': seq<int>, a: seq<Block>, r: seq<Block>, p: nat, q: nat)
    requires Untouched(sz, pv, sz', pv', p, q) && k.header > 0 && p <= q
    requires Tiles(k, a + r, 0) && p == Total(a) && Headers(sz, pv, a + r, NULL)
    ensures Headers(sz', pv', a, NULL) && Headers(sz, pv, r, LastAt(a, NULL)) && Tiles(k, r, p)
  {
    hide Headers, Tiles, Total;
    SplitHeap(k, a, r, 0);
    HeadersSplit(sz, pv, a, r, NULL);
    HeadersFrame(k, sz, pv, sz', pv', a, 0, NULL);
  }

  lemma BackKept(k: Shape, sz: seq<nat>, pv: seq<int>, sz': seq<nat>, pv': seq<int>, run: seq<Block>, b: seq<Block>, p: nat, q: nat, prev: int, last: int)
    requires Untouched(sz, pv, sz', pv', p, q) && k.header > 0 && p < q
    requires Tiles(k, run + b, p) && q == p + Total(run) && Headers(sz, pv, run + b, prev)
    requires b != [] && q < |pv| ==> pv'[q] == last
    ensures Headers(sz', pv', b, last)
  {
    hide Headers, Tiles, Total;
    SplitHeap(k, run, b, p);
    HeadersSplit(sz, pv, run, b, prev);
    HeadersRehang(k, sz, pv, sz', pv', b, q, LastAt(run, prev), last);
  }

  lemma HeadersJoin(sz: seq<nat>, pv: seq<int>, a: seq<Block>, mid: seq<Block>, b: seq<Block>)
    requires |sz| == |pv| && mid != []
    requires Headers(sz, pv, a, NULL) && Headers(sz, pv, mid, LastAt(a, NULL)) && Headers(sz, pv, b, LastAt(mid, NULL))
    ensures Headers(sz, pv, a + (mid + b), NULL)
  {
    hide Headers;
    HeadersSplit(sz, pv, mid, b, LastAt(a, NULL));
    HeadersSplit(sz, pv, a, mid + b, NULL);
  }

  /** A run of blocks replaced by another one over the same bytes, whose headers and whose successor's `prev` have been
      written. */
  lemma HeadersReplaced(k: Shape, sz: seq<nat>, pv: seq<int>, sz': seq<nat>, pv': seq<int>,
                        a: seq<Block>, run: seq<Block>, mid: seq<Block>, b: seq<Block>)
    requires k.header > 0 && run != [] && mid != []
    requires Untouched(sz, pv, sz', pv', Total(a), Total(a) + Total(run))
    requires Tiles(k, a + (run + b), 0) && Headers(sz, pv, a + (run + b), NULL)
    requires Headers(sz', pv', mid, LastAt(a, NULL))
    requires b != [] && Total(a) + Total(run) < |pv| ==> pv'[Total(a) + Total(run)] == LastAt(mid, NULL)
    ensures Headers(sz', pv', a + (mid + b), NULL)
  {
    hide Headers, Tiles, LastAt;
    FrontKept(k, sz, pv, sz', pv', a, run + b, Total(a), Total(a) + Total(run));
    SplitHeap(k, run, b, Total(a));
    RunTakesRoom(k, run, Total(a));
    BackKept(k, sz, pv, sz', pv', run, b, Total(a), Total(a) + Total(run), LastAt(a, NULL), LastAt(mid, NULL));
    HeadersJoin(sz', pv', a, mid, b);
  }

  lemma RunTakesRoom(k: Shape, run: seq<Block>, from: nat)
    requires k.header > 0 && run != [] && Tiles(k, run, from)
    ensures Total(run) > 0
  {
  }

  /** The same for blocks [i, i + n) of a heap. */
  lemma RewriteRun(k: Shape, sz: seq<nat>, pv: seq<int>, sz': seq<nat>, pv': seq<int>, bs: seq<Block>, i: nat, n: nat, mid: seq<Block>)
    requires k.header > 0 && n > 0 && i + n <= |bs| && mid != []
    requires Tiles(k, bs, 0) && |sz| == |pv| && Headers(sz, pv, bs, NULL)
    requires Untouched(sz, pv, sz', pv', bs[i].at, bs[i + n - 1].at + bs[i + n - 1].size)
    requires Headers(sz', pv', mid, if i == 0 then NULL else bs[i - 1].at)
    requires var q := bs[i + n - 1].at + bs[i + n - 1].size; i + n < |bs| && q < |pv| ==> pv'[q] == LastAt(mid, NULL)
    ensures Headers(sz', pv', bs[..i] + mid + bs[i + n..], NULL)
  {
    hide Headers, Tiles, LastAt, Untouched, Total;
    var a, run, b := bs[..i], bs[i..i + n], bs[i + n..];
    RunBytes(k, bs, i, n);
    Cut(bs, i, i + n);
    LastOfFront(bs, i);
    HeadersReplaced(k, sz, pv, sz', pv', a, run, mid, b);
    assert a + mid + b == a + (mid + b);
  }

  lemma LastOfFront(bs: seq<Block>, i: nat)
    requires i <= |bs|
    ensures LastAt(bs[..i], NULL) == if i == 0 then NULL else bs[i - 1].at
  {
  }

  lemma OneHeader(sz: seq<nat>, pv: seq<int>, b: Block, prev: int)
    requires |sz| == |pv| && b.at < |sz| && sz[b.at] == Flags(b) && pv[b.at] == prev
    ensures Headers(sz, pv, [b], prev)
  {
    assert [b][1..] == [];
  }

  lemma TwoHeaders(sz: seq<nat>, pv: seq<int>, b: Block, c: Block, prev: int)
    requires |sz| == |pv| && b.at < |sz| && sz[b.at] == Flags(b) && pv[b.at] == prev
    requires c.at < |sz| && sz[c.at] == Flags(c) && pv[c.at] == b.at
    ensures Headers(sz, pv, [b, c], prev)
  {
    OneHeader(sz, pv, c, b.at);
    assert [b, c][1..] == [c];
  }

  // ----- the free list -----

  function Head(fl: seq<nat>): int { if fl == [] then NULL else fl[0] }

  /** A doubly linked list through the arrays of links. */
  predicate Linked(nf: seq<int>, pf: seq<int>, fl: seq<nat>, prev: int)
    requires |nf| == |pf|
  {
    fl == [] || (fl[0] < |nf| && pf[fl[0]] == prev && nf[fl[0]] == Head(fl[1..]) && Linked(nf, pf, fl[1..], fl[0]))
  }

  lemma {:induction false} LinkOf(nf: seq<int>, pf: seq<int>, fl: seq<nat>, prev: int, j: nat)
    requires |nf| == |pf| && Linked(nf, pf, fl, prev) && j < |fl|
    ensures fl[j] < |nf| && pf[fl[j]] == (if j == 0 then prev else fl[j - 1]) && nf[fl[j]] == Head(fl[j + 1..])
    decreases j
  {
    if j > 0 { LinkOf(nf, pf, fl[1..], fl[0], j - 1); }
  }

  lemma {:induction false} LinksFrame(nf: seq<int>, pf: seq<int>, nf': seq<int>, pf': seq<int>, fl: seq<nat>, prev: int)
    requires |nf| == |pf| == |nf'| == |pf'| && Linked(nf, pf, fl, prev)
    requires forall x :: x in fl && x < |nf| ==> nf'[x] == nf[x] && pf'[x] == pf[x]
    ensures Linked(nf', pf', fl, prev)
    decreases |fl|
  {
    if fl != [] { LinksFrame(nf, pf, nf', pf', fl[1..], fl[0]); }
  }

  /** Unhooks element `j` of a list. */
  lemma {:induction false} Unhooked(nf: seq<int>, pf: seq<int>, nf': seq<int>, pf': seq<int>, fl: seq<nat>, prev: int, j: nat)
    requires |nf| == |pf| == |nf'| == |pf'| && Linked(nf, pf, fl, prev) && Distinct(fl) && j < |fl|
    requires prev !in fl
    requires forall x :: x in fl && x != fl[j] && x < |nf| ==>
               && nf'[x] == (if j > 0 && x == fl[j - 1] then Head(fl[j + 1..]) else nf[x])
               && pf'[x] == (if j + 1 < |fl| && x == fl[j + 1] then (if j == 0 then prev else fl[j - 1]) else pf[x])
    ensures Linked(nf', pf', fl[..j] + fl[j + 1..], prev)
    decreases j
  {
    if j == 0 {
      assert fl[..0] + fl[1..] == fl[1..];
      if |fl| > 1 {
        assert fl[1..][0] == fl[1];
        LinksFrame(nf, pf, nf', pf', fl[2..], fl[1]);
        assert fl[1..][1..] == fl[2..];
      }
    } else {
      var tail := fl[1..];
      assert tail[j - 1] == fl[j] && tail[j..] == fl[j + 1..];
      assert j > 1 ==> tail[j - 2] == fl[j - 1];
      assert j + 1 < |fl| ==> tail[j] == fl[j + 1];
      Unhooked(nf, pf, nf', pf', tail, fl[0], j - 1);
      assert fl[..j] + fl[j + 1..] == [fl[0]] + (tail[..j - 1] + tail[j..]);
    }
  }

  // ----- requests -----

  /** `(size + unit - 1) & ~(unit - 1)` on machine words. */
  function Rounded(k: Shape, modulus: nat, size: nat): nat
    requires k.unit > 0 && modulus > 0
  {
    Times((size + k.unit - 1) % modulus / k.unit, k.unit)
  }

  /** Bytes searched for, header included. */
  function Needed(k: Shape, modulus: nat, size: nat): nat
    requires k.unit > 0 && modulus > 0
  {
    (k.header + Rounded(k, modulus, size)) % modulus
  }

  lemma RoundedBounds(k: Shape, modulus: nat, size: nat)
    requires k.unit > 0 && modulus > 0
    ensures var s := (size + k.unit - 1) % modulus;
            Aligned(Rounded(k, modulus, size), k.unit) && Rounded(k, modulus, size) <= s < Rounded(k, modulus, size) + k.unit
  {
    var s := (size + k.unit - 1) % modulus;
    DivMod(s, k.unit);
  }

  lemma DivMod(s: nat, m: nat)
    requires m > 0
    ensures Times(s / m, m) + s % m == s && s % m < m
  {
    assert s == s / m * m + s % m;
  }

  /** The rounded request covers the requested bytes exactly when rounding does not wrap, and is then the least multiple of the
      unit that does; otherwise it is zero bytes. */
  lemma RoundingCovers(k: Shape, modulus: nat, size: nat)
    requires k.unit > 0 && k.unit <= modulus && 0 < size < modulus
    ensures Rounded(k, modulus, size) >= size <==> size + k.unit - 1 < modulus
    ensures Aligned(Rounded(k, modulus, size), k.unit) && (size + k.unit - 1 < modulus ==> Rounded(k, modulus, size) < size + k.unit)
    ensures size + k.unit - 1 >= modulus ==> Rounded(k, modulus, size) == 0
  {
    hide Rounded;
    RoundedBounds(k, modulus, size);
    ModOnce(size + k.unit - 1, modulus);
    if size + k.unit - 1 >= modulus { SmallMultiple(k, modulus, size); }
  }

  lemma ModOnce(x: nat, m: nat)
    requires 0 < m && x < 2 * m
    ensures x % m == if x >= m then x - m else x
  {
    AtMostOnce(x, m);
    DivMod(x, m);
  }

  lemma AtMostOnce(x: nat, m: nat)
    requires 0 < m && x < 2 * m
    ensures x / m == if x >= m then 1 else 0
  {
    DivMod(x, m);
    TimesSmall(m);
    var q := x / m;
    if q >= 2 { MulMonotone(2, q, m); }
  }

  lemma TimesSmall(m: nat)
    ensures Times(0, m) == 0 && Times(1, m) == m && Times(2, m) == 2 * m
  {
  }

  lemma SmallMultiple(k: Shape, modulus: nat, size: nat)
    requires k.unit > 0 && modulus > 0 && (size + k.unit - 1) % modulus < k.unit
    ensures Rounded(k, modulus, size) == 0
  {
    var s := (size + k.unit - 1) % modulus;
    assert s / k.unit == 0;
  }

  // ----- the free list of a heap -----

  lemma {:induction false} AddressesRise(k: Shape, bs: seq<Block>, from: nat)
    requires k.header > 0 && Tiles(k, bs, from)
    ensures Distinct(FreeAts(bs)) && forall x :: x in FreeAts(bs) ==> x >= from
    decreases |bs|
  {
    if bs != [] {
      AddressesRise(k, bs[1..], from + bs[0].size);
      var rest := FreeAts(bs[1..]);
      assert FreeAts(bs) == if bs[0].free then [bs[0].at] + rest else rest;
      forall j | 0 <= j < |rest| ensures rest[j] > bs[0].at { assert rest[j] in rest; }
    }
  }

  lemma DistinctMinus(fl: seq<nat>, j: nat)
    requires Distinct(fl) && j < |fl|
    ensures Distinct(fl[..j] + fl[j + 1..])
  {
    var r := fl[..j] + fl[j + 1..];
    assert forall k :: 0 <= k < |r| ==> r[k] == fl[if k < j then k else k + 1];
  }

  lemma Neighbours(fl: seq<nat>, j: nat)
    requires Distinct(fl) && j < |fl|
    ensures j > 0 ==> fl[j - 1] != fl[j]
    ensures j + 1 < |fl| ==> fl[j + 1] != fl[j]
  {
  }

  lemma TakeOut(fl: seq<nat>, j: nat)
    requires j < |fl|
    ensures multiset(fl[..j] + fl[j + 1..]) + multiset{fl[j]} == multiset(fl)
  {
    assert fl == fl[..j] + [fl[j]] + fl[j + 1..];
  }

  /** Block `i` comes first in the free list among the blocks that fit. */
  ghost predicate IsFirstFit(fl: seq<nat>, bs: seq<Block>, i: nat, total: nat)
    requires i < |bs|
  {
    exists j :: 0 <= j < |fl| && fl[j] == bs[i].at && TooSmall(fl[..j], bs, total)
  }

  predicate TooSmall(fl: seq<nat>, bs: seq<Block>, total: nat)
  {
    forall i :: 0 <= i < |bs| && bs[i].free && bs[i].at in fl ==> bs[i].size < total
  }

  lemma OneMoreTooSmall(k: Shape, fl: seq<nat>, j: nat, bs: seq<Block>, i: nat, total: nat)
    requires k.header > 0 && Tiles(k, bs, 0) && j < |fl| && i < |bs| && bs[i].at == fl[j] && bs[i].size < total
    requires TooSmall(fl[..j], bs, total)
    ensures TooSmall(fl[..j + 1], bs, total)
  {
    hide Tiles;
    forall i' | 0 <= i' < |bs| && bs[i'].free && bs[i'].at in fl[..j + 1] ensures bs[i'].size < total {
      if bs[i'].at == fl[j] { SameBlock(k, bs, i, i'); } else { assert bs[i'].at in fl[..j]; }
    }
  }

  lemma {:induction false} UsedWithin(bs: seq<Block>, i: nat)
    requires i < |bs| && !bs[i].free
    ensures bs[i].size <= UsedSum(bs) <= Total(bs)
    decreases |bs|
  {
    UsedAtMost(bs[1..]);
    if i > 0 { UsedWithin(bs[1..], i - 1); }
  }

  lemma {:induction false} UsedAtMost(bs: seq<Block>)
    ensures UsedSum(bs) <= Total(bs)
  {
    if bs != [] { UsedAtMost(bs[1..]); }
  }

  class MemoryPool {
    const shape: Shape
    const modulus: nat
    const base: nat
    const capacity: nat
    const sizeFlags: array<nat>
    const prev: array<int>
    const nextFree: array<int>
    const prevFree: array<int>
    var usedBytes: nat
    var freeListHead: int
    ghost var blocks: seq<Block>
    ghost var freeList: seq<nat>

    ghost predicate Sized()
    {
      && ShapeOk(shape) && shape.least == shape.header && shape.unit <= modulus && shape.header <= modulus && base + capacity < modulus && Aligned(capacity, shape.unit)
      && sizeFlags.Length == prev.Length == nextFree.Length == prevFree.Length == capacity
      && prev != nextFree && prev != prevFree && nextFree != prevFree
    }

    ghost predicate ListOk()
      reads this, nextFree, prevFree
    {
      && Sized()
      && Linked(nextFree[..], prevFree[..], freeList, NULL) && Distinct(freeList) && freeListHead == Head(freeList)
    }

    ghost predicate ChainOk()
      reads this, sizeFlags, prev
    {
      && Sized()
      && Tiles(shape, blocks, 0) && Total(blocks) == capacity && blocks != []
      && Headers(sizeFlags[..], prev[..], blocks, NULL)
    }

    /** The free blocks at `out` are not on the free list yet. */
    ghost predicate Open(out: seq<nat>)
      reads this, sizeFlags, prev, nextFree, prevFree
    {
      && ListOk() && ChainOk() && usedBytes == UsedSum(blocks)
      && multiset(freeList) + multiset(out) == multiset(FreeAts(blocks))
    }

    /** The words at every address, as `RawFree` sees them. */
    ghost function Words(): RawFree.Store
      reads this, sizeFlags, prev, nextFree, prevFree
    {
      RawFree.Store(sizeFlags[..], prev[..], nextFree[..], prevFree[..], freeListHead, usedBytes)
    }

    ghost function Frame(): RawFree.Frame { RawFree.Frame(shape.header, capacity, base, modulus) }

    /** Tiling, true predecessors, every free block on the list once, no two free neighbours, exact accounting. */
    ghost predicate Valid()
      reads this, sizeFlags, prev, nextFree, prevFree
    {
      if capacity < shape.header then ListOk() && blocks == [] && freeList == [] && usedBytes == 0
      else Open([]) && NoTwoFree(blocks)
    }

    constructor Init(shape: Shape, modulus: nat, base: nat, size: nat)
      requires ShapeOk(shape) && shape.least == shape.header && shape.unit <= modulus && shape.header <= modulus
      requires base + size < modulus && Aligned(size, shape.unit)
      ensures Valid() && this.shape == shape && this.modulus == modulus && this.base == base && capacity == size
      ensures blocks == if size < shape.header then [] else [Block(0, size, true)]
      ensures fresh(sizeFlags) && fresh(prev) && fresh(nextFree) && fresh(prevFree)
    {
      this.shape, this.modulus, this.base, capacity := shape, modulus, base, size;
      sizeFlags, prev, nextFree, prevFree := new nat[size], new int[size], new int[size], new int[size];
      usedBytes, freeListHead := 0, NULL;
      blocks, freeList := [], [];
      new;
      if size >= shape.header { Reset(); }
    }

    /** The whole buffer as one free block again. */
    method Reset()
      requires Sized() && (capacity < shape.header ==> blocks == [] && freeList == [])
      modifies this, sizeFlags, prev, nextFree, prevFree
      ensures Valid() && blocks == if capacity < shape.header then [] else [Block(0, capacity, true)]
    {
      usedBytes, freeListHead := 0, NULL;
      blocks, freeList := [], [];
      if capacity < shape.header { return; }
      sizeFlags[0] := capacity + 1;
      prev[0] := NULL;
      nextFree[0] := NULL;
      prevFree[0] := NULL;
      freeListHead := 0;
      blocks, freeList := [Block(0, capacity, true)], [0];
      One(shape, blocks[0], 0);
    }

    // ----- list operations -----

    method InsertFreeList(h: nat)
      requires ListOk() && h !in freeList && h < capacity
      modifies this`freeListHead, this`freeList, nextFree, prevFree
      ensures ListOk() && freeList == [h] + old(freeList)
      ensures RawFree.Pushed(Frame(), old(Words()), h) == RawFree.Done(Words())
    {
      ghost var nf, pf := nextFree[..], prevFree[..];
      nextFree[h] := freeListHead;
      prevFree[h] := NULL;
      if freeListHead != NULL { prevFree[freeListHead] := h; }
      freeListHead := h;
      if freeList != [] {
        LinksFrame(nf, pf, nextFree[..], prevFree[..], freeList[1..], freeList[0]);
      }
      freeList := [h] + freeList;
      assert freeList[1..] == old(freeList);
    }

    method RemoveFreeList(h: nat, ghost j: nat)
      requires ListOk() && j < |freeList| && freeList[j] == h && h < capacity
      modifies this`freeListHead, this`freeList, nextFree, prevFree
      ensures ListOk() && freeList == old(freeList[..j] + freeList[j + 1..])
      ensures RawFree.Removed(Frame(), old(Words()), h) == RawFree.Done(Words())
    {
      hide Linked, Distinct, ShapeOk, Aligned, RawFree.Removed;
      ghost var nf, pf, fl := nextFree[..], prevFree[..], freeList;
      LinkOf(nf, pf, fl, NULL, j);
      if j > 0 { LinkOf(nf, pf, fl, NULL, j - 1); }
      if j + 1 < |fl| { LinkOf(nf, pf, fl, NULL, j + 1); }
      Neighbours(fl, j);
      Detach(h);
      DistinctMinus(fl, j);
      Unhooked(nf, pf, nextFree[..], prevFree[..], fl, NULL, j);
      freeList := fl[..j] + fl[j + 1..];
    }

    /** The code of the removal; the links of `h` name other elements or none. */
    method Detach(h: nat)
      requires Sized() && h < capacity
      requires var p := prevFree[h]; p == NULL || (0 <= p < capacity && p != h)
      requires var n := nextFree[h]; n == NULL || (0 <= n < capacity && n != h)
      modifies this`freeListHead, nextFree, prevFree
      ensures RawFree.Removed(Frame(), old(Words()), h) == RawFree.Done(Words())
      ensures var p, n := old(prevFree[h]), old(nextFree[h]);
              && nextFree[..] == (if p == NULL then old(nextFree[..]) else old(nextFree[..])[p := n])[h := NULL]
              && prevFree[..] == (if n == NULL then old(prevFree[..]) else old(prevFree[..])[n := p])[h := NULL]
              && freeListHead == if p == NULL then n else old(freeListHead)
    {
      hide ShapeOk, Aligned;
      if prevFree[h] != NULL { nextFree[prevFree[h]] := nextFree[h]; } else { freeListHead := nextFree[h]; }
      if nextFree[h] != NULL { prevFree[nextFree[h]] := prevFree[h]; }
      nextFree[h] := NULL;
      prevFree[h] := NULL;
    }

    // ----- physical neighbours -----

    ghost predicate Stands(h: nat, i: nat)
      reads this
    {
      i < |blocks| && blocks[i].at == h
    }

    /** Header words and place of block `i`. */
    lemma Look(h: nat, i: nat)
      requires ChainOk() && Stands(h, i)
      ensures h < capacity && sizeFlags[h] == Flags(blocks[i]) && prev[h] == (if i == 0 then NULL else blocks[i - 1].at)
      ensures sizeFlags[h] - sizeFlags[h] % 2 == blocks[i].size && (sizeFlags[h] % 2 == 1 <==> blocks[i].free)
      ensures h + blocks[i].size <= capacity && (i + 1 < |blocks| <==> h + blocks[i].size < capacity)
      ensures i + 1 < |blocks| ==> blocks[i + 1].at == h + blocks[i].size
      ensures h == Total(blocks[..i]) && blocks[i].size >= shape.header
      ensures i == |blocks| - 1 <==> h + blocks[i].size == capacity
    {
      hide Headers, Tiles, Aligned;
      HeaderOf(sizeFlags[..], prev[..], blocks, NULL, i);
      BlockStands(shape, blocks, 0, i);
      AlignedEven(blocks[i].size, shape.unit);
      if i + 1 < |blocks| { BlockStands(shape, blocks, 0, i + 1); }
    }

    function SizeOf(h: nat): nat
      reads this, sizeFlags
      requires h < sizeFlags.Length
    {
      sizeFlags[h] - sizeFlags[h] % 2
    }

    function IsFree(h: nat): bool
      reads this, sizeFlags
      requires h < sizeFlags.Length
    {
      sizeFlags[h] % 2 == 1
    }

    /** The block behind `h`, or NULL at the end of the pool. */
    method NextBlock(h: nat, ghost i: nat) returns (n: int)
      requires ChainOk() && Stands(h, i)
      ensures n == if i + 1 < |blocks| then blocks[i + 1].at else NULL
    {
      Look(h, i);
      n := if h + SizeOf(h) < capacity then h + SizeOf(h) else NULL;
    }

    /** Rewrites the size word of `h` with the flag `free`. */
    method Mark(h: nat, ghost i: nat, free: bool)
      requires ChainOk() && Stands(h, i)
      modifies sizeFlags, this`blocks
      ensures ChainOk() && blocks == old(blocks)[..i] + [old(blocks)[i].(free := free)] + old(blocks)[i + 1..]
      ensures h < capacity && sizeFlags[..] == old(sizeFlags[..])[h := old(SizeOf(h)) + (if free then 1 else 0)]
    {
      hide Headers, Tiles, Aligned, Total;
      ghost var sz, pv, bs := sizeFlags[..], prev[..], blocks;
      Look(h, i);
      if i + 1 < |bs| { Look(bs[i + 1].at, i + 1); }
      sizeFlags[h] := SizeOf(h) + (if free then 1 else 0);
      ghost var b := bs[i].(free := free);
      OneHeader(sizeFlags[..], prev[..], b, if i == 0 then NULL else bs[i - 1].at);
      RewriteRun(shape, sz, pv, sizeFlags[..], prev[..], bs, i, 1, [b]);
      blocks := bs[..i] + [b] + bs[i + 1..];
      Remarked(shape, bs, i, free);
    }

    /** Cuts the free block `h` after `total` bytes. */
    method Split(h: nat, ghost i: nat, total: nat)
      requires ChainOk() && Stands(h, i) && blocks[i].free
      requires shape.header <= total && total + shape.header <= blocks[i].size && Aligned(total, shape.unit)
      modifies sizeFlags, prev, this`blocks
      ensures ChainOk() && blocks == AllocateAt(shape, old(blocks), i, total)
    {
      hide Headers, Tiles, Aligned, Total;
      ghost var sz, pv, bs := sizeFlags[..], prev[..], blocks;
      Look(h, i);
      var remainder := SizeOf(h) - total;
      var newFree := h + total;
      sizeFlags[newFree] := remainder + 1;
      prev[newFree] := h;
      if newFree + remainder < capacity { prev[newFree + remainder] := newFree; }
      sizeFlags[h] := total;
      ghost var b, c := Block(h, total, false), Block(newFree, remainder, true);
      TwoHeaders(sizeFlags[..], prev[..], b, c, if i == 0 then NULL else bs[i - 1].at);
      RewriteRun(shape, sz, pv, sizeFlags[..], prev[..], bs, i, 1, [b, c]);
      blocks := AllocateAt(shape, bs, i, total);
      SplitKeeps(shape, bs, i, total);
    }

    /** Makes `h` and its free successor one free block. */
    method Merge(h: nat, ghost i: nat)
      requires ChainOk() && Stands(h, i) && i + 1 < |blocks| && blocks[i].free && blocks[i + 1].free
      modifies sizeFlags, prev, this`blocks
      ensures ChainOk() && blocks == MergeAt(old(blocks), i)
      ensures h + old(blocks)[i].size < capacity
      ensures RawFree.Merged(Frame(), old(Words()), h, h + old(blocks)[i].size) == RawFree.Done(Words())
      ensures forall x :: 0 <= x < sizeFlags.Length && x != h ==> sizeFlags[x] == old(sizeFlags[x])
    {
      hide Headers, Tiles, Aligned, Total, RawFree.Merged;
      ghost var sz, pv, bs := sizeFlags[..], prev[..], blocks;
      Look(h, i);
      var next := h + SizeOf(h);
      Look(next, i + 1);
      var merged := SizeOf(h) + SizeOf(next);
      sizeFlags[h] := merged + 1;
      if h + merged < capacity { prev[h + merged] := h; }
      ghost var b := Block(h, merged, true);
      OneHeader(sizeFlags[..], prev[..], b, if i == 0 then NULL else bs[i - 1].at);
      RewriteRun(shape, sz, pv, sizeFlags[..], prev[..], bs, i, 2, [b]);
      blocks := MergeAt(bs, i);
      MergeKeeps(shape, bs, i);
      MergedWords(old(Words()), h, next, merged);
    }

    /** A merge that stays inside the pool, on the words. */
    lemma MergedWords(st: RawFree.Store, h: nat, next: nat, merged: nat)
      requires Sized() && RawFree.Whole(Frame(), st) && h < capacity && next < capacity && h + merged <= capacity
      requires merged == RawFree.SizeAt(st, h) + RawFree.SizeAt(st, next)
      ensures var st1 := st.(sz := st.sz[h := merged + 1]);
              RawFree.Merged(Frame(), st, h, next) ==
              RawFree.Done(if h + merged < capacity then st1.(pv := st1.pv[h + merged := h]) else st1)
    {
      hide RawFree.NextOf, ShapeOk, Aligned;
      Unwrapped(merged);
      NextWords(st.(sz := st.sz[h := merged + 1]), h, merged);
    }

    lemma NextWords(st: RawFree.Store, x: nat, size: nat)
      requires Sized() && RawFree.Whole(Frame(), st) && x < capacity && RawFree.SizeAt(st, x) == size && x + size <= capacity
      ensures RawFree.NextOf(Frame(), st, x) == if x + size < capacity then RawFree.Follows(x + size) else RawFree.End
    {
      hide ShapeOk, Aligned, RawFree.SizeAt;
      Unwrapped(base + x + size);
    }

    lemma Unwrapped(x: nat)
      requires x < modulus
      ensures x % modulus == x
    {
      ModOnce(x, modulus);
    }

    // ----- release -----

    /** Takes the one of two free neighbours that is on the list off it, and makes them one block at `h`. */
    method Absorb(h: nat, ghost i: nat, listed: nat, ghost other: nat)
      requires Open([other]) && Stands(h, i) && i + 1 < |blocks| && blocks[i].free && blocks[i + 1].free
      requires (listed == h && other == blocks[i + 1].at) || (other == h && listed == blocks[i + 1].at)
      modifies this`freeListHead, this`freeList, this`blocks, sizeFlags, prev, nextFree, prevFree
      ensures Open([h]) && blocks == MergeAt(old(blocks), i)
      ensures forall x :: 0 <= x < sizeFlags.Length && x != h ==> sizeFlags[x] == old(sizeFlags[x])
      ensures h + old(blocks)[i].size < capacity && listed < capacity
      ensures RawFree.Absorbed(Frame(), old(Words()), listed, h, h + old(blocks)[i].size) == RawFree.Done(Words())
    {
      hide Headers, Tiles, Aligned, Total, Linked, UsedSum, FreeAts, Distinct, Flags, RawFree.Removed, RawFree.Merged;
      Look(h, i);
      ghost var bs, fl := blocks, freeList;
      MergeKeeps(shape, bs, i);
      Look(bs[i + 1].at, i + 1);
      ghost var j := Listed(listed, other);
      Without(fl, j, FreeAts(bs[..i]), h, bs[i + 1].at, FreeAts(bs[i + 2..]));
      Unlist(h, i, listed, j);
    }

    /** Element `j` leaves the list, and the two neighbours become one. */
    method Unlist(h: nat, ghost i: nat, listed: nat, ghost j: nat)
      requires ListOk() && ChainOk() && Stands(h, i) && i + 1 < |blocks| && blocks[i].free && blocks[i + 1].free
      requires j < |freeList| && freeList[j] == listed < capacity
      modifies this`freeListHead, this`freeList, this`blocks, sizeFlags, prev, nextFree, prevFree
      ensures ListOk() && freeList == old(freeList[..j] + freeList[j + 1..])
      ensures ChainOk() && blocks == MergeAt(old(blocks), i)
      ensures forall x :: 0 <= x < sizeFlags.Length && x != h ==> sizeFlags[x] == old(sizeFlags[x])
      ensures h + old(blocks)[i].size < capacity
      ensures RawFree.Absorbed(Frame(), old(Words()), listed, h, h + old(blocks)[i].size) == RawFree.Done(Words())
    {
      hide Headers, Tiles, Aligned, Total, Linked, Distinct, Flags, ShapeOk, RawFree.Removed, RawFree.Merged;
      RemoveFreeList(listed, j);
      Merge(h, i);
    }

    /** Every free block other than `out` is on the list. */
    lemma Listed(x: nat, out: nat) returns (j: nat)
      requires Open([out]) && x in FreeAts(blocks) && x != out
      ensures j < |freeList| && freeList[j] == x
    {
      assert x in multiset(FreeAts(blocks));
      assert multiset([out])[x] == 0;
      j := IndexOf(freeList, x);
    }

    /** `h` absorbs its successor if that is free. */
    method JoinNext(h: nat, ghost i: nat)
      requires Open([h]) && Stands(h, i) && blocks[i].free
      modifies this`freeListHead, this`freeList, this`blocks, sizeFlags, prev, nextFree, prevFree
      ensures Open([h]) && blocks == MergeNext(old(blocks), i) && Stands(h, i) && blocks[i].free
      ensures h < capacity && RawFree.JoinedNext(Frame(), old(Words()), h) == RawFree.Done(Words())
    {
      hide Headers, Tiles, Aligned, Total, Linked, UsedSum, FreeAts, Distinct, RawFree.Absorbed, RawFree.NextOf;
      Look(h, i);
      NextWords(Words(), h, blocks[i].size);
      var next := NextBlock(h, i);
      if next != NULL {
        Look(next, i + 1);
        if IsFree(next) { Absorb(h, i, next, h); }
      }
    }

    /** `h` is absorbed by its predecessor if that is free. */
    method JoinPrev(h: nat, ghost i: nat) returns (h': nat)
      requires Open([h]) && Stands(h, i) && blocks[i].free
      modifies this`freeListHead, this`freeList, this`blocks, sizeFlags, prev, nextFree, prevFree
      ensures Open([h']) && blocks == MergePrev(old(blocks), i) && h' in FreeAts(blocks) && h' < capacity
      ensures h < capacity && IsFree(h)
      ensures RawFree.JoinedPrev(Frame(), old(Words()), h) == RawFree.Pushed(Frame(), Words(), h')
    {
      hide Headers, Tiles, Aligned, Total, Linked, UsedSum, FreeAts, Distinct, RawFree.Absorbed, RawFree.Pushed;
      h' := h;
      Look(h, i);
      FreeListed(blocks, i);
      if prev[h] != NULL {
        Look(prev[h], i - 1);
        if IsFree(prev[h]) {
          h' := prev[h];
          Absorb(h', i - 1, h', h);
          FreeListed(blocks, i - 1);
        }
      }
    }

    /** Marks the used block `h` free, off the list. */
    method Unuse(h: nat, ghost i: nat)
      requires Open([]) && Stands(h, i) && !blocks[i].free
      modifies this`usedBytes, this`blocks, sizeFlags, nextFree, prevFree
      ensures Open([h]) && blocks == MarkFree(old(blocks), i) && Stands(h, i) && blocks[i].free
      ensures h < capacity && Words() == RawFree.Unused(Frame(), old(Words()), h)
    {
      hide Headers, Tiles, Aligned, Total, Linked, UsedSum, FreeAts, Distinct, Flags, RawFree.Unused;
      ghost var bs := blocks;
      Look(h, i);
      MarkKeeps(shape, bs, i);
      assert multiset(FreeAts(MarkFree(bs, i))) == multiset(FreeAts(bs)) + multiset([h]);
      UsedListed(h, i);
      Disuse(h, i);
    }

    method Disuse(h: nat, ghost i: nat)
      requires ListOk() && ChainOk() && Stands(h, i) && !blocks[i].free && h !in freeList && blocks[i].size <= usedBytes < modulus
      modifies this`usedBytes, this`blocks, sizeFlags, nextFree, prevFree
      ensures ListOk() && ChainOk() && blocks == MarkFree(old(blocks), i)
      ensures usedBytes == old(usedBytes) - old(blocks)[i].size
      ensures h < capacity && Words() == RawFree.Unused(Frame(), old(Words()), h)
    {
      hide Headers, Tiles, Aligned, Total, Linked, Distinct, Flags, ShapeOk;
      Look(h, i);
      LinksFrame(nextFree[..], prevFree[..], nextFree[..][h := NULL], prevFree[..][h := NULL], freeList, NULL);
      Unwrapped(usedBytes - SizeOf(h));
      usedBytes := usedBytes - SizeOf(h);
      Mark(h, i, true);
      nextFree[h] := NULL;
      prevFree[h] := NULL;
    }

    /** A used block is not on the list, and no larger than all used ones. */
    lemma UsedListed(h: nat, i: nat)
      requires Open([]) && Stands(h, i) && !blocks[i].free
      ensures h !in freeList && blocks[i].size <= usedBytes < modulus
    {
      hide Headers, Tiles, Aligned, Linked, Distinct, Flags;
      if h in freeList {
        OnList(h);
        var j := FreeIndex(blocks, h);
        SameBlock(shape, blocks, i, j);
        assert false;
      }
      UsedWithin(blocks, i);
    }

    /** Puts the last free block on the list. */
    method Hook(h: nat)
      requires Open([h]) && h in FreeAts(blocks) && h < capacity
      modifies this`freeListHead, this`freeList, nextFree, prevFree
      ensures Open([]) && freeList == [h] + old(freeList)
      ensures RawFree.Pushed(Frame(), old(Words()), h) == RawFree.Done(Words())
    {
      hide RawFree.Pushed, Headers, Tiles, Aligned, Total, Linked, UsedSum, FreeAts, Distinct;
      AddressesRise(shape, blocks, 0);
      DistinctCount(FreeAts(blocks), h);
      assert multiset([h])[h] == 1;
      InsertFreeList(h);
      assert multiset(freeList) == multiset(old(freeList)) + multiset([h]);
    }

    /** Releases the used block `i`, whose payload starts at `ptr`. Its size word still says free when the block has
        become part of its predecessor. */
    method Release(ptr: nat, ghost i: nat)
      requires Valid() && i < |blocks| && blocks[i].at + shape.header == ptr && !blocks[i].free
      modifies this, sizeFlags, prev, nextFree, prevFree
      ensures Valid() && blocks == FreeAt(old(blocks), i) && ptr - shape.header < capacity && IsFree(ptr - shape.header)
      ensures RawFree.Freed(Frame(), old(Words()), ptr) == RawFree.Done(Words())
    {
      hide Open, NoTwoFree, ListOk, ChainOk, RawFree.JoinedNext, RawFree.JoinedPrev, RawFree.Unused, RawFree.Pushed, RawFree.Whole,
           RawFree.Ignored, MergeNext, MergePrev, MarkFree, FreeAts;
      var h := ptr - shape.header;
      ghost var bs := blocks;
      OpenKeeps(i);
      Releasable(ptr, i);
      Unuse(h, i);
      JoinNext(h, i);
      h := JoinPrev(h, i);
      Hook(h);
    }

    lemma Releasable(ptr: int, i: nat)
      requires Open([]) && i < |blocks| && blocks[i].at + shape.header == ptr && !blocks[i].free
      ensures RawFree.Whole(Frame(), Words()) && !RawFree.Ignored(Frame(), Words(), ptr)
    {
      hide Headers, Tiles, Linked;
      Look(blocks[i].at, i);
    }

    lemma OpenKeeps(i: nat)
      requires Open([]) && NoTwoFree(blocks) && i < |blocks| && !blocks[i].free
      ensures NoTwoFree(FreeAt(blocks, i)) && capacity >= shape.header
    {
      hide NoTwoFree, FreeAt, Headers, Tiles;
      FreeNoTwins(blocks, i);
      BlockStands(shape, blocks, 0, i);
    }

    /** Frees a payload. NULL, pointers outside the pool and pointers in front of which a size word says free are ignored;
        any other pointer must be the payload of block `i`. Right after a release the size word says free, so releasing
        again at once is ignored, also when the block has been merged. */
    method Free(ptr: int, ghost i: nat)
      requires Valid()
      requires ptr != NULL && shape.header <= ptr <= capacity && !IsFree(ptr - shape.header) ==> Stands(ptr - shape.header, i)
      modifies this, sizeFlags, prev, nextFree, prevFree
      ensures Valid()
      ensures blocks == if ptr == NULL || ptr < shape.header || ptr > capacity || old(IsFree(ptr - shape.header)) then old(blocks)
                        else FreeAt(old(blocks), i)
      ensures ptr != NULL && shape.header <= ptr <= capacity ==> ptr - shape.header < capacity && IsFree(ptr - shape.header)
      ensures RawFree.Freed(Frame(), old(Words()), ptr) == RawFree.Done(Words())
    {
      hide RawFree.JoinedNext, RawFree.JoinedPrev, RawFree.Unused;
      if ptr == NULL { return; }
      var h := ptr - shape.header;
      if h < 0 || h + shape.header > capacity { return; }
      if IsFree(h) { return; }
      Look(h, i);
      Release(ptr, i);
    }

    // ----- allocation -----

    /** First block on the free list with at least `total` bytes, or NULL. */
    method FirstFit(total: nat) returns (h: int, ghost i: nat)
      requires Open([])
      ensures h == NULL ==> forall b :: b in blocks && b.free ==> b.size < total
      ensures h != NULL ==> h >= 0 && Stands(h, i) && blocks[i].free && blocks[i].size >= total
      ensures h != NULL ==> h in freeList && IsFirstFit(freeList, blocks, i, total)
    {
      hide Headers, Tiles, Aligned, Total, UsedSum, Distinct, Flags, Linked, FreeAts;
      h, i := freeListHead, 0;
      ghost var j := 0;
      assert freeList[0..] == freeList;
      while h != NULL
        invariant j <= |freeList| && h == Head(freeList[j..]) && TooSmall(freeList[..j], blocks, total)
        decreases |freeList| - j
      {
        assert freeList[j] == h;
        OnList(h);
        i := FreeIndex(blocks, h);
        Look(h, i);
        if SizeOf(h) >= total { return; }
        LinkOf(nextFree[..], prevFree[..], freeList, NULL, j);
        OneMoreTooSmall(shape, freeList, j, blocks, i, total);
        h := nextFree[h];
        j := j + 1;
      }
      assert freeList[..j] == freeList;
      forall b | b in blocks && b.free ensures b.size < total {
        var i' :| 0 <= i' < |blocks| && blocks[i'] == b;
        FreeListed(blocks, i');
        OnList(b.at);
      }
    }

    lemma OnList(x: nat)
      requires Open([])
      ensures x in freeList <==> x in FreeAts(blocks)
    {
      assert x in multiset(freeList) <==> x in freeList;
      assert x in multiset(FreeAts(blocks)) <==> x in FreeAts(blocks);
    }

    /** Takes the free block `i` at `h` off the list. */
    method Unhook(h: nat, ghost i: nat)
      requires Open([]) && Stands(h, i) && blocks[i].free
      modifies this`freeListHead, this`freeList, nextFree, prevFree
      ensures ListOk() && ChainOk() && multiset(freeList) + multiset{h} == multiset(FreeAts(blocks))
    {
      hide Headers, Tiles, Aligned, Total, UsedSum, Distinct, Flags, Linked, FreeAts, NoTwoFree;
      FreeListed(blocks, i);
      assert h in multiset(FreeAts(blocks));
      Look(h, i);
      ghost var j := IndexOf(freeList, h);
      TakeOut(freeList, j);
      RemoveFreeList(h, j);
    }

    /** Hands out the first `total` bytes of the free block `i` at `h`. */
    method TakePart(h: nat, ghost i: nat, total: nat)
      requires Open([]) && NoTwoFree(blocks) && capacity >= shape.header && Stands(h, i) && blocks[i].free
      requires shape.header <= total && total + shape.header <= blocks[i].size && Aligned(total, shape.unit)
      modifies this, sizeFlags, prev, nextFree, prevFree
      ensures Open([]) && blocks == AllocateAt(shape, old(blocks), i, total)
    {
      hide Headers, Tiles, Aligned, Total, UsedSum, Distinct, Flags, Linked, FreeAts, NoTwoFree, AllocateAt, Around;
      ghost var bs := blocks;
      Look(h, i);
      AllocateKeeps(shape, bs, capacity, i, total);
      Taken(shape, bs, i, total);
      Unhook(h, i);
      AroundMinus(freeList, bs, i, h, [h + total]);
      Split(h, i, total);
      usedBytes := usedBytes + total;
      Hook(h + total);
    }

    /** Hands out the whole free block `i` at `h`. */
    method TakeAll(h: nat, ghost i: nat, total: nat)
      requires Open([]) && NoTwoFree(blocks) && capacity >= shape.header && Stands(h, i) && blocks[i].free
      requires shape.header <= total <= blocks[i].size < total + shape.header && Aligned(total, shape.unit)
      modifies this, sizeFlags, prev, nextFree, prevFree
      ensures Open([]) && blocks == AllocateAt(shape, old(blocks), i, total)
    {
      hide Headers, Tiles, Aligned, Total, UsedSum, Distinct, Flags, Linked, FreeAts, NoTwoFree, Around;
      ghost var bs := blocks;
      Look(h, i);
      AllocateKeeps(shape, bs, capacity, i, total);
      Unhook(h, i);
      AroundMinus(freeList, bs, i, h, []);
      usedBytes := usedBytes + SizeOf(h);
      Mark(h, i, false);
    }

    /** Hands out `total` bytes of the free block `i` at `h`, or all of it when the rest could not hold a header. */
    method Take(h: nat, ghost i: nat, total: nat)
      requires Open([]) && NoTwoFree(blocks) && capacity >= shape.header
      requires Stands(h, i) && blocks[i].free && shape.header <= total <= blocks[i].size && Aligned(total, shape.unit)
      modifies this, sizeFlags, prev, nextFree, prevFree
      ensures Valid() && blocks == AllocateAt(shape, old(blocks), i, total)
    {
      hide Open, NoTwoFree, ListOk;
      TakeKeepsApart(i, total);
      SizeRead(h, i);
      if SizeOf(h) - total >= shape.header { TakePart(h, i, total); } else { TakeAll(h, i, total); }
    }

    lemma SizeRead(h: nat, i: nat)
      requires Open([]) && Stands(h, i)
      ensures h < capacity == sizeFlags.Length && SizeOf(h) == blocks[i].size
    {
      Look(h, i);
    }

    lemma TakeKeepsApart(i: nat, total: nat)
      requires Open([]) && NoTwoFree(blocks) && i < |blocks| && blocks[i].free
      requires shape.header <= total <= blocks[i].size && Aligned(total, shape.unit)
      ensures NoTwoFree(AllocateAt(shape, blocks, i, total))
    {
      hide NoTwoFree, AllocateAt;
      AllocateKeeps(shape, blocks, capacity, i, total);
    }

    lemma IsSized()
      requires Valid()
      ensures Sized()
    {
    }

    /** Allocates `size` bytes: the first fitting block of the free list, or NULL exactly when the request is empty, its
        header overflows the word, or no free block is large enough. A refusal changes nothing. */
    method Allocate(size: nat) returns (p: int, ghost i: nat)
      requires Valid() && size < modulus
      modifies this, sizeFlags, prev, nextFree, prevFree
      ensures Valid()
      ensures var total := Needed(shape, modulus, size);
              p == NULL <==> size == 0 || total < shape.header || forall b :: b in old(blocks) && b.free ==> b.size < total
      ensures p == NULL ==> blocks == old(blocks) && freeList == old(freeList) && usedBytes == old(usedBytes)
      ensures p != NULL ==>
                var total := Needed(shape, modulus, size);
                && i < |old(blocks)| && old(blocks)[i].free && total <= old(blocks)[i].size
                && IsFirstFit(old(freeList), old(blocks), i, total)
                && blocks == AllocateAt(shape, old(blocks), i, total) && p == blocks[i].at + shape.header
    {
      hide Open, NoTwoFree, ListOk, IsFirstFit, Rounded;
      IsSized();
      p, i := NULL, 0;
      if size == 0 { return; }
      if capacity < shape.header { return; }
      var total := Needed(shape, modulus, size);
      if total < shape.header { return; }
      NeededAligned(shape, modulus, size);
      var h;
      h, i := FirstFit(total);
      if h == NULL { return; }
      Take(h, i, total);
      p := h + shape.header;
    }
  }

  lemma NeededAligned(k: Shape, modulus: nat, size: nat)
    requires ShapeOk(k) && k.unit <= modulus && k.header <= modulus && Needed(k, modulus, size) >= k.header
    ensures Needed(k, modulus, size) == k.header + Rounded(k, modulus, size) && Aligned(Needed(k, modulus, size), k.unit)
  {
    hide Rounded, Aligned;
    RoundedBounds(k, modulus, size);
    AlignedSum(k.header, Rounded(k, modulus, size), k.unit);
    ModOnce(k.header + Rounded(k, modulus, size), modulus);
  }

  /** What a caller gets from a successful allocation: an aligned payload inside its own block. It covers the request
      exactly when the request is at most the word range less the rounding; a larger one receives an empty payload. */
  lemma PayloadCovers(k: Shape, modulus: nat, bs: seq<Block>, capacity: nat, i: nat, size: nat)
    requires ShapeOk(k) && k.unit <= modulus && k.header <= modulus && 0 < size < modulus && HeapOk(k, bs, capacity)
    requires i < |bs| && bs[i].free && k.header <= Needed(k, modulus, size) <= bs[i].size
    ensures var b := AllocateAt(k, bs, i, Needed(k, modulus, size))[i];
            && !b.free && b.at == bs[i].at && b.at + b.size <= capacity && Aligned(b.at + k.header, k.unit)
            && (size + k.unit - 1 < modulus ==> size <= b.size - k.header < size + k.unit + k.least)
            && (size + k.unit - 1 >= modulus ==> Needed(k, modulus, size) == k.header)
  {
    hide Rounded, Aligned, Tiles, Total, NoTwoFree;
    NeededAligned(k, modulus, size);
    RoundingCovers(k, modulus, size);
    BlockStands(k, bs, 0, i);
    assert Aligned(0, k.unit) by { AlignedSum(k.header, k.header, k.unit); }
    TotalAligned(k, bs, 0, i);
    AlignedSum(bs[i].at, k.header, k.unit);
  }

  lemma AroundMinus(fl: seq<nat>, bs: seq<Block>, i: nat, h: nat, mid: seq<nat>)
    requires i < |bs| && multiset(fl) + multiset{h} == multiset(Around(bs, i, 1, [h]))
    ensures multiset(fl) + multiset(mid) == multiset(Around(bs, i, 1, mid))
  {
    hide FreeAts;
    var m := multiset(Around(bs, i, 1, []));
    assert multiset(Around(bs, i, 1, [h])) == m + multiset{h};
    assert multiset(Around(bs, i, 1, mid)) == m + multiset(mid);
    Cancel(multiset(fl), m, h);
  }

  /** The block handed out and the cut-off rest. */
  lemma Taken(k: Shape, bs: seq<Block>, i: nat, total: nat)
    requires i < |bs| && bs[i].size - total >= k.least && total <= bs[i].size
    ensures var bs' := AllocateAt(k, bs, i, total);
            i < |bs'| && bs'[i] == Block(bs[i].at, total, false) && bs[i].at + total in FreeAts(bs')
  {
    hide FreeAts;
    FreeListed(AllocateAt(k, bs, i, total), i + 1);
  }

  /** One of two neighbouring free addresses leaves the list; the other one was not on it. */
  lemma Without(fl: seq<nat>, j: nat, a: seq<nat>, x: nat, y: nat, b: seq<nat>)
    requires j < |fl| && (fl[j] == x || fl[j] == y)
    requires multiset(fl) + multiset([if fl[j] == x then y else x]) == multiset(a + [x, y] + b)
    ensures multiset(fl[..j] + fl[j + 1..]) + multiset([x]) == multiset(a + [x] + b)
  {
    TakeOut(fl, j);
    var rest, m := multiset(fl[..j] + fl[j + 1..]), multiset(a + [x] + b);
    PairBetween(a, x, y, b);
    assert rest + multiset{x} + multiset{y} == m + multiset{y};
    Cancel(rest + multiset{x}, m, y);
  }

  lemma PairBetween(a: seq<nat>, x: nat, y: nat, b: seq<nat>)
    ensures multiset(a + [x, y] + b) == multiset(a + [x] + b) + multiset{y}
  {
    assert [x, y] == [x] + [y];
  }

  lemma Cancel(p: multiset<nat>, q: multiset<nat>, y: nat)
    requires p + multiset{y} == q + multiset{y}
    ensures p == q
  {
    assert p == p + multiset{y} - multiset{y};
    assert q == q + multiset{y} - multiset{y};
  }

  lemma {:induction false} DistinctCount(s: seq<nat>, x: nat)
    requires Distinct(s)
    ensures multiset(s)[x] <= 1
    decreases |s|
  {
    if s != [] {
      assert s == [s[0]] + s[1..];
      DistinctCount(s[1..], x);
      if s[0] == x {
        assert x !in s[1..];
        assert multiset(s[1..])[x] == 0;
      }
    }
  }

  lemma IndexOf(s: seq<nat>, x: nat) returns (j: nat)
    requires x in multiset(s)
    ensures j < |s| && s[j] == x
  {
    j :| j < |s| && s[j] == x;
  }

  // ----- releasing everything -----

  /** Payload addresses of the used blocks. */
  function Payloads(k: Shape, bs: seq<Block>): seq<int>
  {
    if bs == [] then [] else (if bs[0].free then [] else [bs[0].at + k.header]) + Payloads(k, bs[1..])
  }

  lemma {:induction false} PayloadsSplit(k: Shape, a: seq<Block>, b: seq<Block>)
    ensures Payloads(k, a + b) == Payloads(k, a) + Payloads(k, b)
    decreases |a|
  {
    if a == [] {
      assert a + b == b;
    } else {
      assert (a + b)[1..] == a[1..] + b;
      PayloadsSplit(k, a[1..], b);
    }
  }

  lemma PayloadsParts(k: Shape, a: seq<Block>, m: seq<Block>, b: seq<Block>)
    ensures Payloads(k, a + (m + b)) == Payloads(k, a) + (Payloads(k, m) + Payloads(k, b))
  {
    hide Payloads;
    PayloadsSplit(k, a, m + b);
    PayloadsSplit(k, m, b);
  }

  /** Only the released payload disappears. */
  lemma PayloadsFreed(k: Shape, bs: seq<Block>, i: nat)
    requires i < |bs| && !bs[i].free
    ensures multiset(Payloads(k, bs)) == multiset(Payloads(k, FreeAt(bs, i))) + multiset{bs[i].at + k.header}
  {
    hide FreeAt, Payloads, RunFrom, RunTo;
    var lo, hi, r := RunFrom(bs, i), RunTo(bs, i), FreeAt(bs, i);
    FreeParts(bs, i);
    var a, b := bs[..lo], bs[hi + 1..];
    PayloadsParts(k, a, [r[lo]], b);
    PayloadsParts(k, a, bs[lo..hi + 1], b);
    PayloadsOfRun(k, bs, i);
    FreePayload(k, r[lo]);
    Inserted(Payloads(k, a), Payloads(k, b), bs[i].at + k.header);
  }

  /** The heap before and after a release differs in one run of blocks. */
  lemma FreeParts(bs: seq<Block>, i: nat)
    requires i < |bs|
    ensures var lo, hi, r := RunFrom(bs, i), RunTo(bs, i), FreeAt(bs, i);
            && lo < |r| && r[lo].free && lo <= hi < |bs|
            && bs == bs[..lo] + (bs[lo..hi + 1] + bs[hi + 1..]) && r == bs[..lo] + ([r[lo]] + bs[hi + 1..])
  {
    hide FreeAt, RunFrom, RunTo;
    FreeShape(bs, i);
    var lo, hi, r := RunFrom(bs, i), RunTo(bs, i), FreeAt(bs, i);
    Cut(bs, lo, hi + 1);
    Cut(r, lo, lo + 1);
    assert r[lo..lo + 1] == [r[lo]];
  }

  lemma Cut(bs: seq<Block>, lo: nat, hi: nat)
    requires lo <= hi <= |bs|
    ensures bs == bs[..lo] + (bs[lo..hi] + bs[hi..])
  {
  }

  lemma FreePayload(k: Shape, b: Block)
    requires b.free
    ensures Payloads(k, [b]) == []
  {
    assert [b][1..] == [];
  }

  lemma Inserted(a: seq<int>, b: seq<int>, p: int)
    ensures multiset(a + ([p] + b)) == multiset(a + ([] + b)) + multiset{p}
  {
    assert [] + b == b;
  }

  lemma PayloadsOfRun(k: Shape, bs: seq<Block>, i: nat)
    requires i < |bs| && !bs[i].free
    ensures Payloads(k, bs[RunFrom(bs, i)..RunTo(bs, i) + 1]) == [bs[i].at + k.header]
  {
    var lo, hi := RunFrom(bs, i), RunTo(bs, i);
    assert bs[lo..hi + 1] == bs[lo..i] + ([bs[i]] + bs[i + 1..hi + 1]);
    PayloadsSplit(k, bs[lo..i], [bs[i]] + bs[i + 1..hi + 1]);
    PayloadsSplit(k, [bs[i]], bs[i + 1..hi + 1]);
    assert [bs[i]][1..] == [];
    assert Payloads(k, []) == [];
    if lo < i { assert bs[lo..i][1..] == []; }
    if hi > i { assert bs[i + 1..hi + 1][1..] == []; }
  }

  lemma {:induction false} PayloadIndex(k: Shape, bs: seq<Block>, p: int) returns (i: nat)
    requires p in Payloads(k, bs)
    ensures i < |bs| && !bs[i].free && bs[i].at + k.header == p
    decreases |bs|
  {
    if !bs[0].free && bs[0].at + k.header == p { return 0; }
    i := PayloadIndex(k, bs[1..], p);
    i := i + 1;
  }

  lemma {:induction false} NoPayloads(k: Shape, bs: seq<Block>)
    requires Payloads(k, bs) == []
    ensures UsedSum(bs) == 0
    decreases |bs|
  {
    if bs != [] { NoPayloads(k, bs[1..]); }
  }

  /** Freeing all live payloads, in whatever order, leaves one free block of full capacity. */
  method FreeAll(pool: MemoryPool, ptrs: seq<int>)
    requires pool.Valid() && pool.capacity >= pool.shape.header
    requires multiset(ptrs) == multiset(Payloads(pool.shape, pool.blocks))
    modifies pool, pool.sizeFlags, pool.prev, pool.nextFree, pool.prevFree
    ensures pool.Valid() && pool.blocks == [Block(0, pool.capacity, true)] && pool.usedBytes == 0
  {
    hide Payloads, FreeAt, Headers, Tiles, Linked, Distinct, NoTwoFree, UsedSum, FreeAts, Total, Aligned, RawFree.Freed;
    assert ptrs[0..] == ptrs;
    for n := 0 to |ptrs|
      invariant pool.Valid() && multiset(ptrs[n..]) == multiset(Payloads(pool.shape, pool.blocks))
    {
      assert ptrs[n..] == [ptrs[n]] + ptrs[n + 1..];
      assert ptrs[n] in multiset(Payloads(pool.shape, pool.blocks));
      ghost var i := PayloadIndex(pool.shape, pool.blocks, ptrs[n]);
      ghost var bs := pool.blocks;
      pool.Look(bs[i].at, i);
      pool.Free(ptrs[n], i);
      PayloadsFreed(pool.shape, bs, i);
      CancelInt(multiset(ptrs[n + 1..]), multiset(Payloads(pool.shape, pool.blocks)), ptrs[n]);
    }
    assert ptrs[|ptrs|..] == [];
    Exhausted(pool.shape, pool.blocks);
    EmptyHeapIsOneBlock(pool.shape, pool.blocks, pool.capacity);
  }

  lemma Exhausted(k: Shape, bs: seq<Block>)
    requires multiset(Payloads(k, bs)) == multiset{}
    ensures UsedSum(bs) == 0
  {
    var p := Payloads(k, bs);
    assert |multiset(p)| == |p|;
    NoPayloads(k, bs);
  }

  lemma CancelInt(p: multiset<int>, q: multiset<int>, y: int)
    requires p + multiset{y} == q + multiset{y}
    ensures p == q
  {
    assert p == p + multiset{y} - multiset{y};
    assert q == q + multiset{y} - multiset{y};
  }
}
