// What a release does to a pool when its pointer starts no block.
module StrayFree {
  import opened Blocks
  import opened Pool
  import opened Sequences
  import opened RawFree

  /** The words represent a heap: tiling, true predecessors, every free block on the list once, no two free neighbours,
      exact accounting. */
  ghost predicate Represents(k: Shape, f: Frame, st: Store, bs: seq<Block>, fl: seq<nat>)
    requires Whole(f, st)
  {
    && HeapOk(k, bs, f.capacity) && Headers(st.sz, st.pv, bs, NULL)
    && Linked(st.nf, st.pf, fl, NULL) && Distinct(fl) && st.head == Head(fl) && multiset(fl) == multiset(FreeAts(bs))
    && st.used == UsedSum(bs)
  }

  ghost predicate Consistent(k: Shape, f: Frame, st: Store)
    requires Whole(f, st)
  {
    exists bs, fl :: Represents(k, f, st, bs, fl)
  }

  predicate Starts(bs: seq<Block>, x: int) { exists i :: 0 <= i < |bs| && bs[i].at == x }

  /** The size words at the starts of the blocks determine them. */
  lemma {:induction false} SameBlocks(k: Shape, sz: seq<nat>, pv: seq<int>, sz': seq<nat>, pv': seq<int>,
                                      bs: seq<Block>, bs': seq<Block>, from: nat, prev: int, prev': int)
    requires ShapeOk(k) && |sz| == |pv| == |sz'| == |pv'| && Total(bs) == Total(bs')
    requires Tiles(k, bs, from) && Headers(sz, pv, bs, prev) && Tiles(k, bs', from) && Headers(sz', pv', bs', prev')
    requires forall i :: 0 <= i < |bs| && bs[i].at < |sz| ==> sz'[bs[i].at] == sz[bs[i].at]
    ensures bs == bs'
    decreases |bs|
  {
    hide Aligned;
    if bs != [] && bs' != [] {
      AlignedEven(bs[0].size, k.unit);
      AlignedEven(bs'[0].size, k.unit);
      assert bs[0] == bs'[0];
      assert forall i :: 0 <= i < |bs| - 1 ==> bs[1..][i] == bs[i + 1];
      SameBlocks(k, sz, pv, sz', pv', bs[1..], bs'[1..], from + bs[0].size, bs[0].at, bs'[0].at);
      assert bs == [bs[0]] + bs[1..] && bs' == [bs'[0]] + bs'[1..];
    }
  }

  /** A list whose first element starts no block is not the list of a heap. */
  lemma HeadStarts(k: Shape, f: Frame, st: Store, st': Store, bs: seq<Block>, fl: seq<nat>)
    requires ShapeOk(k) && Whole(f, st) && Whole(f, st') && Represents(k, f, st, bs, fl)
    requires forall i :: 0 <= i < |bs| && bs[i].at < f.capacity ==> st'.sz[bs[i].at] == st.sz[bs[i].at]
    requires 0 <= st'.head && !Starts(bs, st'.head)
    ensures !Consistent(k, f, st')
  {
    hide Headers, Tiles, Total, Linked, Distinct, FreeAts;
    if Consistent(k, f, st') {
      var bs', fl' :| Represents(k, f, st', bs', fl');
      SameBlocks(k, st.sz, st.pv, st'.sz, st'.pv, bs, bs', 0, NULL, NULL);
      assert fl' != [] && fl'[0] in multiset(fl');
      assert st'.head in FreeAts(bs);
      var i := FreeIndex(bs, st'.head);
      assert false;
    }
  }

  /** The bytes in front of a pointer that starts no block imitate the header of a successor of a free block. */
  predicate Imitates(f: Frame, st: Store, bs: seq<Block>, ptr: int)
    requires Whole(f, st) && f.header <= ptr <= f.capacity
  {
    st.pv[ptr - f.header] in FreeAts(bs)
  }

  /** Unless they do, a release that is not ignored leaves the pool or its heap broken. */
  lemma StrayBreaks(k: Shape, f: Frame, st: Store, bs: seq<Block>, fl: seq<nat>, ptr: int)
    requires ShapeOk(k) && Whole(f, st) && Represents(k, f, st, bs, fl) && !Ignored(f, st, ptr)
    requires !Starts(bs, ptr - f.header) && !Imitates(f, st, bs, ptr)
    ensures var r := Freed(f, st, ptr); r.Done? ==> Whole(f, r.st) && !Consistent(k, f, r.st)
  {
    hide Consistent, Represents, JoinedNext, Unused, Removed, Merged, Pushed, Headers, FreeAts;
    var h := ptr - f.header;
    var st1 := Unused(f, st, h);
    var r2 := JoinedNext(f, st1, h);
    if r2.Done? {
      var p := r2.st.pv[h];
      assert p == st.pv[h] || p == h;
      if Inside(f, p) && MarkedFree(r2.st, p) && p != NULL { NoFreeStart(k, f, st, r2.st, bs, fl, h, p); }
      var r := Freed(f, st, ptr);
      if r.Done? { HeadStarts(k, f, st, r.st, bs, fl); }
    }
  }

  lemma NoFreeStart(k: Shape, f: Frame, st: Store, st': Store, bs: seq<Block>, fl: seq<nat>, h: nat, p: nat)
    requires ShapeOk(k) && Whole(f, st) && Whole(f, st') && Represents(k, f, st, bs, fl) && !Starts(bs, h) && p < f.capacity
    requires forall z :: 0 <= z < f.capacity && z != h ==> st'.sz[z] == st.sz[z]
    requires MarkedFree(st', p) && (p == h || p !in FreeAts(bs))
    ensures !Starts(bs, p)
  {
    hide Headers, Tiles, FreeAts, Linked, Distinct;
    if Starts(bs, p) {
      var i :| 0 <= i < |bs| && bs[i].at == p;
      HeaderOf(st.sz, st.pv, bs, NULL, i);
      BlockStands(k, bs, 0, i);
      AlignedEven(bs[i].size, k.unit);
      FreeListed(bs, i);
      assert false;
    }
  }

  const Three: seq<Block> := [Block(0, 16, true), Block(16, 32, false), Block(48, 16, false)]
  const Two: seq<Block> := [Block(0, 48, true), Block(48, 16, false)]

  /** A release can succeed on a pointer into the middle of a payload that imitates the header of its own block. */
  lemma ImitationSucceeds(f: Frame, st: Store)
    requires Whole(f, st) && f.header == 16 && f.capacity == 64 && f.base + 64 < f.modulus
    requires Represents(Shape(16, 8, 16), f, st, Three, [0]) && st.sz[32] == 32 && st.pv[32] == 0
    ensures var r := Freed(f, st, 48);
            r.Done? && Whole(f, r.st) && Represents(Shape(16, 8, 16), f, r.st, Two, [0])
  {
    hide Represents;
    ThreeWords(f, st);
    var st1 := Unused(f, st, 32);
    ModOnce(f.base + 64, f.modulus);
    ModOnce(f.base + 48, f.modulus);
    ModOnce(48, f.modulus);
    ModOnce(16, f.modulus);
    assert JoinedNext(f, st1, 32) == Done(st1);
    var st2 := Removed(f, st1, 0).st;
    assert Removed(f, st1, 0).Done? && st2.head == NULL;
    var st3 := Merged(f, st2, 0, 32).st;
    assert Merged(f, st2, 0, 32).Done? && st3.sz[0] == 49 && st3.pv[0] == NULL && st3.pv[48] == 0;
    TwoRepresented(f, Pushed(f, st3, 0).st);
  }

  lemma ThreeWords(f: Frame, st: Store)
    requires Whole(f, st) && f.capacity == 64 && Represents(Shape(16, 8, 16), f, st, Three, [0])
    ensures st.sz[0] == 17 && st.pv[0] == NULL && st.sz[48] == 16 && st.used == 48
    ensures st.head == 0 && st.nf[0] == NULL && st.pf[0] == NULL
  {
    hide Tiles, Distinct, NoTwoFree;
    HeaderOf(st.sz, st.pv, Three, NULL, 0);
    HeaderOf(st.sz, st.pv, Three, NULL, 2);
    assert Three[1..] == [Three[1], Three[2]] && Three[1..][1..] == [Three[2]] && Three[1..][1..][1..] == [];
  }

  lemma TwoRepresented(f: Frame, st: Store)
    requires Whole(f, st) && f.capacity == 64 && st.used == 16
    requires st.sz[0] == 49 && st.pv[0] == NULL && st.sz[48] == 16 && st.pv[48] == 0
    requires st.head == 0 && st.nf[0] == NULL && st.pf[0] == NULL
    ensures Represents(Shape(16, 8, 16), f, st, Two, [0])
  {
    assert Two[1..] == [Two[1]] && [Two[1]][1..] == [];
    assert Aligned(48, 8) by { assert 48 == Times(6, 8); }
    assert Aligned(16, 8) by { assert 16 == Times(2, 8); }
    TwoHeaders(st.sz, st.pv, Two[0], Two[1], NULL);
    assert FreeAts(Two) == [0];
  }

  /** A pool that can hold a block is such a heap. */
  lemma PoolRepresents(pool: MemoryPool)
    requires pool.Valid() && pool.capacity >= pool.shape.header
    ensures Whole(pool.Frame(), pool.Words()) && ShapeOk(pool.shape)
    ensures Represents(pool.shape, pool.Frame(), pool.Words(), pool.blocks, pool.freeList)
  {
    hide Headers, Tiles, Linked, NoTwoFree, UsedSum, FreeAts, Total;
    assert multiset(pool.freeList) + multiset([]) == multiset(pool.freeList);
  }

  const FirstBlock: Block := Block(0, 40, false)
  const Rest: Block := Block(40, 24, true)

  /** A pool of 64 bytes after one allocation of 24. */
  method Carve(base: nat, modulus: nat) returns (pool: MemoryPool)
    requires base + 64 < modulus
    ensures fresh(pool) && fresh(pool.sizeFlags) && fresh(pool.prev) && fresh(pool.nextFree) && fresh(pool.prevFree)
    ensures pool.Valid() && pool.shape == Shape(16, 8, 16) && pool.capacity == 64 && pool.blocks == [FirstBlock, Rest]
    ensures pool.base == base && pool.modulus == modulus
  {
    hide MemoryPool.Open, MemoryPool.ListOk, NoTwoFree, Rounded;
    assert Aligned(16, 8) by { assert 16 == Times(2, 8); }
    assert Aligned(64, 8) by { assert 64 == Times(8, 8); }
    pool := new MemoryPool.Init(Shape(16, 8, 16), modulus, base, 64);
    Needs40(modulus);
    var before := pool.blocks;
    assert before[0] in before && before == [Block(0, 64, true)];
    var p, i := pool.Allocate(24);
    assert pool.blocks == [FirstBlock, Rest];
  }

  lemma Needs40(modulus: nat)
    requires modulus > 64
    ensures Needed(Shape(16, 8, 16), modulus, 24) == 40
  {
    ModOnce(31, modulus);
    ModOnce(40, modulus);
    assert Times(3, 8) == 24;
  }

  /** The caller of that allocation clears the middle of its 24 bytes. */
  method Clear(pool: MemoryPool)
    requires pool.Valid() && pool.shape == Shape(16, 8, 16) && pool.capacity == 64 && pool.blocks == [FirstBlock, Rest]
    modifies pool.sizeFlags, pool.prev, pool.nextFree, pool.prevFree
    ensures pool.Valid() && pool.Words().sz[24] == 0 && pool.Words().pv[24] == NULL
    ensures pool.Words().nf[24] == NULL && pool.Words().pf[24] == NULL
  {
    hide Tiles, NoTwoFree, UsedSum, Distinct, Aligned, Total;
    ghost var fl := pool.freeList;
    OneFree(fl, pool.blocks);
    assert pool.blocks[1..] == [Rest] && [Rest][1..] == [] && fl[1..] == [];
    ghost var w := pool.Words();
    HeaderOf(w.sz, w.pv, pool.blocks, NULL, 1);
    assert w.sz[0] == 40 && w.pv[0] == NULL && w.sz[40] == 25 && w.pv[40] == 0;
    assert w.pf[40] == NULL && w.nf[40] == NULL;
    pool.sizeFlags[24], pool.prev[24], pool.nextFree[24], pool.prevFree[24] := 0, NULL, NULL, NULL;
    TwoHeaders(pool.sizeFlags[..], pool.prev[..], FirstBlock, Rest, NULL);
    assert pool.ChainOk();
    assert Linked(pool.nextFree[..], pool.prevFree[..], fl, NULL);
  }

  lemma OneFree(fl: seq<nat>, bs: seq<Block>)
    requires bs == [FirstBlock, Rest] && multiset(fl) + multiset([]) == multiset(FreeAts(bs))
    ensures fl == [40]
  {
    assert bs[1..] == [Rest] && [Rest][1..] == [];
    assert FreeAts([Rest]) == [40];
    assert FreeAts(bs) == [40];
    assert multiset(fl) == multiset(FreeAts(bs));
    assert |fl| == |multiset(fl)| == |multiset([40])| == 1;
    assert fl[0] in multiset(fl);
  }

  /** Releasing the middle of that payload, as if a block started there, loses the free list. */
  method StrayRun(base: nat, modulus: nat) returns (pool: MemoryPool, ptr: nat)
    requires base + 64 < modulus
    ensures fresh(pool) && pool.Valid() && Whole(pool.Frame(), pool.Words())
    ensures var r := Freed(pool.Frame(), pool.Words(), ptr);
            r.Done? && Whole(pool.Frame(), r.st) && !Consistent(pool.shape, pool.Frame(), r.st)
  {
    hide MemoryPool.Valid, Represents, Consistent, Freed;
    pool := Carve(base, modulus);
    Clear(pool);
    ptr := 40;
    PoolRepresents(pool);
    Middle(pool.Frame(), pool.Words());
    StrayBreaks(pool.shape, pool.Frame(), pool.Words(), pool.blocks, pool.freeList, 40);
  }

  /** The block in the middle has size 0 and follows itself. */
  lemma Middle(f: Frame, st: Store)
    requires Whole(f, st) && f.header == 16 && f.capacity == 64 && f.base + 64 < f.modulus
    requires st.sz[24] == 0 && st.pv[24] == st.nf[24] == st.pf[24] == NULL
    ensures Freed(f, st, 40).Done? && !Ignored(f, st, 40)
  {
    ModOnce(f.base + 24, f.modulus);
    ModOnce(0, f.modulus);
  }
}
