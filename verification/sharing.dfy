// Linear memories and tables shared between modules: every importer holds its own copy of pointer, size and capacity,
// and growing may move the buffer.
module Sharing {
  import Requests

  const NULL: int := -1
  const PAGE: nat := 65536
  const MAX_PAGES: nat := 65536
  const MAX_MEMORY: nat := 64 * 1024 * 1024

  /** A module's view of a memory (in bytes) or table (in entries). `max` is 0 for a memory without maximum. A table that is
      not imported has its declared size before it has a buffer. */
  datatype Slot = Slot(ptr: int, size: nat, capacity: nat, max: nat, shared: bool, imported: bool)

  /** Slot 0 is the memory, without a buffer when there is none; the others are the tables. */
  datatype Instance = NoModule | Module(slots: seq<Slot>)

  /** Live buffers with their contents, buffers given back to the pool, the next unused address, and whether something was
      written behind a buffer. */
  datatype Heap = Heap(live: map<nat, seq<int>>, freed: seq<nat>, next: nat, spilled: bool)

  /** A table entry: a reference, or null. */
  type Entry = x: int | NULL <= x

  /** An entry that was never written. */
  const UNSET: int := -2

  datatype World = World(mods: seq<Instance>, heap: Heap)

  predicate In(w: World, m: int, s: int)
  {
    0 <= m < |w.mods| && w.mods[m].Module? && 0 <= s < |w.mods[m].slots|
  }

  function At(w: World, m: int, s: int): Slot
    requires In(w, m, s)
  {
    w.mods[m].slots[s]
  }

  /** Two views of one buffer. */
  predicate Agree(s: int, a: Slot, t: int, b: Slot)
  {
    a.ptr == b.ptr != NULL ==> (s == 0 <==> t == 0) && a.size == b.size && a.capacity == b.capacity && a.max == b.max
  }

  predicate SlotOk(h: Heap, a: Slot)
  {
    if a.ptr == NULL then !a.shared && a.capacity == 0
    else a.ptr >= 0 && a.ptr in h.live && |h.live[a.ptr]| == a.capacity && a.size <= a.capacity
  }

  /** A memory without a buffer has no size either. */
  predicate Sized(s: int, a: Slot) { s == 0 && a.ptr == NULL ==> a.size == 0 }

  predicate Owns(w: World, m: int, s: int, p: nat)
  {
    In(w, m, s) && At(w, m, s).ptr == p && !At(w, m, s).shared
  }

  /** Every address handed out is live or was freed once. */
  ghost predicate FreedOnce(h: Heap)
  {
    && (forall p :: p in h.live ==> p < h.next)
    && (forall p :: p in h.freed ==> p < h.next && p !in h.live)
    && (forall p: nat :: p < h.next ==> p in h.live || p in h.freed)
    && (forall i, j :: 0 <= i < j < |h.freed| ==> h.freed[i] != h.freed[j])
  }

  /** All that can be read was written before. */
  ghost predicate Written(h: Heap)
  {
    forall p :: p in h.live ==> UNSET !in h.live[p]
  }

  /** Nothing was written behind a buffer and all in a buffer was written; all views of a buffer agree; every live buffer has
      exactly one owner; nothing is freed twice or used afterwards. */
  ghost predicate Inv(w: World)
  {
    && !w.heap.spilled && Written(w.heap)
    && (forall m, s :: In(w, m, s) ==> SlotOk(w.heap, At(w, m, s)) && Sized(s, At(w, m, s)))
    && (forall m, s, n, t :: In(w, m, s) && In(w, n, t) ==> Agree(s, At(w, m, s), t, At(w, n, t)))
    && (forall p :: p in w.heap.live ==> exists m, s :: Owns(w, m, s, p))
    && (forall p, m, s, n, t :: Owns(w, m, s, p) && Owns(w, n, t, p) ==> m == n && s == t)
    && FreedOnce(w.heap)
  }

  // ----- heap -----

  function Zeros(n: int): seq<int>
  {
    if n <= 0 then [] else seq(n, _ => 0)
  }

  function Fill(n: nat, v: int): seq<int> { seq(n, _ => v) }

  function Alloc(h: Heap, content: seq<int>): Heap { h.(live := h.live[h.next := content], next := h.next + 1) }

  function Release(h: Heap, p: nat): Heap { h.(live := h.live - {p}, freed := h.freed + [p]) }

  /** What a module reads through a slot. */
  function Content(w: World, m: int, s: int): seq<int>
    requires In(w, m, s) && SlotOk(w.heap, At(w, m, s))
  {
    if At(w, m, s).ptr == NULL then [] else w.heap.live[At(w, m, s).ptr][..At(w, m, s).size]
  }

  // ----- updating every alias -----

  function Moved(a: Slot, was: int, p: int, size: nat, capacity: nat): Slot
  {
    if a.ptr == was then a.(ptr := p, size := size, capacity := capacity) else a
  }

  function MovedSlots(slots: seq<Slot>, mem: bool, was: int, p: int, size: nat, capacity: nat): seq<Slot>
  {
    seq(|slots|, s requires 0 <= s < |slots| => if (s == 0) == mem then Moved(slots[s], was, p, size, capacity) else slots[s])
  }

  function MovedModules(mods: seq<Instance>, mem: bool, was: int, p: int, size: nat, capacity: nat): seq<Instance>
  {
    seq(|mods|, m requires 0 <= m < |mods| =>
      if mods[m].NoModule? then NoModule else Module(MovedSlots(mods[m].slots, mem, was, p, size, capacity)))
  }

  /** The new world and the number left on the operand stack. */
  datatype Grown = Grown(w: World, result: int)

  // ----- memory.grow -----

  function Pages(size: nat): nat { (size + PAGE - 1) / PAGE }

  /** Growing beyond the declared maximum, the format's or the engine's. */
  predicate TooLarge(a: Slot, pages: nat)
  {
    pages > MAX_PAGES || (a.max != 0 && pages > a.max) || pages * PAGE > MAX_MEMORY
  }

  /** Doubling, at least the new size, at most the engine's limit. */
  function NewCapacity(capacity: nat, size: nat): nat
  {
    var c := if capacity > 0 then 2 * capacity else size;
    var d := if c < size then size else c;
    if d > MAX_MEMORY then MAX_MEMORY else d
  }

  /** `grant` is the pool's answer to the request for a larger buffer. A memory without a buffer grows like any other:
      every module whose pointer equals the old one, here null, takes the new view. */
  function GrowMemory(w: World, m: nat, delta: nat, grant: bool): Grown
    requires In(w, m, 0) && SlotOk(w.heap, At(w, m, 0)) && Sized(0, At(w, m, 0))
  {
    var a := At(w, m, 0);
    var prev, size := Pages(a.size), (Pages(a.size) + delta) * PAGE;
    var was := Buffer(w.heap, a);
    if delta == 0 then Grown(w, prev)
    else if TooLarge(a, prev + delta) then Grown(w, -1)
    else if a.ptr != NULL && size <= a.capacity then
      var content := was[..a.size] + Zeros(size - a.size) + was[(if size < a.size then a.size else size)..];
      Grown(World(MovedModules(w.mods, true, a.ptr, a.ptr, size, a.capacity), w.heap.(live := w.heap.live[a.ptr := content])), prev)
    else if !grant then Grown(w, -1)
    else
      var cap := NewCapacity(a.capacity, size);
      var h := Alloc(w.heap, was[..a.size] + Zeros(cap - a.size));
      Grown(World(MovedModules(w.mods, true, a.ptr, w.heap.next, size, cap), if a.ptr == NULL then h else Release(h, a.ptr)), prev)
  }

  /** The bytes behind a view, none without a buffer. */
  function Buffer(h: Heap, a: Slot): (b: seq<int>)
    requires SlotOk(h, a)
    ensures |b| == a.capacity
  {
    if a.ptr == NULL then [] else h.live[a.ptr]
  }

  // ----- table.grow -----

  /** The entries of a table; without a buffer the declared ones have never been written. */
  function Entries(h: Heap, a: Slot): (e: seq<int>)
    requires SlotOk(h, a)
    ensures |e| == a.size
  {
    if a.ptr == NULL then Fill(a.size, UNSET) else h.live[a.ptr][..a.size]
  }

  /** `answer` is the number of entries that the buffer granted by the pool has room for, negative for a refusal. */
  function GrowTable(w: World, m: nat, s: nat, n: int, fill: Entry, answer: int): Grown
    requires In(w, m, s) && s > 0 && SlotOk(w.heap, At(w, m, s))
  {
    var a := At(w, m, s);
    if n < 0 then Grown(w, -1)
    else if n == 0 then Grown(w, a.size)
    else if a.size + n > a.max then Grown(w, -1)
    else if answer < 0 then Grown(w, -1)
    else if answer < a.size + n then Grown(Spill(w), a.size)
    else
      var p, size := w.heap.next, a.size + n;
      var h := Alloc(w.heap, Entries(w.heap, a) + Fill(n, fill));
      if a.ptr == NULL then
        Grown(World(w.mods[m := Module(w.mods[m].slots[s := a.(ptr := p, size := size, capacity := size)])], h), a.size)
      else
        Grown(World(MovedModules(w.mods, false, a.ptr, p, size, size), Release(h, a.ptr)), a.size)
  }

  /** Something lies behind a buffer now; nothing more is said about the state. */
  function Spill(w: World): World { w.(heap := w.heap.(spilled := true)) }

  // ----- linking, instantiation, unloading -----

  /** Import limits: at least the requested size; a requested maximum must exist and not be exceeded. */
  predicate Compatible(provided: nat, providedMax: nat, min: nat, max: nat)
  {
    provided >= min && (max != 0 ==> providedMax != 0 && providedMax <= max)
  }

  function SetSlot(w: World, m: nat, s: nat, a: Slot): World
    requires In(w, m, s)
  {
    w.(mods := w.mods[m := Module(w.mods[m].slots[s := a])])
  }

  /** An import takes over the exporter's view of an existing buffer. A memory that has a buffer is left alone; a table is
      overwritten. */
  function Link(w: World, m: nat, s: nat, n: nat, t: nat, min: nat, max: nat): (World, bool)
    requires In(w, m, s) && In(w, n, t) && (s == 0 <==> t == 0)
  {
    var a, b := At(w, m, s), At(w, n, t);
    var provided := if s == 0 then b.size / PAGE else b.size;
    if a.shared || (s == 0 && a.ptr != NULL) then (w, true)
    else if b.ptr == NULL || !Compatible(provided, b.max, min, max) then (w, false)
    else (SetSlot(w, m, s, b.(shared := true, imported := a.imported)), true)
  }

  /** A module's own memory, of `bytes` bytes, or table, of its declared size, gets its buffer unless it has one; a table
      without entries has none. `answer` is what the granted buffer has room for, negative for a refusal; a memory's request
      is too small to wrap. */
  function Instantiate(w: World, m: nat, s: nat, bytes: nat, answer: int): World
    requires In(w, m, s)
  {
    var a := At(w, m, s);
    var size := if s == 0 then bytes else a.size;
    if a.ptr != NULL || a.shared || a.imported || (s > 0 && size == 0) || (s == 0 && size > MAX_MEMORY) || answer < 0 then w
    else
      var capacity := if size > 0 then size else 1;
      if s > 0 && answer < capacity then Spill(w)
      else
        var fill := if s == 0 then 0 else NULL;
        SetSlot(w, m, s, a.(ptr := w.heap.next, size := size, capacity := capacity)).(heap := Alloc(w.heap, Fill(capacity, fill)))
  }

  // ----- every operation keeps the invariant -----

  lemma ZerosSize(n: int)
    ensures |Zeros(n)| == (if n <= 0 then 0 else n) && forall i :: 0 <= i < |Zeros(n)| ==> Zeros(n)[i] == 0
  {
  }

  /** What moving buffer `was` to `p` (or resizing it in place) does to the heap. */
  ghost predicate HeapMoved(h: Heap, h': Heap, was: nat, p: nat, size: nat, capacity: nat)
  {
    && was in h.live && (p == was || p == h.next)
    && h'.live.Keys == h.live.Keys - {was} + {p} && |h'.live[p]| == capacity && size <= capacity
    && (forall q :: q in h.live && q != was ==> h'.live[q] == h.live[q])
    && FreedOnce(h') && Written(h') && !h'.spilled
  }

  predicate SameSlots(w: World, w': World, mem: bool, was: int, p: int, size: nat, capacity: nat, m: int, s: int)
  {
    && (In(w', m, s) <==> In(w, m, s))
    && (In(w, m, s) ==> At(w', m, s) == if (s == 0) == mem then Moved(At(w, m, s), was, p, size, capacity) else At(w, m, s))
  }

  ghost predicate AllMoved(w: World, w': World, mem: bool, was: int, p: int, size: nat, capacity: nat)
  {
    forall m, s :: SameSlots(w, w', mem, was, p, size, capacity, m, s)
  }

  lemma ModulesMoved(w: World, mem: bool, was: int, p: int, size: nat, capacity: nat, h: Heap)
    ensures AllMoved(w, World(MovedModules(w.mods, mem, was, p, size, capacity), h), mem, was, p, size, capacity)
  {
    forall m, s ensures SameSlots(w, World(MovedModules(w.mods, mem, was, p, size, capacity), h), mem, was, p, size, capacity, m, s) {
    }
  }

  /** One slot before and after the move: it had the buffer exactly when it has the new one. */
  lemma SlotMoved(w: World, w': World, x: int, y: int, was: nat, p: nat, size: nat, capacity: nat, m: int, s: int)
    requires Inv(w) && In(w, x, y) && At(w, x, y).ptr == was && HeapMoved(w.heap, w'.heap, was, p, size, capacity)
    requires AllMoved(w, w', y == 0, was, p, size, capacity) && In(w, m, s)
    ensures In(w', m, s) && SlotOk(w'.heap, At(w', m, s)) && Sized(s, At(w', m, s))
    ensures At(w', m, s).shared == At(w, m, s).shared && At(w', m, s).max == At(w, m, s).max
    ensures At(w, m, s).ptr == was ==> At(w', m, s) == At(w, m, s).(ptr := p, size := size, capacity := capacity) && (s == 0 <==> y == 0)
    ensures At(w, m, s).ptr == was ==> At(w, m, s).max == At(w, x, y).max
    ensures At(w, m, s).ptr != was ==> At(w', m, s) == At(w, m, s) && At(w', m, s).ptr != p
  {
    assert SameSlots(w, w', y == 0, was, p, size, capacity, m, s);
    assert SlotOk(w.heap, At(w, m, s)) && SlotOk(w.heap, At(w, x, y)) && Sized(s, At(w, m, s));
    assert Agree(y, At(w, x, y), s, At(w, m, s));
  }

  /** A view before and after slot `y` of module `x` changed: the views of the same buffer are that slot's again, except
      for who owns it; all others are unchanged and read the same. */
  ghost predicate ViewAfter(w: World, w': World, x: int, y: int, m: int, s: int)
    requires In(w, x, y) && In(w, m, s)
  {
    && In(w', x, y) && In(w', m, s) && SlotOk(w.heap, At(w, m, s)) && SlotOk(w'.heap, At(w', m, s)) && SlotOk(w'.heap, At(w', x, y))
    && if (m == x && s == y) || At(w, m, s).ptr == At(w, x, y).ptr != NULL then
         At(w', m, s) == At(w', x, y).(shared := At(w, m, s).shared, imported := At(w, m, s).imported) && Content(w', m, s) == Content(w', x, y)
       else
         At(w', m, s) == At(w, m, s) && Content(w', m, s) == Content(w, m, s)
  }

  ghost predicate ViewsAfter(w: World, w': World, x: int, y: int)
    requires In(w, x, y)
  {
    forall m, s :: In(w, m, s) ==> ViewAfter(w, w', x, y, m, s)
  }

  lemma ViewsSame(w: World, x: int, y: int)
    requires Inv(w) && In(w, x, y)
    ensures ViewsAfter(w, w, x, y)
  {
    forall m, s | In(w, m, s) ensures ViewAfter(w, w, x, y, m, s) {
      assert SlotOk(w.heap, At(w, m, s)) && SlotOk(w.heap, At(w, x, y)) && Agree(s, At(w, m, s), y, At(w, x, y));
    }
  }

  lemma ViewsMoved(w: World, w': World, x: int, y: int, was: nat, p: nat, size: nat, capacity: nat)
    requires Inv(w) && In(w, x, y) && At(w, x, y).ptr == was && HeapMoved(w.heap, w'.heap, was, p, size, capacity)
    requires AllMoved(w, w', y == 0, was, p, size, capacity)
    ensures ViewsAfter(w, w', x, y)
  {
    hide AllMoved, FreedOnce, Written;
    forall m, s | In(w, m, s) ensures ViewAfter(w, w', x, y, m, s) {
      SlotMoved(w, w', x, y, was, p, size, capacity, m, s);
      SlotMoved(w, w', x, y, was, p, size, capacity, x, y);
      assert SlotOk(w.heap, At(w, m, s)) && Agree(y, At(w, x, y), s, At(w, m, s));
    }
  }

  /** Moving one buffer together with all its views keeps the invariant. */
  lemma MoveKeeps(w: World, w': World, x: int, y: int, was: nat, p: nat, size: nat, capacity: nat)
    requires Inv(w) && In(w, x, y) && At(w, x, y).ptr == was && HeapMoved(w.heap, w'.heap, was, p, size, capacity)
    requires AllMoved(w, w', y == 0, was, p, size, capacity)
    ensures Inv(w') && ViewsAfter(w, w', x, y)
  {
    hide SlotOk, Sized, HeapMoved, FreedOnce, Written, At, ViewsAfter;
    ViewsMoved(w, w', x, y, was, p, size, capacity);
    forall m, s | In(w', m, s) ensures In(w, m, s) { assert SameSlots(w, w', y == 0, was, p, size, capacity, m, s); }
    forall m, s | In(w', m, s) ensures SlotOk(w'.heap, At(w', m, s)) && Sized(s, At(w', m, s)) { SlotMoved(w, w', x, y, was, p, size, capacity, m, s); }
    forall m, s, n, t | In(w', m, s) && In(w', n, t) ensures Agree(s, At(w', m, s), t, At(w', n, t)) {
      SlotMoved(w, w', x, y, was, p, size, capacity, m, s);
      SlotMoved(w, w', x, y, was, p, size, capacity, n, t);
      assert Agree(s, At(w, m, s), t, At(w, n, t));
    }
    OwnersMoved(w, w', x, y, was, p, size, capacity);
    HeapStays(w.heap, w'.heap, was, p, size, capacity);
  }

  lemma HeapStays(h: Heap, h': Heap, was: nat, p: nat, size: nat, capacity: nat)
    requires HeapMoved(h, h', was, p, size, capacity)
    ensures FreedOnce(h') && Written(h') && !h'.spilled
  {
  }

  lemma OwnersMoved(w: World, w': World, x: int, y: int, was: nat, p: nat, size: nat, capacity: nat)
    requires Inv(w) && In(w, x, y) && At(w, x, y).ptr == was && HeapMoved(w.heap, w'.heap, was, p, size, capacity)
    requires AllMoved(w, w', y == 0, was, p, size, capacity)
    ensures forall q :: q in w'.heap.live ==> exists m, s :: Owns(w', m, s, q)
    ensures forall q, m, s, n, t :: Owns(w', m, s, q) && Owns(w', n, t, q) ==> m == n && s == t
  {
    hide SlotOk, Sized, FreedOnce, Written, AllMoved;
    forall q | q in w'.heap.live ensures exists m, s :: Owns(w', m, s, q) {
      var q0 := if q == p then was else q;
      var m, s :| Owns(w, m, s, q0);
      SlotMoved(w, w', x, y, was, p, size, capacity, m, s);
      assert Owns(w', m, s, q);
    }
    forall q, m, s, n, t | Owns(w', m, s, q) && Owns(w', n, t, q) ensures m == n && s == t {
      OwnedBefore(w, w', x, y, was, p, size, capacity, m, s, q);
      OwnedBefore(w, w', x, y, was, p, size, capacity, n, t, q);
    }
  }

  lemma OwnedBefore(w: World, w': World, x: int, y: int, was: nat, p: nat, size: nat, capacity: nat, m: int, s: int, q: nat)
    requires Inv(w) && In(w, x, y) && At(w, x, y).ptr == was && HeapMoved(w.heap, w'.heap, was, p, size, capacity)
    requires AllMoved(w, w', y == 0, was, p, size, capacity) && Owns(w', m, s, q)
    ensures Owns(w, m, s, if q == p then was else q)
  {
    assert SameSlots(w, w', y == 0, was, p, size, capacity, m, s);
    SlotMoved(w, w', x, y, was, p, size, capacity, m, s);
  }

  /** A larger size in the same buffer, or in a new one that replaces it. */
  lemma InPlaceKeeps(w: World, m: nat, size: nat, content: seq<int>)
    requires Inv(w) && In(w, m, 0) && At(w, m, 0).ptr != NULL && size <= |content| == At(w, m, 0).capacity && UNSET !in content
    ensures At(w, m, 0).ptr in w.heap.live
    ensures var a := At(w, m, 0);
            var w' := World(MovedModules(w.mods, true, a.ptr, a.ptr, size, a.capacity), w.heap.(live := w.heap.live[a.ptr := content]));
            Inv(w') && ViewsAfter(w, w', m, 0)
  {
    hide MovedModules, AllMoved, ViewsAfter;
    assert SlotOk(w.heap, At(w, m, 0));
    var a := At(w, m, 0);
    var h := w.heap.(live := w.heap.live[a.ptr := content]);
    ModulesMoved(w, true, a.ptr, a.ptr, size, a.capacity, h);
    MoveKeeps(w, World(MovedModules(w.mods, true, a.ptr, a.ptr, size, a.capacity), h), m, 0, a.ptr, a.ptr, size, a.capacity);
  }

  lemma ReplaceKeeps(w: World, m: nat, s: nat, size: nat, content: seq<int>)
    requires Inv(w) && In(w, m, s) && At(w, m, s).ptr != NULL && size <= |content| && UNSET !in content
    ensures At(w, m, s).ptr in w.heap.live
    ensures var a := At(w, m, s);
            var w' := World(MovedModules(w.mods, s == 0, a.ptr, w.heap.next, size, |content|), Release(Alloc(w.heap, content), a.ptr));
            Inv(w') && ViewsAfter(w, w', m, s)
  {
    hide MovedModules, AllMoved, Alloc, Release, ViewsAfter, Written;
    assert SlotOk(w.heap, At(w, m, s));
    var a := At(w, m, s);
    var h := Release(Alloc(w.heap, content), a.ptr);
    ModulesMoved(w, s == 0, a.ptr, w.heap.next, size, |content|, h);
    ReplacedHeap(w.heap, content, a.ptr);
    MoveKeeps(w, World(MovedModules(w.mods, s == 0, a.ptr, w.heap.next, size, |content|), h), m, s, a.ptr, w.heap.next, size, |content|);
  }

  /** memory.grow keeps the invariant; every module that shares the memory sees what the growing one sees, and no other
      view changes. */
  lemma GrowMemoryKeeps(w: World, m: nat, delta: nat, grant: bool)
    requires Inv(w) && In(w, m, 0) && (At(w, m, 0).ptr != NULL || Alone(w, m))
    ensures SlotOk(w.heap, At(w, m, 0)) && Sized(0, At(w, m, 0)) && Inv(GrowMemory(w, m, delta, grant).w)
    ensures ViewsAfter(w, GrowMemory(w, m, delta, grant).w, m, 0)
  {
    hide MovedModules, Zeros, FreedOnce, Alloc, Release, ViewsAfter;
    ViewsSame(w, m, 0);
    assert SlotOk(w.heap, At(w, m, 0)) && Sized(0, At(w, m, 0));
    var a := At(w, m, 0);
    var size := (Pages(a.size) + delta) * PAGE;
    var was := Buffer(w.heap, a);
    if delta != 0 && !TooLarge(a, Pages(a.size) + delta) {
      GrownSize(a.size, delta);
      if a.ptr == NULL {
        if grant { AloneKeeps(w, m, size); }
      } else if size <= a.capacity {
        ZerosSize(size - a.size);
        InPlaceKeeps(w, m, size, was[..a.size] + Zeros(size - a.size) + was[size..]);
      } else if grant {
        var cap := NewCapacity(a.capacity, size);
        ZerosSize(cap - a.size);
        ReplaceKeeps(w, m, 0, size, was[..a.size] + Zeros(cap - a.size));
      }
    }
  }

  /** No other module is without a buffer for its memory. */
  predicate Alone(w: World, m: nat)
  {
    forall n :: 0 <= n < |w.mods| && n != m && In(w, n, 0) ==> At(w, n, 0).ptr != NULL
  }

  /** The first buffer of a memory that is the only one without. */
  lemma AloneKeeps(w: World, m: nat, size: nat)
    requires Inv(w) && In(w, m, 0) && At(w, m, 0).ptr == NULL && Alone(w, m)
    ensures var w' := World(MovedModules(w.mods, true, NULL, w.heap.next, size, size), Alloc(w.heap, [] + Zeros(size)));
            Inv(w') && ViewsAfter(w, w', m, 0)
  {
    hide Inv, ViewsAfter, Zeros;
    ZerosSize(size);
    assert [] + Zeros(size) == Zeros(size);
    SlotsOk(w);
    var a := At(w, m, 0).(ptr := w.heap.next, size := size, capacity := size);
    OnlyOneMoved(w, m, size);
    FreshKeeps(w, m, 0, a, Zeros(size));
  }

  lemma OnlyOneMoved(w: World, m: nat, size: nat)
    requires In(w, m, 0) && At(w, m, 0).ptr == NULL && Alone(w, m)
    ensures MovedModules(w.mods, true, NULL, w.heap.next, size, size) ==
            SetSlot(w, m, 0, At(w, m, 0).(ptr := w.heap.next, size := size, capacity := size)).mods
  {
    var a := At(w, m, 0).(ptr := w.heap.next, size := size, capacity := size);
    forall n | 0 <= n < |w.mods|
      ensures MovedModules(w.mods, true, NULL, w.heap.next, size, size)[n] == if n == m then Module(w.mods[m].slots[0 := a]) else w.mods[n]
    {
      if w.mods[n].Module? {
        assert w.mods[n].slots != [] ==> In(w, n, 0);
        assert MovedSlots(w.mods[n].slots, true, NULL, w.heap.next, size, size) == if n == m then w.mods[m].slots[0 := a] else w.mods[n].slots;
      }
    }
  }

  /** memory.grow keeps the invariant if and only if the memory has a buffer, or nothing grows, or no other module's
      memory is without a buffer: two such modules would both become owners of the new one. When it does, every module that
      shares the memory sees what the growing one sees, and no other view changes. */
  lemma GrowMemorySafe(w: World, m: nat, delta: nat, grant: bool)
    requires Inv(w) && In(w, m, 0)
    ensures SlotOk(w.heap, At(w, m, 0)) && Sized(0, At(w, m, 0))
    ensures Inv(GrowMemory(w, m, delta, grant).w) <==>
            || At(w, m, 0).ptr != NULL || Alone(w, m) || delta == 0 || !grant
            || delta > 65536 || (At(w, m, 0).max != 0 && delta > At(w, m, 0).max) || delta * 65536 > 64 * 1024 * 1024
    ensures Inv(GrowMemory(w, m, delta, grant).w) ==> ViewsAfter(w, GrowMemory(w, m, delta, grant).w, m, 0)
  {
    hide Inv, MovedModules, Zeros, ViewsAfter;
    SlotsOk(w);
    ViewsSame(w, m, 0);
    assert Pages(0) == 0;
    var a := At(w, m, 0);
    if a.ptr != NULL || Alone(w, m) {
      GrowMemoryKeeps(w, m, delta, grant);
    } else if delta != 0 && !TooLarge(a, delta) && grant {
      var n :| 0 <= n < |w.mods| && n != m && In(w, n, 0) && At(w, n, 0).ptr == NULL;
      TwoOwners(w, m, n, delta * PAGE, NewCapacity(0, delta * PAGE), [] + Zeros(NewCapacity(0, delta * PAGE)));
    }
  }

  /** The requests made for memories do not wrap, even in a word of 32 bits. */
  lemma MemoryRequestFits(unit: nat, bytes: nat)
    requires 0 < unit < 0x1000 && 0 < bytes <= MAX_MEMORY
    ensures Requests.Room(0x1_0000_0000, unit, 1, bytes) == bytes
  {
    Requests.RoomExact(0x1_0000_0000, unit, 1, bytes);
  }

  /** Two memories without buffer that take the same new one both own it. */
  lemma TwoOwners(w: World, m: nat, n: nat, size: nat, capacity: nat, content: seq<int>)
    requires Inv(w) && In(w, m, 0) && In(w, n, 0) && m != n && At(w, m, 0).ptr == NULL && At(w, n, 0).ptr == NULL
    ensures !Inv(World(MovedModules(w.mods, true, NULL, w.heap.next, size, capacity), Alloc(w.heap, content)))
  {
    var w' := World(MovedModules(w.mods, true, NULL, w.heap.next, size, capacity), Alloc(w.heap, content));
    assert SlotOk(w.heap, At(w, m, 0)) && SlotOk(w.heap, At(w, n, 0));
    assert Owns(w', m, 0, w.heap.next) && Owns(w', n, 0, w.heap.next);
  }

  /** Growing by whole pages never shrinks, also from a size that is not a multiple of a page. */
  lemma GrownSize(size: nat, delta: nat)
    requires delta > 0
    ensures size < (Pages(size) + delta) * PAGE
  {
  }

  lemma ReplacedHeap(h: Heap, content: seq<int>, was: nat)
    requires FreedOnce(h) && Written(h) && !h.spilled && was in h.live && UNSET !in content
    ensures var h' := Release(Alloc(h, content), was);
            && FreedOnce(h') && Written(h') && !h'.spilled && h'.live.Keys == h.live.Keys - {was} + {h.next} && h'.live[h.next] == content
            && forall q :: q in h.live && q != was ==> h'.live[q] == h.live[q]
  {
  }

  /** memory.grow returns -1 if and only if the new number of pages passes the format's, the declared or the engine's maximum,
      or the bytes do not fit the buffer and the pool refuses a larger one; then nothing changes. Otherwise it returns the old
      number of pages, and the module reads its old bytes followed by zeros: in the same buffer if they fit, else in a new one
      of twice the capacity, at least the new size and at most the engine's maximum, for which the old one was freed. */
  lemma GrowMemoryContent(w: World, m: nat, delta: nat, grant: bool)
    requires Inv(w) && In(w, m, 0)
    ensures SlotOk(w.heap, At(w, m, 0)) && Sized(0, At(w, m, 0))
    ensures var r, a, pages := GrowMemory(w, m, delta, grant), At(w, m, 0), (At(w, m, 0).size + 65535) / 65536;
            var n := pages + delta;
            && In(r.w, m, 0) && SlotOk(r.w.heap, At(r.w, m, 0))
            && (r.result == -1 <==>
                  delta > 0 && (n > 65536 || (a.max != 0 && n > a.max) || n * 65536 > 64 * 1024 * 1024 || (n * 65536 > a.capacity && !grant)))
            && (r.result == -1 || delta == 0 ==> r.w == w)
            && (r.result != -1 ==> r.result == pages)
            && (r.result != -1 && delta > 0 ==>
                  var b := At(r.w, m, 0);
                  && b == a.(ptr := b.ptr, size := n * 65536, capacity := b.capacity)
                  && Content(r.w, m, 0) == Content(w, m, 0) + Zeros(b.size - a.size)
                  && if n * 65536 <= a.capacity then b.ptr == a.ptr && b.capacity == a.capacity && r.w.heap.freed == w.heap.freed
                     else
                       && b.ptr == w.heap.next && r.w.heap.freed == w.heap.freed + (if a.ptr == NULL then [] else [a.ptr])
                       && b.capacity >= b.size && (b.capacity > b.size ==> b.capacity == 2 * a.capacity || b.capacity == 64 * 1024 * 1024)
                       && (b.capacity < 64 * 1024 * 1024 ==> b.capacity >= 2 * a.capacity) && b.capacity <= 64 * 1024 * 1024)
  {
    hide GrowMemory, Inv, Zeros;
    SlotsOk(w);
    GrowMemoryAnswer(w, m, delta, grant);
    if delta > 0 && GrowMemory(w, m, delta, grant).result != -1 { GrowMemoryEffect(w, m, delta, grant); }
  }

  lemma GrowMemoryAnswer(w: World, m: nat, delta: nat, grant: bool)
    requires In(w, m, 0) && SlotOk(w.heap, At(w, m, 0)) && Sized(0, At(w, m, 0))
    ensures var r, a, pages := GrowMemory(w, m, delta, grant), At(w, m, 0), (At(w, m, 0).size + 65535) / 65536;
            var n := pages + delta;
            && (r.result == -1 <==>
                  delta > 0 && (n > 65536 || (a.max != 0 && n > a.max) || n * 65536 > 64 * 1024 * 1024 || (n * 65536 > a.capacity && !grant)))
            && (r.result == -1 || delta == 0 ==> r.w == w)
            && (r.result != -1 ==> r.result == pages)
  {
    hide MovedModules, Zeros, NewCapacity, Alloc, Release;
  }

  lemma GrowMemoryEffect(w: World, m: nat, delta: nat, grant: bool)
    requires Inv(w) && In(w, m, 0) && delta > 0
    ensures SlotOk(w.heap, At(w, m, 0)) && Sized(0, At(w, m, 0))
    ensures var r, a, n := GrowMemory(w, m, delta, grant), At(w, m, 0), (At(w, m, 0).size + 65535) / 65536 + delta;
            r.result != -1 ==>
              && In(r.w, m, 0) && SlotOk(r.w.heap, At(r.w, m, 0))
              && var b := At(r.w, m, 0);
                 && b == a.(ptr := b.ptr, size := n * 65536, capacity := b.capacity)
                 && Content(r.w, m, 0) == Content(w, m, 0) + Zeros(b.size - a.size)
                 && if n * 65536 <= a.capacity then b.ptr == a.ptr && b.capacity == a.capacity && r.w.heap.freed == w.heap.freed
                    else
                      && b.ptr == w.heap.next && r.w.heap.freed == w.heap.freed + (if a.ptr == NULL then [] else [a.ptr])
                      && b.capacity >= b.size && (b.capacity > b.size ==> b.capacity == 2 * a.capacity || b.capacity == 64 * 1024 * 1024)
                      && (b.capacity < 64 * 1024 * 1024 ==> b.capacity >= 2 * a.capacity) && b.capacity <= 64 * 1024 * 1024
  {
    hide MovedModules, AllMoved, Zeros, Inv, ViewsAfter, NewCapacity, FreedOnce, Written, Content;
    SlotsOk(w);
    var a := At(w, m, 0);
    var size := (Pages(a.size) + delta) * PAGE;
    if GrowMemory(w, m, delta, grant).result != -1 {
      GrownSize(a.size, delta);
      var was := Buffer(w.heap, a);
      if size <= a.capacity {
        InPlaceContent(w, m, size, was[..a.size] + Zeros(size - a.size) + was[size..]);
      } else {
        CapacityBounds(a.capacity, size);
        var cap := NewCapacity(a.capacity, size);
        var h := Alloc(w.heap, was[..a.size] + Zeros(cap - a.size));
        NextIsNew(w, m, 0);
        NewContent(w, m, size, cap, was[..a.size], if a.ptr == NULL then h else Release(h, a.ptr));
      }
    }
  }

  /** The views of a memory whose buffer was written in place. */
  lemma InPlaceContent(w: World, m: nat, size: nat, content: seq<int>)
    requires Inv(w) && In(w, m, 0) && At(w, m, 0).ptr != NULL && At(w, m, 0).size < size <= At(w, m, 0).capacity
    requires SlotOk(w.heap, At(w, m, 0))
    requires var was, a := Buffer(w.heap, At(w, m, 0)), At(w, m, 0); content == was[..a.size] + Zeros(size - a.size) + was[size..]
    ensures var a := At(w, m, 0);
            var w' := World(MovedModules(w.mods, true, a.ptr, a.ptr, size, a.capacity), w.heap.(live := w.heap.live[a.ptr := content]));
            && In(w', m, 0) && SlotOk(w'.heap, At(w', m, 0)) && At(w', m, 0) == a.(size := size)
            && Content(w', m, 0) == Content(w, m, 0) + Zeros(size - a.size)
  {
    hide MovedModules, AllMoved, Zeros, Inv;
    var a := At(w, m, 0);
    var h := w.heap.(live := w.heap.live[a.ptr := content]);
    var w' := World(MovedModules(w.mods, true, a.ptr, a.ptr, size, a.capacity), h);
    ModulesMoved(w, true, a.ptr, a.ptr, size, a.capacity, h);
    UseAllMoved(w, w', true, a.ptr, a.ptr, size, a.capacity, m, 0);
    ZerosSize(size - a.size);
  }

  /** The views of a memory that got a new buffer. */
  lemma NewContent(w: World, m: nat, size: nat, capacity: nat, front: seq<int>, h: Heap)
    requires Inv(w) && In(w, m, 0) && At(w, m, 0).size < size <= capacity && SlotOk(w.heap, At(w, m, 0)) && Sized(0, At(w, m, 0))
    requires front == Buffer(w.heap, At(w, m, 0))[..At(w, m, 0).size]
    requires w.heap.next in h.live && h.live[w.heap.next] == front + Zeros(capacity - At(w, m, 0).size)
    ensures var a := At(w, m, 0);
            var w' := World(MovedModules(w.mods, true, a.ptr, w.heap.next, size, capacity), h);
            && In(w', m, 0) && SlotOk(w'.heap, At(w', m, 0)) && At(w', m, 0) == a.(ptr := w.heap.next, size := size, capacity := capacity)
            && Content(w', m, 0) == Content(w, m, 0) + Zeros(size - a.size)
  {
    hide MovedModules, AllMoved, Zeros, Inv;
    var a := At(w, m, 0);
    var w' := World(MovedModules(w.mods, true, a.ptr, w.heap.next, size, capacity), h);
    ModulesMoved(w, true, a.ptr, w.heap.next, size, capacity, h);
    UseAllMoved(w, w', true, a.ptr, w.heap.next, size, capacity, m, 0);
    ZerosSize(size - a.size);
    ZerosSize(capacity - a.size);
    ZerosPrefix(size - a.size, capacity - a.size);
  }

  lemma CapacityBounds(capacity: nat, size: nat)
    requires size <= 64 * 1024 * 1024
    ensures var c := NewCapacity(capacity, size);
            && size <= c <= 64 * 1024 * 1024 && (c > size ==> c == 2 * capacity || c == 64 * 1024 * 1024)
            && (c < 64 * 1024 * 1024 ==> c >= 2 * capacity)
  {
  }

  lemma SlotsOk(w: World)
    requires Inv(w)
    ensures forall m, s :: In(w, m, s) ==> SlotOk(w.heap, At(w, m, s)) && Sized(s, At(w, m, s))
    ensures FreedOnce(w.heap) && Written(w.heap) && !w.heap.spilled
  {
  }

  lemma UseAllMoved(w: World, w': World, mem: bool, was: int, p: int, size: nat, capacity: nat, m: int, s: int)
    requires AllMoved(w, w', mem, was, p, size, capacity)
    ensures SameSlots(w, w', mem, was, p, size, capacity, m, s)
  {
  }

  lemma ZerosPrefix(n: int, k: int)
    requires 0 <= n <= k
    ensures Zeros(n) <= Zeros(k) && |Zeros(n)| == n && Zeros(k)[..n] == Zeros(n)
  {
  }

  /** A declared maximum of zero pages is stored as "no maximum": growth beyond it succeeds. */
  lemma ZeroMaximumIsNone(w: World, m: nat)
    requires Inv(w) && In(w, m, 0) && At(w, m, 0).max == 0 && At(w, m, 0).size == 0
    ensures SlotOk(w.heap, At(w, m, 0)) && Sized(0, At(w, m, 0)) && GrowMemory(w, m, 1, true).result == 0 && At(GrowMemory(w, m, 1, true).w, m, 0).size == PAGE
  {
    GrowMemoryContent(w, m, 1, true);
  }

  /** The table grows. */
  predicate Grows(a: Slot, n: int, answer: int) { n > 0 && a.size + n <= a.max && answer >= 0 }

  /** A growth that goes wrong: the buffer granted is too small, or the entries declared were never written. */
  predicate GrowsBadly(a: Slot, n: int, answer: int)
  {
    Grows(a, n, answer) && (answer < a.size + n || (a.ptr == NULL && a.size > 0))
  }

  /** table.grow keeps the invariant if and only if it does not go wrong; then every module that shares the table sees what
      the growing one sees, and no other view changes. */
  lemma GrowTableKeeps(w: World, m: nat, s: nat, n: int, fill: Entry, answer: int)
    requires Inv(w) && In(w, m, s) && s > 0
    ensures SlotOk(w.heap, At(w, m, s))
    ensures var w', a := GrowTable(w, m, s, n, fill, answer).w, At(w, m, s);
            && (Inv(w') <==> !(n > 0 && a.size + n <= a.max && answer >= 0 && (answer < a.size + n || (a.ptr == NULL && a.size > 0))))
            && (Inv(w') ==> ViewsAfter(w, w', m, s))
  {
    hide MovedModules, AllMoved, ViewsAfter;
    ViewsSame(w, m, s);
    assert SlotOk(w.heap, At(w, m, s));
    var a := At(w, m, s);
    if Grows(a, n, answer) && answer >= a.size + n {
      var p, size := w.heap.next, a.size + n;
      var content := Entries(w.heap, a) + Fill(n, fill);
      if a.ptr == NULL {
        if a.size > 0 {
          assert content[0] == UNSET;
          assert GrowTable(w, m, s, n, fill, answer).w.heap.live[p] == content;
        } else {
          FreshKeeps(w, m, s, a.(ptr := p, size := size, capacity := size), content);
        }
      } else {
        ReplaceKeeps(w, m, s, size, content);
      }
    }
  }

  /** table.grow with a buffer of the right size either returns -1 and changes nothing, or appends the given entries within
      the table's maximum to those it had. */
  lemma GrowTableContent(w: World, m: nat, s: nat, n: int, fill: Entry, answer: int)
    requires Inv(w) && In(w, m, s) && s > 0 && (answer < 0 || At(w, m, s).size + n <= answer)
    ensures SlotOk(w.heap, At(w, m, s))
    ensures var r, a := GrowTable(w, m, s, n, fill, answer), At(w, m, s);
            && In(r.w, m, s) && SlotOk(r.w.heap, At(r.w, m, s))
            && (r.result == -1 <==> n < 0 || (n > 0 && (a.size + n > a.max || answer < 0)))
            && (r.result == -1 ==> r.w == w)
            && (r.result != -1 ==> r.result == a.size && (n == 0 ==> r.w == w))
            && (r.result != -1 && n > 0 ==>
                  && At(r.w, m, s).size == a.size + n && At(r.w, m, s).max == a.max
                  && Content(r.w, m, s) == Entries(w.heap, a) + Fill(n, fill))
  {
    hide MovedModules, AllMoved, Inv, FreedOnce, Written;
    SlotsOk(w);
    var a := At(w, m, s);
    if Grows(a, n, answer) {
      var p, size := w.heap.next, a.size + n;
      var w' := GrowTable(w, m, s, n, fill, answer).w;
      if a.ptr != NULL {
        ModulesMoved(w, false, a.ptr, p, size, size, w'.heap);
        UseAllMoved(w, w', false, a.ptr, p, size, size, m, s);
      }
      assert p != a.ptr by { NextIsNew(w, m, s); }
      assert Content(w', m, s) == Entries(w.heap, a) + Fill(n, fill);
    }
  }

  lemma NextIsNew(w: World, m: nat, s: nat)
    requires Inv(w) && In(w, m, s)
    ensures w.heap.next !in w.heap.live && At(w, m, s).ptr != w.heap.next
  {
    assert SlotOk(w.heap, At(w, m, s));
  }

  /** A slot without buffer gets a fresh one of its own. */
  lemma FreshKeeps(w: World, m: nat, s: nat, a: Slot, content: seq<int>)
    requires Inv(w) && In(w, m, s) && At(w, m, s).ptr == NULL && a.imported == At(w, m, s).imported
    requires a.ptr == w.heap.next && !a.shared && a.capacity == |content| && a.size <= a.capacity && UNSET !in content
    ensures Inv(SetSlot(w, m, s, a).(heap := Alloc(w.heap, content)))
    ensures ViewsAfter(w, SetSlot(w, m, s, a).(heap := Alloc(w.heap, content)), m, s)
  {
    hide SlotOk, Sized, FreedOnce, Written, SetSlot, Alloc, At, ViewsAfter;
    ViewsFresh(w, m, s, a, content);
    var w' := SetSlot(w, m, s, a).(heap := Alloc(w.heap, content));
    SetAt(w, m, s, a);
    SameAt(SetSlot(w, m, s, a), w');
    AllocatedHeap(w.heap, content);
    forall n, t | In(w', n, t)
      ensures SlotOk(w'.heap, At(w', n, t)) && Sized(t, At(w', n, t)) && ((n != m || t != s) ==> At(w, n, t).ptr != a.ptr)
    {
      assert SlotOk(w.heap, At(w, n, t)) && Sized(t, At(w, n, t));
      SlotLater(w.heap, content, At(w, n, t), a);
      HasBuffer(t, a);
    }
    WrittenLater(w.heap, content);
    forall n, t, x, y | In(w', n, t) && In(w', x, y) ensures Agree(t, At(w', n, t), y, At(w', x, y)) {
      assert Agree(t, At(w, n, t), y, At(w, x, y));
    }
    FreshOwners(w, w', m, s, a);
  }

  lemma ViewsFresh(w: World, m: nat, s: nat, a: Slot, content: seq<int>)
    requires Inv(w) && In(w, m, s) && At(w, m, s).ptr == NULL && a.imported == At(w, m, s).imported
    requires a.ptr == w.heap.next && !a.shared && a.capacity == |content| && a.size <= a.capacity
    ensures ViewsAfter(w, SetSlot(w, m, s, a).(heap := Alloc(w.heap, content)), m, s)
  {
    hide FreedOnce, Written, SetSlot, Alloc, At;
    var w' := SetSlot(w, m, s, a).(heap := Alloc(w.heap, content));
    SetAt(w, m, s, a);
    SameAt(SetSlot(w, m, s, a), w');
    AllocatedHeap(w.heap, content);
    forall n, t | In(w, n, t) ensures ViewAfter(w, w', m, s, n, t) {
      assert SlotOk(w.heap, At(w, n, t)) && SlotOk(w.heap, At(w, m, s));
      SlotLater(w.heap, content, At(w, n, t), a);
    }
  }

  lemma SameAt(w: World, w': World)
    requires w.mods == w'.mods
    ensures forall x, y :: (In(w', x, y) <==> In(w, x, y)) && (In(w, x, y) ==> At(w', x, y) == At(w, x, y))
  {
  }

  lemma AllocatedHeap(h: Heap, content: seq<int>)
    requires FreedOnce(h)
    ensures FreedOnce(Alloc(h, content)) && Alloc(h, content).live == h.live[h.next := content] && h.next !in h.live
  {
  }

  /** Slots that were right stay right after an allocation, and none of them has the new address. */
  lemma SlotLater(h: Heap, content: seq<int>, b: Slot, a: Slot)
    requires SlotOk(h, b) && FreedOnce(h) && a.ptr == h.next && !a.shared && a.capacity == |content| && a.size <= a.capacity
    ensures SlotOk(Alloc(h, content), b) && SlotOk(Alloc(h, content), a) && b.ptr != a.ptr
  {
  }

  lemma HasBuffer(s: int, a: Slot)
    requires a.ptr != NULL
    ensures Sized(s, a)
  {
  }

  lemma WrittenLater(h: Heap, content: seq<int>)
    requires Written(h) && UNSET !in content
    ensures Written(Alloc(h, content)) && Alloc(h, content).spilled == h.spilled
  {
  }

  lemma FreshOwners(w: World, w': World, m: nat, s: nat, a: Slot)
    requires Inv(w) && In(w, m, s) && At(w, m, s).ptr == NULL && !a.shared && a.ptr == w.heap.next
    requires forall x, y :: In(w', x, y) <==> In(w, x, y)
    requires forall x, y :: In(w, x, y) ==> At(w', x, y) == if x == m && y == s then a else At(w, x, y)
    requires forall x, y :: In(w, x, y) ==> (x != m || y != s) ==> At(w, x, y).ptr != a.ptr
    requires w'.heap.live.Keys == w.heap.live.Keys + {w.heap.next}
    ensures forall q :: q in w'.heap.live ==> exists x, y :: Owns(w', x, y, q)
    ensures forall q, x, y, u, v :: Owns(w', x, y, q) && Owns(w', u, v, q) ==> x == u && y == v
  {
    hide SlotOk, FreedOnce;
    forall q | q in w'.heap.live ensures exists n, t :: Owns(w', n, t, q) {
      if q == w.heap.next {
        assert Owns(w', m, s, q);
      } else {
        var n, t :| Owns(w, n, t, q);
        assert Owns(w', n, t, q);
      }
    }
    forall q, n, t, x, y | Owns(w', n, t, q) && Owns(w', x, y, q) ensures n == x && t == y {
      if q != w.heap.next { assert Owns(w, n, t, q) && Owns(w, x, y, q); }
    }
  }

  /** The module's own memory or table gets its buffer. */
  predicate Founds(a: Slot, s: int, bytes: nat, answer: int)
  {
    a.ptr == NULL && !a.shared && !a.imported && (if s == 0 then bytes <= MAX_MEMORY else a.size > 0) && answer >= 0
  }

  /** Instantiation keeps the invariant if and only if the buffer granted for a table is not too small; then the memory reads
      as zeros, the table as nulls, and no other view changes. */
  lemma InstantiateKeeps(w: World, m: nat, s: nat, bytes: nat, answer: int)
    requires Inv(w) && In(w, m, s)
    ensures var w', a := Instantiate(w, m, s, bytes, answer), At(w, m, s);
            var founds := a.ptr == NULL && !a.shared && !a.imported && answer >= 0 && if s == 0 then bytes <= 64 * 1024 * 1024 else a.size > 0;
            && (Inv(w') <==> !(s > 0 && founds && answer < a.size))
            && (Inv(w') ==> ViewsAfter(w, w', m, s))
            && (!founds ==> w' == w)
            && (Inv(w') && founds ==>
                  && In(w', m, s) && SlotOk(w'.heap, At(w', m, s))
                  && Content(w', m, s) == if s == 0 then Fill(bytes, 0) else Fill(a.size, NULL))
  {
    hide ViewsAfter, SlotOk, Sized, FreedOnce, Written;
    ViewsSame(w, m, s);
    var a := At(w, m, s);
    if Founds(a, s, bytes, answer) && !(s > 0 && answer < a.size) {
      var size, fill := if s == 0 then bytes else a.size, if s == 0 then 0 else NULL;
      var capacity := if size > 0 then size else 1;
      FreshKeeps(w, m, s, a.(ptr := w.heap.next, size := size, capacity := capacity), Fill(capacity, fill));
      FreshContent(w, m, s, a.(ptr := w.heap.next, size := size, capacity := capacity), Fill(capacity, fill));
      assert Fill(capacity, fill)[..size] == Fill(size, fill);
    }
  }

  lemma FreshContent(w: World, m: nat, s: nat, a: Slot, content: seq<int>)
    requires In(w, m, s) && a.ptr == w.heap.next && a.capacity == |content| && a.size <= a.capacity
    ensures var w' := SetSlot(w, m, s, a).(heap := Alloc(w.heap, content));
            In(w', m, s) && SlotOk(w'.heap, At(w', m, s)) && Content(w', m, s) == content[..a.size]
  {
  }

  /** An import that takes over the exporter's view. */
  predicate Joins(a: Slot, b: Slot, s: int, min: nat, max: nat)
  {
    && !a.shared && (s > 0 || a.ptr == NULL)
    && b.ptr != NULL && Compatible(if s == 0 then b.size / PAGE else b.size, b.max, min, max)
  }

  /** Linking keeps the invariant if and only if it does not overwrite a table that has a buffer of its own, whose buffer
      then has no owner. Otherwise it adds a view that agrees with the exporter's, within the import's limits; a refusal
      changes nothing. */
  lemma LinkKeeps(w: World, m: nat, s: nat, n: nat, t: nat, min: nat, max: nat)
    requires Inv(w) && In(w, m, s) && In(w, n, t) && (s == 0 <==> t == 0)
    ensures var r, a, b := Link(w, m, s, n, t, min, max), At(w, m, s), At(w, n, t);
            var size := if s == 0 then b.size / 65536 else b.size;
            var joins := !a.shared && (s == 0 ==> a.ptr == NULL) && b.ptr != NULL && size >= min && (max == 0 || 0 < b.max <= max);
            && (Inv(r.0) <==> !(joins && a.ptr != NULL))
            && (!joins ==> r.0 == w)
            && (r.1 <==> a.shared || (s == 0 && a.ptr != NULL) || joins)
            && (Inv(r.0) && joins ==>
                  && In(r.0, m, s) && SlotOk(r.0.heap, At(r.0, m, s)) && SlotOk(w.heap, b)
                  && At(r.0, m, s) == b.(shared := true, imported := a.imported) && Content(r.0, m, s) == Content(w, n, t))
  {
    hide Inv;
    SlotsOk(w);
    if Joins(At(w, m, s), At(w, n, t), s, min, max) {
      if At(w, m, s).ptr == NULL { SharedKeeps(w, m, s, n, t); } else { Overwritten(w, m, s, n, t); }
    }
  }

  /** The buffer of an owner that becomes an importer has no owner. */
  lemma Overwritten(w: World, m: nat, s: nat, n: nat, t: nat)
    requires Inv(w) && In(w, m, s) && In(w, n, t) && At(w, m, s).ptr != NULL && !At(w, m, s).shared
    ensures !Inv(SetSlot(w, m, s, At(w, n, t).(shared := true, imported := At(w, m, s).imported)))
  {
    hide Written, FreedOnce, SetSlot, At;
    var a := At(w, n, t).(shared := true, imported := At(w, m, s).imported);
    var w' := SetSlot(w, m, s, a);
    SetAt(w, m, s, a);
    var p := At(w, m, s).ptr;
    assert SlotOk(w.heap, At(w, m, s)) && Owns(w, m, s, p);
    forall x, y ensures !Owns(w', x, y, p) {
      assert Owns(w', x, y, p) ==> Owns(w, x, y, p);
    }
  }

  lemma SharedKeeps(w: World, m: nat, s: nat, n: nat, t: nat)
    requires Inv(w) && In(w, m, s) && In(w, n, t) && (s == 0 <==> t == 0) && At(w, n, t).ptr != NULL && At(w, m, s).ptr == NULL
    ensures Inv(SetSlot(w, m, s, At(w, n, t).(shared := true, imported := At(w, m, s).imported)))
  {
    hide SlotOk, Sized, FreedOnce, Written, SetSlot, At;
    var a := At(w, n, t).(shared := true, imported := At(w, m, s).imported);
    var w' := SetSlot(w, m, s, a);
    SetAt(w, m, s, a);
    forall x, y | In(w', x, y) ensures SlotOk(w'.heap, At(w', x, y)) && Sized(y, At(w', x, y)) {
      assert SlotOk(w.heap, At(w, x, y)) && SlotOk(w.heap, At(w, n, t)) && Sized(y, At(w, x, y));
      SharedSlot(w.heap, At(w, n, t), At(w, m, s).imported);
      HasBuffer(y, a);
    }
    forall x, y, u, v | In(w', x, y) && In(w', u, v) ensures Agree(y, At(w', x, y), v, At(w', u, v)) {
      assert Agree(y, At(w, x, y), v, At(w, u, v)) && Agree(t, At(w, n, t), v, At(w, u, v)) && Agree(y, At(w, x, y), t, At(w, n, t));
    }
    SharedOwners(w, m, s, a);
  }

  lemma SharedSlot(h: Heap, b: Slot, imported: bool)
    requires SlotOk(h, b) && b.ptr != NULL
    ensures SlotOk(h, b.(shared := true, imported := imported))
  {
  }

  lemma SharedOwners(w: World, m: nat, s: nat, a: Slot)
    requires Inv(w) && In(w, m, s) && At(w, m, s).ptr == NULL && a.shared
    ensures var w' := SetSlot(w, m, s, a);
            && (forall q :: q in w'.heap.live ==> exists x, y :: Owns(w', x, y, q))
            && (forall q, x, y, u, v :: Owns(w', x, y, q) && Owns(w', u, v, q) ==> x == u && y == v)
  {
    hide SlotOk, Sized, FreedOnce, Written, SetSlot;
    var w' := SetSlot(w, m, s, a);
    SetAt(w, m, s, a);
    forall q | q in w'.heap.live ensures exists x, y :: Owns(w', x, y, q) {
      var x, y :| Owns(w, x, y, q);
      assert Owns(w', x, y, q);
    }
    forall q, x, y, u, v | Owns(w', x, y, q) && Owns(w', u, v, q) ensures x == u && y == v {
      assert Owns(w, x, y, q) && Owns(w, u, v, q);
    }
  }

  /** Only one slot is set. */
  lemma SetAt(w: World, m: nat, s: nat, a: Slot)
    requires In(w, m, s)
    ensures var w' := SetSlot(w, m, s, a);
            && w'.heap == w.heap && |w'.mods| == |w.mods|
            && (forall x, y :: In(w', x, y) <==> In(w, x, y))
            && (forall x, y :: In(w, x, y) ==> At(w', x, y) == if x == m && y == s then a else At(w, x, y))
  {
  }

  // ----- unloading -----

  /** The invariant while modules are being unloaded: views left by unloaded owners may dangle, but nobody owns them. */
  ghost predicate Unloading(w: World)
  {
    && (forall p, m, s :: Owns(w, m, s, p) ==> p in w.heap.live)
    && (forall p :: p in w.heap.live ==> exists m, s :: Owns(w, m, s, p))
    && (forall p, m, s, n, t :: Owns(w, m, s, p) && Owns(w, n, t, p) ==> m == n && s == t)
    && FreedOnce(w.heap) && !w.heap.spilled
  }

  lemma StartsUnloading(w: World)
    requires Inv(w)
    ensures Unloading(w)
  {
    forall p, m, s | Owns(w, m, s, p) ensures p in w.heap.live { assert SlotOk(w.heap, At(w, m, s)); }
  }

  const EMPTY: Slot := Slot(NULL, 0, 0, 0, false, false)

  /** A slot is given up; its owner gives the buffer back. */
  function FreeSlot(w: World, m: nat, s: nat): World
    requires In(w, m, s)
  {
    var a := At(w, m, s);
    var w1 := SetSlot(w, m, s, EMPTY);
    if a.ptr >= 0 && !a.shared then w1.(heap := Release(w.heap, a.ptr)) else w1
  }

  lemma FreeSlotKeeps(w: World, m: nat, s: nat)
    requires Unloading(w) && In(w, m, s)
    ensures Unloading(FreeSlot(w, m, s))
    ensures forall x, y :: In(FreeSlot(w, m, s), x, y) <==> In(w, x, y)
    ensures forall x, y :: In(w, x, y) ==> At(FreeSlot(w, m, s), x, y) == if x == m && y == s then EMPTY else At(w, x, y)
  {
    hide FreedOnce, SetSlot, At;
    var a, w1, w' := At(w, m, s), SetSlot(w, m, s, EMPTY), FreeSlot(w, m, s);
    SetAt(w, m, s, EMPTY);
    SameAt(w1, w');
    if a.ptr >= 0 && !a.shared {
      assert Owns(w, m, s, a.ptr);
      ReleasedHeap(w.heap, a.ptr);
    }
    forall p, x, y | Owns(w', x, y, p) ensures Owns(w, x, y, p) && p in w'.heap.live { }
    forall p | p in w'.heap.live ensures exists x, y :: Owns(w', x, y, p) {
      var x, y :| Owns(w, x, y, p);
      assert Owns(w', x, y, p);
    }
  }

  lemma ReleasedHeap(h: Heap, p: nat)
    requires FreedOnce(h) && p in h.live
    ensures FreedOnce(Release(h, p)) && Release(h, p).live == h.live - {p} && Release(h, p).spilled == h.spilled
  {
  }
  /** Slots from `s` on. */
  function FreeSlots(w: World, m: nat, s: nat): (w': World)
    requires m < |w.mods| && w.mods[m].Module?
    ensures |w'.mods| == |w.mods| && w'.mods[m].Module?
    decreases |w.mods[m].slots| - s
  {
    if s >= |w.mods[m].slots| then w else FreeSlots(FreeSlot(w, m, s), m, s + 1)
  }

  /** One module is freed, its tables first, and forgotten. */
  function Forget(w: World, m: nat): (w': World)
    requires m < |w.mods|
    ensures |w'.mods| == |w.mods|
  {
    if w.mods[m].NoModule? then w
    else
      var w1 := FreeSlots(w, m, 1);
      var w2 := if In(w1, m, 0) then FreeSlot(w1, m, 0) else w1;
      w2.(mods := w2.mods[m := NoModule])
  }

  /** All modules from `m` on. */
  function UnloadFrom(w: World, m: nat): World
    decreases |w.mods| - m
  {
    if m >= |w.mods| then w else UnloadFrom(Forget(w, m), m + 1)
  }

  /** Slots of module `m` from `s` on have been given up; nothing else changed. */
  ghost predicate Emptied(w: World, w': World, m: nat, s: nat)
  {
    && w'.heap.next == w.heap.next && |w'.mods| == |w.mods|
    && (forall x, y :: In(w', x, y) <==> In(w, x, y))
    && (forall x, y :: In(w, x, y) ==> At(w', x, y) == if x == m && y >= s then EMPTY else At(w, x, y))
    && (forall k :: 0 <= k < |w.mods| && k != m ==> w'.mods[k] == w.mods[k])
  }

  lemma {:induction false} FreeSlotsKeeps(w: World, m: nat, s: nat)
    requires Unloading(w) && m < |w.mods| && w.mods[m].Module?
    ensures Unloading(FreeSlots(w, m, s)) && Emptied(w, FreeSlots(w, m, s), m, s)
    decreases |w.mods[m].slots| - s
  {
    hide Unloading, At;
    if s < |w.mods[m].slots| {
      FreeSlotKeeps(w, m, s);
      FreeSlotsKeeps(FreeSlot(w, m, s), m, s + 1);
    }
  }

  lemma ForgetKeeps(w: World, m: nat)
    requires Unloading(w) && m < |w.mods|
    ensures var w' := Forget(w, m);
            && Unloading(w') && w'.heap.next == w.heap.next && w'.mods[m].NoModule?
            && forall k :: 0 <= k < |w.mods| && k != m ==> w'.mods[k] == w.mods[k]
  {
    hide Unloading, FreeSlot, FreeSlots, At;
    if w.mods[m].Module? {
      FreeSlotsKeeps(w, m, 1);
      var w1 := FreeSlots(w, m, 1);
      if In(w1, m, 0) { FirstSlotKeeps(w1, m); }
      DropKeeps(if In(w1, m, 0) then FreeSlot(w1, m, 0) else w1, m);
    }
  }

  lemma FirstSlotKeeps(w: World, m: nat)
    requires Unloading(w) && In(w, m, 0)
    ensures Unloading(FreeSlot(w, m, 0)) && |FreeSlot(w, m, 0).mods| == |w.mods| && FreeSlot(w, m, 0).heap.next == w.heap.next
    ensures forall x, y :: In(FreeSlot(w, m, 0), x, y) <==> In(w, x, y)
    ensures forall x, y :: In(w, x, y) ==> At(FreeSlot(w, m, 0), x, y) == if x == m && y == 0 then EMPTY else At(w, x, y)
    ensures forall k :: 0 <= k < |w.mods| && k != m ==> FreeSlot(w, m, 0).mods[k] == w.mods[k]
    ensures FreeSlot(w, m, 0).mods[m].Module?
  {
    hide Unloading;
    FreeSlotKeeps(w, m, 0);
  }

  /** Unloading everything restores the invariant: nothing is loaded or live, and everything ever handed out was freed
      exactly once; loading can begin anew. */
  lemma UnloadKeeps(w: World)
    requires Inv(w)
    ensures var w' := UnloadFrom(w, 0);
            && Inv(w') && |w'.mods| == |w.mods| && (forall k :: 0 <= k < |w.mods| ==> w'.mods[k].NoModule?)
            && w'.heap.live == map[] && w'.heap.next == w.heap.next
  {
    hide Inv, Unloading;
    StartsUnloading(w);
    UnloadFromKeeps(w, 0);
    NothingLeft(UnloadFrom(w, 0));
  }

  lemma {:induction false} UnloadFromKeeps(w: World, m: nat)
    requires Unloading(w) && m <= |w.mods| && forall k :: 0 <= k < m ==> w.mods[k].NoModule?
    ensures var w' := UnloadFrom(w, m);
            && Unloading(w') && |w'.mods| == |w.mods| && w'.heap.next == w.heap.next
            && forall k :: 0 <= k < |w.mods| ==> w'.mods[k].NoModule?
    decreases |w.mods| - m
  {
    hide Unloading, Forget;
    if m < |w.mods| {
      ForgetKeeps(w, m);
      UnloadFromKeeps(Forget(w, m), m + 1);
    }
  }

  lemma DropKeeps(w: World, m: nat)
    requires Unloading(w) && m < |w.mods| && w.mods[m].Module?
    requires forall s :: In(w, m, s) ==> At(w, m, s) == EMPTY
    ensures Unloading(w.(mods := w.mods[m := NoModule]))
  {
    var w' := w.(mods := w.mods[m := NoModule]);
    forall p, x, y | Owns(w', x, y, p) ensures Owns(w, x, y, p) && p in w'.heap.live { assert Owns(w, x, y, p); }
    forall p | p in w'.heap.live ensures exists x, y :: Owns(w', x, y, p) {
      var x, y :| Owns(w, x, y, p);
      assert Owns(w', x, y, p);
    }
  }

  lemma NothingLeft(w: World)
    requires Unloading(w) && forall i :: 0 <= i < |w.mods| ==> w.mods[i].NoModule?
    ensures Inv(w) && w.heap.live == map[]
  {
    assert forall p, m, s :: !Owns(w, m, s, p);
  }

  // ----- runs -----

  /** What a module says of its memory or a table, with `max` 0 for a memory without maximum. */
  datatype Decl = Decl(min: nat, max: nat, imported: bool)

  datatype Op =
    | Load(m: nat, decls: seq<Decl>)
    | LinkTo(m: nat, s: nat, n: nat, t: nat, min: nat, max: nat)
    | Own(m: nat, s: nat, bytes: nat, answer: int)
    | MemoryGrow(m: nat, delta: nat, grant: bool)
    | TableGrow(m: nat, s: nat, count: int, fill: Entry, answer: int)
    | UnloadAll

  /** When the code reaches the operation: modules are loaded into free places, and only imports are linked. */
  predicate Enabled(w: World, op: Op)
  {
    match op
    case Load(m, _) => m < |w.mods| && w.mods[m].NoModule?
    case LinkTo(m, s, n, t, _, _) => In(w, m, s) && In(w, n, t) && (s == 0 <==> t == 0) && At(w, m, s).imported
    case Own(m, s, _, _) => In(w, m, s)
    case MemoryGrow(m, _, _) => In(w, m, 0) && SlotOk(w.heap, At(w, m, 0)) && Sized(0, At(w, m, 0))
    case TableGrow(m, s, _, _, _) => In(w, m, s) && s > 0 && SlotOk(w.heap, At(w, m, s))
    case UnloadAll => true
  }

  const UNBOUNDED: nat := 0xFFFF_FFFF

  /** Until they are linked, imports have neither size nor maximum. */
  function NewSlot(i: nat, d: Decl): Slot
  {
    if i == 0 then EMPTY.(max := if d.imported then 0 else d.max, imported := d.imported)
    else if d.imported then EMPTY.(max := UNBOUNDED, imported := true)
    else EMPTY.(size := d.min, max := d.max)
  }

  function NewSlots(decls: seq<Decl>): seq<Slot>
  {
    seq(|decls|, i requires 0 <= i < |decls| => NewSlot(i, decls[i]))
  }

  function Apply(w: World, op: Op): World
  {
    if !Enabled(w, op) then w
    else
      match op
      case Load(m, decls) => w.(mods := w.mods[m := Module(NewSlots(decls))])
      case LinkTo(m, s, n, t, min, max) => Link(w, m, s, n, t, min, max).0
      case Own(m, s, bytes, answer) => Instantiate(w, m, s, bytes, answer)
      case MemoryGrow(m, delta, grant) => GrowMemory(w, m, delta, grant).w
      case TableGrow(m, s, n, fill, answer) => GrowTable(w, m, s, n, fill, answer).w
      case UnloadAll => UnloadFrom(w, 0)
  }

  function Run(w: World, ops: seq<Op>): World
    decreases |ops|
  {
    if ops == [] then w else Run(Apply(w, ops[0]), ops[1..])
  }

  lemma LoadKeeps(w: World, m: nat, decls: seq<Decl>)
    requires Inv(w) && m < |w.mods| && w.mods[m].NoModule?
    ensures Inv(w.(mods := w.mods[m := Module(NewSlots(decls))]))
  {
    hide SlotOk, Sized, FreedOnce, Written, At;
    var w' := w.(mods := w.mods[m := Module(NewSlots(decls))]);
    LoadedAt(w, m, decls);
    forall x, y | In(w', x, y) ensures SlotOk(w'.heap, At(w', x, y)) && Sized(y, At(w', x, y)) {
      if x == m { EmptyOk(w.heap, y, At(w', x, y)); } else { assert SlotOk(w.heap, At(w, x, y)) && Sized(y, At(w, x, y)); }
    }
    forall x, y, u, v | In(w', x, y) && In(w', u, v) ensures Agree(y, At(w', x, y), v, At(w', u, v)) {
      if x != m && u != m { assert Agree(y, At(w, x, y), v, At(w, u, v)); }
    }
    forall q | q in w'.heap.live ensures exists x, y :: Owns(w', x, y, q) {
      var x, y :| Owns(w, x, y, q);
      assert Owns(w', x, y, q);
    }
    forall q, x, y, u, v | Owns(w', x, y, q) && Owns(w', u, v, q) ensures x == u && y == v {
      assert Owns(w, x, y, q) && Owns(w, u, v, q);
    }
  }

  lemma EmptyOk(h: Heap, s: int, a: Slot)
    requires a.ptr == NULL && !a.shared && a.capacity == 0 && (s == 0 ==> a.size == 0)
    ensures SlotOk(h, a) && Sized(s, a)
  {
  }

  lemma LoadedAt(w: World, m: nat, decls: seq<Decl>)
    requires m < |w.mods| && w.mods[m].NoModule?
    ensures var w' := w.(mods := w.mods[m := Module(NewSlots(decls))]);
            && (forall x, y :: x != m ==> (In(w', x, y) <==> In(w, x, y)))
            && (forall x, y :: x != m && In(w, x, y) ==> At(w', x, y) == At(w, x, y))
            && (forall y :: !In(w, m, y))
            && (forall y :: In(w', m, y) ==>
                  && At(w', m, y).ptr == NULL && !At(w', m, y).shared && At(w', m, y).capacity == 0
                  && (y == 0 ==> At(w', m, y).size == 0))
  {
  }

  /** A growth of a memory without buffer that would hand the new one to other modules as well. */
  predicate Aliases(w: World, op: Op)
  {
    && op.MemoryGrow? && Enabled(w, op) && At(w, op.m, 0).ptr == NULL && !Alone(w, op.m)
    && op.delta > 0 && !TooLarge(At(w, op.m, 0), op.delta) && op.grant
  }

  /** A link that would overwrite a table with a buffer of its own. */
  predicate Overwrites(w: World, op: Op)
  {
    && op.LinkTo? && Enabled(w, op) && At(w, op.m, op.s).ptr != NULL
    && Joins(At(w, op.m, op.s), At(w, op.n, op.t), op.s, op.min, op.max)
  }

  /** A table's buffer that is too small, or whose first entries would never be written. */
  predicate Misfits(w: World, op: Op)
  {
    || (op.TableGrow? && Enabled(w, op) && GrowsBadly(At(w, op.m, op.s), op.count, op.answer))
    || (op.Own? && Enabled(w, op) && op.s > 0 && op.answer < At(w, op.m, op.s).size
        && Founds(At(w, op.m, op.s), op.s, op.bytes, op.answer))
  }

  /** One operation keeps the invariant unless it is one of these, and then it does not. */
  lemma ApplyKeeps(w: World, op: Op)
    requires Inv(w)
    ensures Inv(Apply(w, op)) <==> !Aliases(w, op) && !Overwrites(w, op) && !Misfits(w, op)
  {
    hide Inv, Link, Instantiate, GrowMemory, GrowTable, SlotOk, Sized, NewSlots, UnloadFrom, Alone;
    if Enabled(w, op) {
      match op
      case Load(m, decls) => LoadKeeps(w, m, decls);
      case LinkTo(m, s, n, t, min, max) => LinkKeeps(w, m, s, n, t, min, max);
      case Own(m, s, bytes, answer) => InstantiateKeeps(w, m, s, bytes, answer);
      case MemoryGrow(m, delta, grant) => GrowMemorySafe(w, m, delta, grant);
      case TableGrow(m, s, n, fill, answer) => GrowTableKeeps(w, m, s, n, fill, answer);
      case UnloadAll => UnloadKeeps(w);
    }
  }

  /** During the run no memory without buffer is grown while another module is without one, no table that has a buffer is
      overwritten by a link, and no table without buffer but with entries declared is grown; every buffer granted for a table
      is large enough. */
  predicate Orderly(w: World, ops: seq<Op>)
    decreases |ops|
  {
    || ops == []
    || (&& !Aliases(w, ops[0]) && !Overwrites(w, ops[0]) && !Misfits(w, ops[0])
        && Orderly(Apply(w, ops[0]), ops[1..]))
  }

  /** The invariant holds all through the run. */
  ghost predicate Sound(w: World, ops: seq<Op>)
    decreases |ops|
  {
    Inv(w) && (ops != [] ==> Sound(Apply(w, ops[0]), ops[1..]))
  }

  /** Over every run of loads, links, instantiations, growths and unloads: nothing is written behind a buffer or left
      unwritten in one, all views of a buffer agree, every live buffer has exactly one owner, and no buffer was freed twice,
      all through the run, if and only if the run is orderly. */
  lemma {:induction false} RunKeeps(w: World, ops: seq<Op>)
    requires Inv(w)
    ensures Sound(w, ops) <==> Orderly(w, ops)
    ensures Orderly(w, ops) ==> Inv(Run(w, ops))
    decreases |ops|
  {
    hide Inv, Apply, Aliases, Overwrites, Misfits;
    if ops != [] {
      ApplyKeeps(w, ops[0]);
      if Inv(Apply(w, ops[0])) { RunKeeps(Apply(w, ops[0]), ops[1..]); }
    }
  }

  const TwoModules: World := World([NoModule, NoModule], Heap(map[], [], 0, false))
  const MEMORY: Decl := Decl(0, 0, false)

  /** A run that is not: two modules are loaded, and one grows before its memory is instantiated. */
  lemma UninstantiatedGrowthAliases()
    ensures Inv(TwoModules) && !Sound(TwoModules, [Load(0, [MEMORY]), Load(1, [MEMORY]), MemoryGrow(0, 1, true)])
  {
    hide Inv, Sound, GrowMemory;
    var w0, ops := TwoModules, [Load(0, [MEMORY]), Load(1, [MEMORY]), MemoryGrow(0, 1, true)];
    EmptyWorld(w0);
    var w1 := Apply(w0, ops[0]);
    var w2 := Apply(w1, ops[1]);
    assert w2.mods == [Module(NewSlots([MEMORY])), Module(NewSlots([MEMORY]))];
    assert In(w2, 0, 0) && In(w2, 1, 0) && At(w2, 0, 0) == EMPTY && At(w2, 1, 0) == EMPTY;
    assert Pages(0) == 0;
    assert ops[1..] == [ops[1], ops[2]] && ops[1..][1..] == [ops[2]];
    assert !Orderly(w2, [ops[2]]);
    assert !Orderly(w1, [ops[1], ops[2]]) by { assert [ops[1], ops[2]][1..] == [ops[2]]; }
    RunKeeps(w0, ops);
  }

  const ONE_TABLE: seq<Decl> := [MEMORY, Decl(2, 8, false)]
  const IMPORT_TABLE: seq<Decl> := [MEMORY, Decl(0, 0, true)]

  /** Another: the importer of a table is loaded first and grows the table it does not have yet; when the exporter is there,
      linking overwrites the buffer, which then has no owner. */
  lemma LateExporterOverwrites()
    ensures Inv(TwoModules) && !Sound(TwoModules, [Load(0, IMPORT_TABLE), TableGrow(0, 1, 1, NULL, 1),
                                                   Load(1, ONE_TABLE), Own(1, 1, 0, 2), LinkTo(0, 1, 1, 1, 2, 0)])
  {
    hide Inv, Sound;
    var w0 := TwoModules;
    var ops := [Load(0, IMPORT_TABLE), TableGrow(0, 1, 1, NULL, 1), Load(1, ONE_TABLE), Own(1, 1, 0, 2), LinkTo(0, 1, 1, 1, 2, 0)];
    EmptyWorld(w0);
    LoadsTwo(w0, 0, Decl(0, 0, true));
    var w1 := Apply(w0, ops[0]);
    assert w1.mods == [Module([EMPTY, Slot(NULL, 0, 0, UNBOUNDED, false, true)]), NoModule];
    var w2 := Apply(w1, ops[1]);
    var a := Slot(0, 1, 1, UNBOUNDED, false, true);
    assert In(w1, 0, 1) && w1.mods[0].slots[1 := a] == [EMPTY, a];
    assert w2.mods == [Module([EMPTY, a]), NoModule] && w2.heap.next == 1;
    LoadsTwo(w2, 1, Decl(2, 8, false));
    var w3 := Apply(w2, ops[2]);
    assert w3.mods == [Module([EMPTY, a]), Module([EMPTY, Slot(NULL, 2, 0, 8, false, false)])] && w3.heap.next == 1;
    var w4 := Apply(w3, ops[3]);
    var b := Slot(1, 2, 2, 8, false, false);
    assert In(w3, 1, 1) && w3.mods[1].slots[1 := b] == [EMPTY, b];
    assert w4.mods == [Module([EMPTY, a]), Module([EMPTY, b])];
    assert In(w4, 0, 1) && In(w4, 1, 1) && At(w4, 0, 1) == a && At(w4, 1, 1) == b;
    assert Overwrites(w4, ops[4]);
    NotOrderly(w0, ops, 4, [w0, w1, w2, w3, w4]);
    RunKeeps(w0, ops);
  }

  /** And another: a table grown before it is instantiated keeps entries nobody wrote. */
  lemma EarlyGrowthUnset()
    ensures Inv(TwoModules) && !Sound(TwoModules, [Load(0, ONE_TABLE), TableGrow(0, 1, 1, NULL, 3)])
  {
    hide Inv, Sound;
    var w0, ops := TwoModules, [Load(0, ONE_TABLE), TableGrow(0, 1, 1, NULL, 3)];
    EmptyWorld(w0);
    LoadsTwo(w0, 0, Decl(2, 8, false));
    var w1 := Apply(w0, ops[0]);
    assert w1.mods == [Module([EMPTY, Slot(NULL, 2, 0, 8, false, false)]), NoModule];
    NotOrderly(w0, ops, 1, [w0, w1]);
    RunKeeps(w0, ops);
  }

  /** And a last one, with words of 32 bits: growing a table to 2^30 + 1 entries asks for the bytes of one. */
  lemma WrappedGrowthSpills(unit: nat)
    requires 0 < unit < 0x1000
    ensures var room := Requests.Room(0x1_0000_0000, unit, 4, 0x4000_0001);
            Inv(TwoModules) && !Sound(TwoModules, [Load(0, IMPORT_TABLE), TableGrow(0, 1, 0x4000_0001, NULL, room)])
  {
    hide Inv, Sound;
    var room := Requests.Room(0x1_0000_0000, unit, 4, 0x4000_0001);
    var w0, ops := TwoModules, [Load(0, IMPORT_TABLE), TableGrow(0, 1, 0x4000_0001, NULL, room)];
    EmptyWorld(w0);
    LoadsTwo(w0, 0, Decl(0, 0, true));
    var w1 := Apply(w0, ops[0]);
    assert w1.mods == [Module([EMPTY, Slot(NULL, 0, 0, UNBOUNDED, false, true)]), NoModule];
    assert room == 1;
    NotOrderly(w0, ops, 1, [w0, w1]);
    RunKeeps(w0, ops);
  }

  lemma LoadsTwo(w: World, m: nat, d: Decl)
    requires m < |w.mods| && w.mods[m].NoModule?
    ensures Apply(w, Load(m, [MEMORY, d])) == w.(mods := w.mods[m := Module([EMPTY, NewSlot(1, d)])])
  {
    assert NewSlots([MEMORY, d]) == [EMPTY, NewSlot(1, d)];
  }

  /** A run that comes to a bad operation is not orderly. */
  lemma {:induction false} NotOrderly(w: World, ops: seq<Op>, k: nat, ws: seq<World>)
    requires k < |ops| && |ws| == k + 1 && ws[0] == w && forall i :: 0 <= i < k ==> ws[i + 1] == Apply(ws[i], ops[i])
    requires Aliases(ws[k], ops[k]) || Overwrites(ws[k], ops[k]) || Misfits(ws[k], ops[k])
    ensures !Orderly(w, ops)
    decreases k
  {
    hide Apply, Aliases, Overwrites, Misfits;
    if k > 0 { NotOrderly(ws[1], ops[1..], k - 1, ws[1..]); }
  }

  lemma EmptyWorld(w: World)
    requires w.heap == Heap(map[], [], 0, false) && forall i :: 0 <= i < |w.mods| ==> w.mods[i].NoModule?
    ensures Inv(w)
  {
  }

  // ----- the code -----

  class Engine {
    const modules: array<Instance>
    var heap: Heap

    constructor (count: nat)
      ensures View() == World(seq(count, _ => NoModule), Heap(map[], [], 0, false)) && fresh(modules)
      ensures Inv(View())
    {
      modules := new Instance[count](_ => NoModule);
      heap := Heap(map[], [], 0, false);
    }

    function View(): World
      reads this, modules
    {
      World(modules[..], heap)
    }

    /** Every module whose memory is `was` takes the new view. */
    method UpdateMemories(was: int, p: int, size: nat, capacity: nat)
      modifies modules
      ensures modules[..] == MovedModules(old(modules[..]), true, was, p, size, capacity)
    {
      ghost var before := modules[..];
      for i := 0 to modules.Length
        invariant forall k :: 0 <= k < i ==> modules[k] == MovedModules(before, true, was, p, size, capacity)[k]
        invariant forall k :: i <= k < modules.Length ==> modules[k] == before[k]
      {
        if modules[i].Module? && modules[i].slots != [] && modules[i].slots[0].ptr == was {
          var a := modules[i].slots[0];
          modules[i] := Module(modules[i].slots[0 := a.(ptr := p, size := size, capacity := capacity)]);
        }
        assert modules[i].Module? ==> modules[i].slots == MovedSlots(before[i].slots, true, was, p, size, capacity);
      }
    }

    /** Every table slot whose entries are `was` takes the new view. */
    method UpdateTables(was: int, p: int, size: nat)
      modifies modules
      ensures modules[..] == MovedModules(old(modules[..]), false, was, p, size, size)
    {
      ghost var before := modules[..];
      for i := 0 to modules.Length
        invariant forall k :: 0 <= k < i ==> modules[k] == MovedModules(before, false, was, p, size, size)[k]
        invariant forall k :: i <= k < modules.Length ==> modules[k] == before[k]
      {
        if modules[i].Module? {
          var slots := modules[i].slots;
          var t := 1;
          while t < |slots|
            invariant |slots| == |before[i].slots| && 1 <= t
            invariant forall k :: 0 <= k < |slots| ==>
                        slots[k] == if k < t then MovedSlots(before[i].slots, false, was, p, size, size)[k] else before[i].slots[k]
          {
            if slots[t].ptr == was { slots := slots[t := slots[t].(ptr := p, size := size, capacity := size)]; }
            t := t + 1;
          }
          assert slots == MovedSlots(before[i].slots, false, was, p, size, size);
          modules[i] := Module(slots);
        }
      }
    }

    /** memory.grow of module `m`; `grant` is the pool's answer. */
    method MemoryGrow(m: nat, delta: nat, grant: bool) returns (result: int)
      requires In(View(), m, 0) && SlotOk(heap, At(View(), m, 0)) && Sized(0, At(View(), m, 0))
      modifies this, modules
      ensures Grown(View(), result) == GrowMemory(old(View()), m, delta, grant)
    {
      hide MovedModules, Zeros;
      var a := modules[m].slots[0];
      var prev := (a.size + PAGE - 1) / PAGE;
      if delta == 0 { return prev; }
      var pages := prev + delta;
      var size := pages * PAGE;
      if pages > MAX_PAGES || (a.max != 0 && pages > a.max) || size > MAX_MEMORY { return -1; }
      ghost var w := View();
      GrownSize(a.size, delta);
      if size <= a.capacity {
        var was := heap.live[a.ptr];
        heap := heap.(live := heap.live[a.ptr := was[..a.size] + Zeros(size - a.size) + was[size..]]);
        UpdateMemories(a.ptr, a.ptr, size, a.capacity);
      } else {
        var cap := if a.capacity > 0 then a.capacity * 2 else size;
        if cap < size { cap := size; }
        if cap > MAX_MEMORY { cap := MAX_MEMORY; }
        if !grant { return -1; }
        var p := heap.next;
        var front := if a.ptr != NULL then heap.live[a.ptr][..a.size] else [];
        assert front == Buffer(heap, a)[..a.size];
        heap := Alloc(heap, front + Zeros(cap - a.size));
        UpdateMemories(a.ptr, p, size, cap);
        if a.ptr != NULL { heap := Release(heap, a.ptr); }
      }
      result := prev;
    }

    /** table.grow of table slot `s` of module `m`; `answer` is the room in the buffer granted, negative for a refusal. */
    method TableGrow(m: nat, s: nat, n: int, fill: Entry, answer: int) returns (result: int)
      requires In(View(), m, s) && s > 0 && SlotOk(heap, At(View(), m, s))
      modifies this, modules
      ensures Grown(View(), result) == GrowTable(old(View()), m, s, n, fill, answer)
    {
      hide MovedModules;
      var a := modules[m].slots[s];
      if n < 0 { return -1; }
      if n == 0 { return a.size; }
      var size := a.size + n;
      if size > a.max { return -1; }
      if answer < 0 { return -1; }
      if answer < size {
        heap := heap.(spilled := true);
        return a.size;
      }
      var p := heap.next;
      var was := if a.ptr != NULL then heap.live[a.ptr][..a.size] else Fill(a.size, UNSET);
      heap := Alloc(heap, was + Fill(n, fill));
      if a.ptr != NULL {
        heap := Release(heap, a.ptr);
        UpdateTables(a.ptr, p, size);
      } else {
        modules[m] := Module(modules[m].slots[s := a.(ptr := p, size := size, capacity := size)]);
      }
      result := a.size;
    }

    /** Unloads everything; afterwards each buffer ever handed out was freed exactly once. */
    method UnloadAllModules()
      requires Inv(View())
      modifies this, modules
      ensures View() == UnloadFrom(old(View()), 0) && Inv(View())
      ensures forall p: nat :: p < heap.next ==> p in heap.freed
      ensures forall i, j :: 0 <= i < j < |heap.freed| ==> heap.freed[i] != heap.freed[j]
    {
      hide Forget;
      ghost var w := View();
      for i := 0 to modules.Length
        invariant UnloadFrom(View(), i) == UnloadFrom(w, 0)
      {
        FreeModule(i);
      }
      UnloadKeeps(w);
      assert FreedOnce(heap) && heap.live == map[];
    }

    /** Gives up all tables of one module, then its memory, and forgets it. */
    method FreeModule(i: nat)
      requires i < modules.Length
      modifies this, modules
      ensures View() == Forget(old(View()), i)
    {
      if modules[i].NoModule? { return; }
      ghost var w := View();
      var n := |modules[i].slots|;
      var s := 1;
      while s < n
        invariant 1 <= s && modules[i].Module? && |modules[i].slots| == n
        invariant FreeSlots(View(), i, s) == FreeSlots(w, i, 1)
      {
        GiveUp(i, s);
        s := s + 1;
      }
      assert View() == FreeSlots(w, i, 1);
      if n > 0 { GiveUp(i, 0); }
      modules[i] := NoModule;
    }

    method GiveUp(i: nat, s: nat)
      requires In(View(), i, s)
      modifies this, modules
      ensures View() == FreeSlot(old(View()), i, s)
    {
      var a := modules[i].slots[s];
      modules[i] := Module(modules[i].slots[s := EMPTY]);
      if a.ptr >= 0 && !a.shared { heap := Release(heap, a.ptr); }
    }
  }
}
