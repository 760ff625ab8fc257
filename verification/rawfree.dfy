// A release as the code does it, on any pointer and any words: nothing is known about the header in front of the pointer.
module RawFree {
  import opened Blocks

  /** Where a pool lies in the address space. Pointers are relative to its start. */
  datatype Frame = Frame(header: nat, capacity: nat, base: nat, modulus: nat)

  /** The header words at every address, the head of the free list, and the bytes accounted as used. */
  datatype Store = Store(sz: seq<nat>, pv: seq<int>, nf: seq<int>, pf: seq<int>, head: int, used: int)

  /** The words after the release, or an access outside the pool. */
  datatype Outcome = Done(st: Store) | Wild

  predicate Whole(f: Frame, st: Store)
  {
    |st.sz| == |st.pv| == |st.nf| == |st.pf| == f.capacity && f.modulus > 0 && f.header > 0
  }

  predicate Inside(f: Frame, x: int) { 0 <= x < f.capacity }

  function SizeAt(st: Store, x: nat): nat
    requires x < |st.sz|
  {
    st.sz[x] - st.sz[x] % 2
  }

  predicate MarkedFree(st: Store, x: nat)
    requires x < |st.sz|
  {
    st.sz[x] % 2 == 1
  }

  /** Behind the block at `x`: the end of the pool, an address in front of it, or an address in it. */
  datatype Next = End | Outside | Follows(x: nat)

  function NextOf(f: Frame, st: Store, x: nat): (r: Next)
    requires Whole(f, st) && Inside(f, x)
    ensures r.Follows? ==> Inside(f, r.x)
  {
    var a := (f.base + x + SizeAt(st, x)) % f.modulus;
    if a >= f.base + f.capacity then End else if a < f.base then Outside else Follows(a - f.base)
  }

  function Pushed(f: Frame, st: Store, x: nat): (r: Outcome)
    requires Whole(f, st) && Inside(f, x)
    ensures r.Done? ==> Whole(f, r.st) && r.st.head == x && r.st.sz == st.sz
  {
    var st1 := st.(nf := st.nf[x := st.head], pf := st.pf[x := NULL], head := x);
    if st.head == NULL then Done(st1)
    else if !Inside(f, st.head) then Wild
    else Done(st1.(pf := st1.pf[st.head := x]))
  }

  function Removed(f: Frame, st: Store, x: nat): (r: Outcome)
    requires Whole(f, st) && Inside(f, x)
    ensures r.Done? ==> Whole(f, r.st) && r.st.sz == st.sz && r.st.pv == st.pv && r.st.used == st.used
  {
    if st.pf[x] != NULL && !Inside(f, st.pf[x]) then Wild
    else
      var st1 := if st.pf[x] != NULL then st.(nf := st.nf[st.pf[x] := st.nf[x]]) else st.(head := st.nf[x]);
      if st1.nf[x] != NULL && !Inside(f, st1.nf[x]) then Wild
      else
        var st2 := if st1.nf[x] != NULL then st1.(pf := st1.pf[st1.nf[x] := st1.pf[x]]) else st1;
        Done(st2.(nf := st2.nf[x := NULL], pf := st2.pf[x := NULL]))
  }

  /** The two sizes at `x` and `y` become one free block at `x`. */
  function Merged(f: Frame, st: Store, x: nat, y: nat): (r: Outcome)
    requires Whole(f, st) && Inside(f, x) && Inside(f, y)
    ensures r.Done? ==> Whole(f, r.st) && forall z :: 0 <= z < f.capacity && z != x ==> r.st.sz[z] == st.sz[z]
    ensures r.Done? ==> forall z :: 0 <= z < f.capacity ==> r.st.pv[z] == st.pv[z] || r.st.pv[z] == x
  {
    var st1 := st.(sz := st.sz[x := (SizeAt(st, x) + SizeAt(st, y)) % f.modulus + 1]);
    match NextOf(f, st1, x)
    case End => Done(st1)
    case Outside => Wild
    case Follows(z) => Done(st1.(pv := st1.pv[z := x]))
  }

  /** One of the two, the listed one, leaves the list, and they become one. */
  function Absorbed(f: Frame, st: Store, listed: nat, x: nat, y: nat): (r: Outcome)
    requires Whole(f, st) && Inside(f, listed) && Inside(f, x) && Inside(f, y)
    ensures r.Done? ==> Whole(f, r.st) && forall z :: 0 <= z < f.capacity && z != x ==> r.st.sz[z] == st.sz[z]
    ensures r.Done? ==> forall z :: 0 <= z < f.capacity ==> r.st.pv[z] == st.pv[z] || r.st.pv[z] == x
  {
    var r := Removed(f, st, listed);
    if r.Wild? then Wild else Merged(f, r.st, x, y)
  }

  function JoinedNext(f: Frame, st: Store, h: nat): (r: Outcome)
    requires Whole(f, st) && Inside(f, h)
    ensures r.Done? ==> Whole(f, r.st) && forall z :: 0 <= z < f.capacity && z != h ==> r.st.sz[z] == st.sz[z]
    ensures r.Done? ==> forall z :: 0 <= z < f.capacity ==> r.st.pv[z] == st.pv[z] || r.st.pv[z] == h
  {
    match NextOf(f, st, h)
    case End => Done(st)
    case Outside => Wild
    case Follows(next) =>
      if !MarkedFree(st, next) then Done(st)
      else Absorbed(f, st, next, h, next)
  }

  /** Behind the predecessor's test the block is put on the list, as part of it or by itself. */
  function JoinedPrev(f: Frame, st: Store, h: nat): Outcome
    requires Whole(f, st) && Inside(f, h)
  {
    var p := st.pv[h];
    if p == NULL then Pushed(f, st, h)
    else if !Inside(f, p) then Wild
    else if !MarkedFree(st, p) then Pushed(f, st, h)
    else
      var r := Absorbed(f, st, p, p, h);
      if r.Wild? then Wild else Pushed(f, r.st, p)
  }

  /** Marked free, off the list, and no longer accounted as used. */
  function Unused(f: Frame, st: Store, h: nat): (r: Store)
    requires Whole(f, st) && Inside(f, h)
    ensures Whole(f, r) && r.pv == st.pv && forall z :: 0 <= z < f.capacity && z != h ==> r.sz[z] == st.sz[z]
  {
    Store(st.sz[h := SizeAt(st, h) + 1], st.pv, st.nf[h := NULL], st.pf[h := NULL], st.head, (st.used - SizeAt(st, h)) % f.modulus)
  }

  predicate Ignored(f: Frame, st: Store, ptr: int)
    requires Whole(f, st)
  {
    ptr == NULL || ptr < f.header || ptr > f.capacity || MarkedFree(st, ptr - f.header)
  }

  function Freed(f: Frame, st: Store, ptr: int): Outcome
    requires Whole(f, st)
  {
    if Ignored(f, st, ptr) then Done(st)
    else
      var h := ptr - f.header;
      var r := JoinedNext(f, Unused(f, st, h), h);
      if r.Wild? then Wild else JoinedPrev(f, r.st, h)
  }
}
