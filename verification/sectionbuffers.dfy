// The buffers of a module's sections: how many entries were counted for each, and how many each has room for. The requests
// are made in the machine's word and may wrap, so the two differ.
module SectionBuffers {
  import opened Requests
  import Blocks

  /** Entries counted per kind. */
  datatype Counts = Counts(types: nat, funcs: nat, imports: nat, tables: nat, globals: nat, exports: nat, elems: nat, datas: nat)

  const NONE: Counts := Counts(0, 0, 0, 0, 0, 0, 0, 0)

  /** Entries there is room for; `offsets` is the array of the global references in the offsets of data segments. The buffer
      of globals is not among them: it is initialised entry by entry, so it has room when it is there. */
  datatype Rooms = Rooms(types: nat, funcs: nat, imports: nat, tables: nat, exports: nat, elems: nat, datas: nat, offsets: nat)

  /** `cap` is what the capacity tests compare with; word and alignment are those of later requests. */
  datatype Buffers = Buffers(cap: Counts, room: Rooms, word: nat, unit: nat)

  /** Every buffer has the room its capacity promises. */
  predicate Roomy(b: Buffers)
  {
    && b.cap.types <= b.room.types && b.cap.funcs <= b.room.funcs && b.cap.imports <= b.room.imports && b.cap.tables <= b.room.tables
    && b.cap.exports <= b.room.exports && b.cap.elems <= b.room.elems && b.cap.datas <= b.room.datas && b.cap.datas <= b.room.offsets
  }

  /** The same buffers if they had the room. */
  function Ample(b: Buffers): (r: Buffers)
    ensures Roomy(r) && r.cap == b.cap
  {
    var c := b.cap;
    b.(room := Rooms(c.types, c.funcs, c.imports, c.tables, c.exports, c.elems, c.datas, c.datas))
  }

  // ----- requests -----

  /** Arrays of `n` elements each, of the given element sizes, requested and cleared together. Those of size `each`, unless
      it is 0, are then written element by element. */
  datatype Ask = Ask(n: nat, sizes: seq<nat>, each: nat)

  /** The least room among the arrays; or a refusal, or a write behind one of them. */
  datatype Answer = Granted(rooms: seq<nat>) | Refused | Behind

  predicate Proper(a: Ask) { a.sizes != [] && 0 !in a.sizes && (a.each != 0 ==> a.each in a.sizes) }

  /** Clearing an array whose size wraps when rounded writes behind its empty payload. */
  predicate Clears(a: Ask, size: nat, word: nat, unit: nat)
    requires word > 0
  {
    a.n * size % word + unit - 1 < word
  }

  function LeastRoom(n: nat, sizes: seq<nat>, word: nat, unit: nat): (r: int)
    requires sizes != [] && 0 !in sizes && word > 0
  {
    var r := Room(word, unit, sizes[0], n);
    if |sizes| == 1 then r else Min(r, LeastRoom(n, sizes[1..], word, unit))
  }

  function Min(x: int, y: int): int { if x < y then x else y }

  function AnswerOne(a: Ask, word: nat, unit: nat): (r: Answer)
    requires Proper(a) && word > 0
    ensures r.Granted? ==> |r.rooms| == 1
  {
    if a.n == 0 then Granted([0])
    else
      var room := LeastRoom(a.n, a.sizes, word, unit);
      if room < 0 then Refused
      else if exists i :: 0 <= i < |a.sizes| && !Clears(a, a.sizes[i], word, unit) then Behind
      else if a.each != 0 && Room(word, unit, a.each, a.n) < a.n then Behind
      else Granted([room])
  }

  /** One request after the other, up to the first that goes wrong. */
  function AnswerAll(asks: seq<Ask>, word: nat, unit: nat): (r: Answer)
    requires (forall i :: 0 <= i < |asks| ==> Proper(asks[i])) && word > 0
    ensures r.Granted? ==> |r.rooms| == |asks|
  {
    if asks == [] then Granted([])
    else
      var r := AnswerOne(asks[0], word, unit);
      if !r.Granted? then r
      else
        var rest := AnswerAll(asks[1..], word, unit);
        if !rest.Granted? then rest else Granted(r.rooms + rest.rooms)
  }

  /** Neither product nor rounding leave the word. */
  predicate Unwrapped(a: Ask, word: nat, unit: nat)
  {
    a.n == 0 || forall i :: 0 <= i < |a.sizes| ==> a.n * a.sizes[i] + unit - 1 < word
  }

  lemma {:induction false} LeastRoomExact(n: nat, sizes: seq<nat>, word: nat, unit: nat)
    requires sizes != [] && 0 !in sizes && n > 0 && 0 < unit <= word
    ensures LeastRoom(n, sizes, word, unit) >= n <==> forall i :: 0 <= i < |sizes| ==> n * sizes[i] + unit - 1 < word
  {
    RoomExact(word, unit, sizes[0], n);
    if |sizes| > 1 {
      LeastRoomExact(n, sizes[1..], word, unit);
      assert forall i :: 1 <= i < |sizes| ==> sizes[i] == sizes[1..][i - 1];
    }
  }

  lemma OneExact(a: Ask, word: nat, unit: nat)
    requires Proper(a) && 0 < unit <= word
    ensures var r := AnswerOne(a, word, unit); r.Granted? && r.rooms[0] >= a.n <==> Unwrapped(a, word, unit)
  {
    hide Room, LeastRoom, Clears;
    if a.n > 0 {
      LeastRoomExact(a.n, a.sizes, word, unit);
      if Unwrapped(a, word, unit) {
        forall i | 0 <= i < |a.sizes|
          ensures Room(word, unit, a.sizes[i], a.n) == a.n && Clears(a, a.sizes[i], word, unit)
        {
          assert a.sizes[i] != 0;
          RoomExact(word, unit, a.sizes[i], a.n);
          Cleared(a, a.sizes[i], word, unit);
        }
      }
    }
  }

  lemma Cleared(a: Ask, size: nat, word: nat, unit: nat)
    requires a.n * size + unit - 1 < word && unit > 0
    ensures Clears(a, size, word, unit)
  {
    Small(a.n * size, word);
  }

  /** All requests get the room they ask for if and only if none of them wraps. */
  lemma {:induction false} AllExact(asks: seq<Ask>, word: nat, unit: nat)
    requires (forall i :: 0 <= i < |asks| ==> Proper(asks[i])) && 0 < unit <= word
    ensures var r := AnswerAll(asks, word, unit);
            r.Granted? && (forall i :: 0 <= i < |asks| ==> r.rooms[i] >= asks[i].n) <==> forall i :: 0 <= i < |asks| ==> Unwrapped(asks[i], word, unit)
  {
    hide AnswerOne, Unwrapped, Proper;
    if asks != [] {
      OneExact(asks[0], word, unit);
      AllExact(asks[1..], word, unit);
      var r, one, rest := AnswerAll(asks, word, unit), AnswerOne(asks[0], word, unit), AnswerAll(asks[1..], word, unit);
      assert forall i :: 1 <= i < |asks| ==> asks[i] == asks[1..][i - 1];
      assert forall i :: 0 <= i < |asks| - 1 ==> asks[1..][i] == asks[i + 1];
      if r.Granted? {
        assert r.rooms == one.rooms + rest.rooms;
        assert forall i :: 1 <= i < |asks| ==> r.rooms[i] == rest.rooms[i - 1];
        assert forall i :: 0 <= i < |asks| - 1 ==> rest.rooms[i] == r.rooms[i + 1];
      }
    }
  }

  // ----- the buffers of one module -----

  /** Bytes of a pointer, of the entries kept as records, and of a type. */
  datatype Sizes = Sizes(pointer: nat, func: nat, export_: nat, import_: nat, global: nat, typ: nat)

  predicate Positives(z: Sizes) { z.pointer > 0 && z.func > 0 && z.export_ > 0 && z.import_ > 0 && z.global > 0 && z.typ > 0 }

  /** The requests in their order. */
  function Asks(c: Counts, z: Sizes, word: nat): (asks: seq<Ask>)
    requires word > 0 && Positives(z)
    ensures |asks| == 8 && forall i :: 0 <= i < |asks| ==> Proper(asks[i])
  {
    [Ask(c.types % word, [z.pointer], 0),
     Ask(c.funcs % word, [z.func], 0),
     Ask(c.exports % word, [z.export_], 0),
     Ask(c.imports % word, [z.import_], 0),
     Ask(c.globals % word, [z.global], z.global),
     Ask(c.tables % word, [z.pointer, 4, 4, z.typ, 1, z.pointer, 4, z.pointer, 4], 4),
     Ask(c.datas % word, [z.pointer, 4, 1, 4, 4, 1], 0),
     Ask(c.elems % word, [z.pointer, 4, 1, 4, 4, 4, 1], 0)]
  }

  datatype Allocation = Ready(b: Buffers) | NoMemory | Spilled

  /** The counts are sums in the word; the capacities are kept in 32 bits. */
  function Capacity(c: nat, word: nat): nat
    requires word > 0
  {
    c % word % 0x1_0000_0000
  }

  function Capacities(c: Counts, word: nat): Counts
    requires word > 0
  {
    Counts(Capacity(c.types, word), Capacity(c.funcs, word), Capacity(c.imports, word), Capacity(c.tables, word),
           Capacity(c.globals, word), Capacity(c.exports, word), Capacity(c.elems, word), Capacity(c.datas, word))
  }

  /** AllocateSectionBuffers, when the pool grants what it can. */
  function Allocate(c: Counts, z: Sizes, word: nat, unit: nat): Allocation
    requires word > 0 && Positives(z)
  {
    match AnswerAll(Asks(c, z, word), word, unit)
    case Refused => NoMemory
    case Behind => Spilled
    case Granted(r) =>
      var offsets := Room(word, unit, 4, c.datas % word);
      Ready(Buffers(Capacities(c, word), Rooms(r[0], r[1], r[3], r[5], r[2], r[7], r[6], if offsets < 0 then 0 else offsets), word, unit))
  }

  /** An array of `n` elements of `size` bytes stays in the word. */
  predicate Holds(n: nat, size: nat, word: nat, unit: nat) { n == 0 || n * size + unit - 1 < word }

  /** The module's buffers are granted with room for everything that was counted if and only if the largest arrays of each kind
      stay in the word: pointers for types, tables and segments, records for functions, exports, imports and globals, and the
      words that go with each table and segment. */
  lemma BuffersExact(c: Counts, z: Sizes, word: nat, unit: nat)
    requires Positives(z) && 0 < unit <= word
    ensures var r := AnswerAll(Asks(c, z, word), word, unit);
            (r.Granted? && forall i :: 0 <= i < 8 ==> r.rooms[i] >= Asks(c, z, word)[i].n) <==>
            (&& Holds(c.types % word, z.pointer, word, unit)
             && Holds(c.funcs % word, z.func, word, unit) && Holds(c.exports % word, z.export_, word, unit)
             && Holds(c.imports % word, z.import_, word, unit) && Holds(c.globals % word, z.global, word, unit)
             && Holds(c.tables % word, z.pointer, word, unit) && Holds(c.tables % word, z.typ, word, unit) && Holds(c.tables % word, 4, word, unit)
             && Holds(c.datas % word, z.pointer, word, unit) && Holds(c.datas % word, 4, word, unit)
             && Holds(c.elems % word, z.pointer, word, unit) && Holds(c.elems % word, 4, word, unit))
    ensures var n := Asks(c, z, word);
            && n[0].n == c.types % word && n[1].n == c.funcs % word && n[2].n == c.exports % word && n[3].n == c.imports % word
            && n[4].n == c.globals % word && n[5].n == c.tables % word && n[6].n == c.datas % word && n[7].n == c.elems % word
  {
    hide AnswerAll, Proper, Unwrapped, Holds;
    var asks := Asks(c, z, word);
    AllExact(asks, word, unit);
    OneSize(asks[0], word, unit);
    OneSize(asks[1], word, unit);
    OneSize(asks[2], word, unit);
    OneSize(asks[3], word, unit);
    OneSize(asks[4], word, unit);
    ManySizes(asks[5], z.pointer, z.typ, word, unit);
    ManySizes(asks[6], z.pointer, 4, word, unit);
    ManySizes(asks[7], z.pointer, 4, word, unit);
  }

  lemma OneSize(a: Ask, word: nat, unit: nat)
    requires |a.sizes| == 1
    ensures Unwrapped(a, word, unit) <==> Holds(a.n, a.sizes[0], word, unit)
  {
  }

  lemma ManySizes(a: Ask, x: nat, y: nat, word: nat, unit: nat)
    requires (forall i :: 0 <= i < |a.sizes| ==> a.sizes[i] in [x, y, 4, 1]) && x in a.sizes && y in a.sizes && 4 in a.sizes
    ensures Unwrapped(a, word, unit) <==> Holds(a.n, x, word, unit) && Holds(a.n, y, word, unit) && Holds(a.n, 4, word, unit)
  {
    var i :| 0 <= i < |a.sizes| && a.sizes[i] == x;
    var j :| 0 <= j < |a.sizes| && a.sizes[j] == y;
    var k :| 0 <= k < |a.sizes| && a.sizes[k] == 4;
    assert a.n * a.sizes[i] == a.n * x && a.n * a.sizes[j] == a.n * y && a.n * a.sizes[k] == a.n * 4;
    forall l | 0 <= l < |a.sizes| && Holds(a.n, x, word, unit) && Holds(a.n, y, word, unit) && Holds(a.n, 4, word, unit)
      ensures Holds(a.n, a.sizes[l], word, unit)
    {
      assert a.n * 1 <= a.n * 4;
    }
  }

  /** The largest element of any of the buffers. */
  function Largest(z: Sizes): (r: nat)
    ensures z.pointer <= r && z.func <= r && z.export_ <= r && z.import_ <= r && z.global <= r && z.typ <= r && 4 <= r
  {
    Max(z.pointer, Max(z.func, Max(z.export_, Max(z.import_, Max(z.global, Max(z.typ, 4))))))
  }

  function Max(x: nat, y: nat): nat { if x < y then y else x }

  /** No count exceeds `n`. */
  predicate AtMost(c: Counts, n: nat)
  {
    && c.types <= n && c.funcs <= n && c.imports <= n && c.tables <= n && c.globals <= n && c.exports <= n
    && c.elems <= n && c.datas <= n
  }

  /** Counts so small that nothing wraps get buffers with room for all of them. */
  lemma SmallIsRoomy(c: Counts, z: Sizes, word: nat, unit: nat, n: nat)
    requires Positives(z) && 0 < unit <= word && AtMost(c, n) && n < 0x1_0000_0000 && n * Largest(z) + unit <= word
    ensures var r := Allocate(c, z, word, unit);
            r.Ready? && r.b.cap == c && Roomy(r.b) && r.b.word == word && r.b.unit == unit
  {
    hide *;
    Quadruple(n, Largest(z));
    SmallGranted(c, z, word, unit, n);
    RoomyWhenGranted(c, z, word, unit, n);
  }

  lemma RoomyWhenGranted(c: Counts, z: Sizes, word: nat, unit: nat, n: nat)
    requires Positives(z) && unit > 0 && AtMost(c, n) && n < 0x1_0000_0000 && 4 * n + unit <= word
    requires var r := AnswerAll(Asks(c, z, word), word, unit);
             && r.Granted? && r.rooms[0] >= c.types && r.rooms[1] >= c.funcs && r.rooms[2] >= c.exports && r.rooms[3] >= c.imports
             && r.rooms[5] >= c.tables && r.rooms[6] >= c.datas && r.rooms[7] >= c.elems
    ensures var r := Allocate(c, z, word, unit);
            r.Ready? && r.b.cap == c && Roomy(r.b) && r.b.word == word && r.b.unit == unit
  {
    hide AnswerAll, Asks, Capacities, Room;
    SmallCounts(c, word, n);
    if c.datas > 0 { OffsetsRoomy(c.datas, word, unit, n, 4); }
  }

  lemma SmallGranted(c: Counts, z: Sizes, word: nat, unit: nat, n: nat)
    requires Positives(z) && 0 < unit <= word && AtMost(c, n) && n < 0x1_0000_0000 && n * Largest(z) + unit <= word
    ensures word > 0
    ensures var r := AnswerAll(Asks(c, z, word), word, unit);
            && r.Granted? && r.rooms[0] >= c.types && r.rooms[1] >= c.funcs && r.rooms[2] >= c.exports && r.rooms[3] >= c.imports
            && r.rooms[5] >= c.tables && r.rooms[6] >= c.datas && r.rooms[7] >= c.elems
  {
    hide AnswerAll, Proper, Room, Unwrapped, Largest, Capacities;
    Quadruple(n, Largest(z));
    SmallCounts(c, word, n);
    var asks := Asks(c, z, word);
    forall i | 0 <= i < |asks| ensures Unwrapped(asks[i], word, unit) { AskFits(c, z, word, unit, n, i); }
    AllExact(asks, word, unit);
  }

  lemma Quadruple(n: nat, l: nat)
    requires l >= 4
    ensures n * l >= 4 * n
  {
  }

  lemma SmallCounts(c: Counts, word: nat, n: nat)
    requires AtMost(c, n) && n < word && n < 0x1_0000_0000
    ensures Capacities(c, word) == c
    ensures c.types % word == c.types && c.funcs % word == c.funcs && c.imports % word == c.imports && c.tables % word == c.tables
    ensures c.globals % word == c.globals && c.exports % word == c.exports && c.elems % word == c.elems && c.datas % word == c.datas
  {
    hide Capacity;
    SmallCount(c.types, word);
    SmallCount(c.funcs, word);
    SmallCount(c.imports, word);
    SmallCount(c.tables, word);
    SmallCount(c.globals, word);
    SmallCount(c.exports, word);
    SmallCount(c.elems, word);
    SmallCount(c.datas, word);
  }

  lemma SmallCount(c: nat, word: nat)
    requires c < word && c < 0x1_0000_0000
    ensures Capacity(c, word) == c && c % word == c
  {
    Small(c, word);
  }

  lemma AskFits(c: Counts, z: Sizes, word: nat, unit: nat, n: nat, i: nat)
    requires Positives(z) && unit > 0 && AtMost(c, n) && n < 0x1_0000_0000 && n * Largest(z) + unit <= word && i < 8
    ensures word > 0 && Unwrapped(Asks(c, z, word)[i], word, unit)
  {
    hide Largest, Proper;
    Quadruple(n, Largest(z));
    SmallCounts(c, word, n);
    var a := Asks(c, z, word)[i];
    assert a.n <= n;
    forall k | 0 <= k < |a.sizes| ensures a.n * a.sizes[k] + unit - 1 < word {
      assert a.sizes[k] <= Largest(z) by { Listed(c, z, word, i, k); }
      Products(a.n, a.sizes[k], n, Largest(z));
    }
  }

  lemma Listed(c: Counts, z: Sizes, word: nat, i: nat, k: nat)
    requires Positives(z) && word > 0 && i < 8 && k < |Asks(c, z, word)[i].sizes|
    ensures Asks(c, z, word)[i].sizes[k] <= Largest(z)
  {
  }

  lemma Products(a: nat, x: nat, n: nat, l: nat)
    requires a <= n && x <= l
    ensures a * x <= n * l
  {
    Blocks.MulMonotone(a, n, x);
    Blocks.MulMonotone(x, l, n);
    assert n * x == x * n && n * l == l * n;
  }

  lemma OffsetsRoomy(k: nat, word: nat, unit: nat, n: nat, l: nat)
    requires 0 < k <= n && unit > 0 && n * l + unit <= word && l >= 4
    ensures k % word == k && Room(word, unit, 4, k) == k
  {
    Products(k, 4, n, l);
    Small(k, word);
    RoomExact(word, unit, 4, k);
  }
}
