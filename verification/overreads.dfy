// When the filling pass leaves the binary or a buffer. It reads some bytes of imports, tables, memories, globals and element
// segments without a test; this happens behind the binary exactly when an entry that the pass reaches starts too close to
// its end. And it writes behind a buffer exactly when a complete entry finds less room than capacity.
module Overreads {
  import opened Leb128
  import opened Bytecode
  import opened SectionBuffers
  import opened Sections
  import Requests

  // ----- entries -----

  /** A table import has two bytes behind its kind that are read without a test, a memory import one. */
  predicate ShortImport(code: seq<Byte>, p: nat, se: nat)
    requires p <= |code| && se <= |code|
  {
    var m := ReadName(code, p, se);
    m.At? &&
    var f := ReadName(code, m.p, se);
    && f.At? && f.p < se
    && ((code[f.p] == 0x01 && |code| < f.p + 3) || (code[f.p] == 0x02 && |code| < f.p + 2))
  }

  /** Type, mutability and opcode; behind the section also the bytes of a floating-point constant. */
  predicate ShortGlobal(code: seq<Byte>, p: nat, se: nat)
    requires p <= |code| && se <= |code|
  {
    || |code| < p + 3
    || (se < p + 3 && code[p + 2] == 0x43 && |code| < p + 7)
    || (se < p + 3 && code[p + 2] == 0x44 && |code| < p + 11)
  }

  /** The `k`-th item is a null reference whose opcode is the last byte of the binary, or it is complete and finds no room. */
  predicate ShortItem(code: seq<Byte>, p: nat, se: nat, room: nat, exprs: bool, k: nat)
    requires p <= |code| && se <= |code|
  {
    var r := ReadItems(code, p, se, k, k, exprs);
    r.At? && ((exprs && r.p < se && code[r.p] == 0xD0 && |code| < r.p + 2) || (room <= k && ReadItem(code, r.p, se, exprs).At?))
  }

  /** The kind of a passive segment or the opcode of an offset is missing, or an item is short. */
  predicate ShortElem(code: seq<Byte>, p: nat, se: nat, b: Buffers)
    requires p <= |code| && se <= |code| && b.word > 0
  {
    var flags := ReadU(code, p, se);
    var q := if !Passive(flags.v) && Explicit(flags.v) then ReadU(code, flags.p, se).p else flags.p;
    || |code| < q + 1
    || (var h := ReadElemHead(code, p, se);
        h.At? &&
        var num := ReadU(code, h.p, se);
        var room := ItemRoom(b, num.v);
        room >= 0 && exists k :: 0 <= k < num.v && ShortItem(code, num.p, se, room, Expressions(h.v), k))
  }

  /** An active segment that finds the array of offsets full. */
  predicate ShortData(code: seq<Byte>, p: nat, se: nat, w: Written, b: Buffers)
    requires p <= |code| && se <= |code|
  {
    var o := ReadDataHead(code, p, se);
    o.At? && !Inactive(o.v) && 0 < b.cap.datas && b.room.offsets <= w.datas
  }

  /** The index at which an entry of section `id` is recorded lies behind the buffer. */
  predicate Unroomed(id: nat, w: Written, b: Buffers)
  {
    || (id == 1 && b.room.types <= |w.sigs|)
    || (id == 2 && b.room.imports <= w.imports < b.cap.imports)
    || (id == 3 && b.room.funcs <= w.funcs)
    || (id == 4 && b.room.tables <= w.tables)
    || (id == 7 && b.room.exports <= w.exports)
    || (id == 9 && b.room.elems <= w.elems)
    || (id == 10 && b.room.funcs <= w.imported + w.codes)
    || (id == 11 && b.room.datas <= w.datas)
  }

  /** The entry of section `id` at `p` reads where nothing is, or would be written if only there were room. */
  predicate Short(code: seq<Byte>, id: nat, p: nat, se: nat, w: Written, b: Buffers)
    requires p <= |code| && se <= |code| && b.word > 0
  {
    || (id == 2 && ShortImport(code, p, se))
    || (id == 4 && (|code| < p + 1 || ((code[p] == 0x70 || code[p] == 0x6F) && |code| < p + 2)))
    || (id == 5 && |code| < p + 1)
    || (id == 6 && w.globals < b.cap.globals && ShortGlobal(code, p, se))
    || (id == 9 && p < se && ShortElem(code, p, se, b))
    || (id == 11 && ShortData(code, p, se, w, b))
    || (Unroomed(id, w, b) && FillEntry(code, id, p, se, w, Ample(b)).At?)
  }

  lemma GlobalOverruns(code: seq<Byte>, p: nat, se: nat, w: Written, b: Buffers)
    requires p <= |code| && se <= |code| && w.globals < b.cap.globals
    ensures FillGlobal(code, p, se, w, b).Overrun? <==> ShortGlobal(code, p, se)
  {
    hide ReadU, Taken;
  }

  lemma {:induction false} ItemsOverrun(code: seq<Byte>, p: nat, se: nat, n: nat, room: nat, exprs: bool)
    requires p <= |code| && se <= |code|
    ensures ReadItems(code, p, se, n, room, exprs).Overrun? <==> exists k :: 0 <= k < n && ShortItem(code, p, se, room, exprs, k)
    decreases n
  {
    hide ReadU;
    if n > 0 {
      var r := ReadItem(code, p, se, exprs);
      if r.At? && room > 0 {
        var rest := room - 1;
        ItemsOverrun(code, r.p, se, n - 1, rest, exprs);
        assert forall k :: 0 < k < n ==> (ShortItem(code, p, se, room, exprs, k) <==> ShortItem(code, r.p, se, rest, exprs, k - 1));
        assert !ShortItem(code, p, se, room, exprs, 0);
        if k :| 0 <= k < n - 1 && ShortItem(code, r.p, se, rest, exprs, k) { assert ShortItem(code, p, se, room, exprs, k + 1); }
      } else {
        assert !r.At? ==> forall k :: 0 < k < n ==> !ReadItems(code, p, se, k, k, exprs).At?;
        if r.Overrun? || r.At? { assert ShortItem(code, p, se, room, exprs, 0); }
      }
    }
  }

  lemma ElemOverruns(code: seq<Byte>, p: nat, se: nat, w: Written, b: Buffers)
    requires p < se <= |code| && b.word > 0
    ensures FillElem(code, p, se, w, b).Overrun? <==>
            ShortElem(code, p, se, b) || (b.room.elems <= w.elems && FillElem(code, p, se, w, Ample(b)).At?)
  {
    hide ReadU, ReadItems, ReadElemHead, ItemRoom, Expressions, ShortItem;
    HeadOverruns(code, p, se);
    var h := ReadElemHead(code, p, se);
    if h.At? {
      var num := ReadU(code, h.p, se);
      AmpleItems(b, num.v);
      var room := ItemRoom(b, num.v);
      if room >= 0 { ItemsOverrun(code, num.p, se, num.v, room, Expressions(h.v)); }
    }
  }

  lemma AmpleItems(b: Buffers, n: nat)
    requires b.word > 0
    ensures ItemRoom(Ample(b), n) == ItemRoom(b, n)
  {
  }

  lemma HeadOverruns(code: seq<Byte>, p: nat, se: nat)
    requires p < se <= |code|
    ensures var flags := ReadU(code, p, se);
            var q := if !Passive(flags.v) && Explicit(flags.v) then ReadU(code, flags.p, se).p else flags.p;
            ReadElemHead(code, p, se).Overrun? <==> |code| < q + 1
  {
    hide ReadU, ReadOffset, Passive, Explicit;
  }

  lemma EntryOverruns(code: seq<Byte>, id: nat, p: nat, se: nat, w: Written, b: Buffers)
    requires p <= |code| && se <= |code| && Known(id) && b.word > 0
    ensures FillEntry(code, id, p, se, w, b).Overrun? <==> Short(code, id, p, se, w, b)
  {
    hide ReadU, ReadName, ReadDataHead, ReadLocals, FillGlobal, FillElem, FillImport, FillType, FillData, ShortGlobal, ShortElem, ShortImport,
         ShortData;
    if id == 1 { TypeOverruns(code, p, se, w, b); }
    if id == 2 { ImportOverruns(code, p, se, w, b); }
    if id == 6 && w.globals < b.cap.globals { GlobalOverruns(code, p, se, w, b); }
    if id == 6 && w.globals >= b.cap.globals { FullGlobals(code, p, se, w, b); }
    if id == 9 && p < se { ElemOverruns(code, p, se, w, b); }
    if id == 9 && p >= se {
      NoElem(code, p, se, w, b);
      NoElem(code, p, se, w, Ample(b));
    }
    if id == 11 { DataOverruns(code, p, se, w, b); }
  }

  lemma TypeOverruns(code: seq<Byte>, p: nat, se: nat, w: Written, b: Buffers)
    requires p <= |code| && se <= |code|
    ensures FillType(code, p, se, w, b).Overrun? <==> b.room.types <= |w.sigs| && FillType(code, p, se, w, Ample(b)).At?
  {
    hide ReadU;
  }

  lemma ImportOverruns(code: seq<Byte>, p: nat, se: nat, w: Written, b: Buffers)
    requires p <= |code| && se <= |code|
    ensures FillImport(code, p, se, w, b).Overrun? <==>
            ShortImport(code, p, se) || (b.room.imports <= w.imports < b.cap.imports && FillImport(code, p, se, w, Ample(b)).At?)
  {
    hide ReadU, ReadName;
  }

  lemma DataOverruns(code: seq<Byte>, p: nat, se: nat, w: Written, b: Buffers)
    requires p <= |code| && se <= |code|
    ensures FillData(code, p, se, w, b).Overrun? <==>
            ShortData(code, p, se, w, b) || (b.room.datas <= w.datas && FillData(code, p, se, w, Ample(b)).At?)
  {
    hide ReadU, ReadDataHead;
  }

  lemma FullGlobals(code: seq<Byte>, p: nat, se: nat, w: Written, b: Buffers)
    requires p <= |code| && se <= |code| && w.globals >= b.cap.globals
    ensures FillGlobal(code, p, se, w, b).Failed?
  {
  }

  lemma NoElem(code: seq<Byte>, p: nat, se: nat, w: Written, b: Buffers)
    requires se <= p <= |code| && b.word > 0
    ensures FillElem(code, p, se, w, b).Failed?
  {
  }

  // ----- sections and modules -----

  /** The pass reaches the `k`-th entry of the section, and that is short. */
  predicate ShortAt(code: seq<Byte>, id: nat, p: nat, se: nat, w: Written, b: Buffers, k: nat)
    requires p <= |code| && se <= |code| && b.word > 0
  {
    var r := FillEntries(code, id, p, se, k, w, b);
    r.At? && Short(code, id, r.p, se, r.v, b)
  }

  lemma {:induction false} EntriesOverrun(code: seq<Byte>, id: nat, p: nat, se: nat, n: nat, w: Written, b: Buffers)
    requires p <= |code| && se <= |code| && Known(id) && b.word > 0
    ensures FillEntries(code, id, p, se, n, w, b).Overrun? <==> exists k :: 0 <= k < n && ShortAt(code, id, p, se, w, b, k)
    decreases n
  {
    hide FillEntry, Short;
    if n > 0 {
      EntryOverruns(code, id, p, se, w, b);
      var r := FillEntry(code, id, p, se, w, b);
      assert ShortAt(code, id, p, se, w, b, 0) <==> r.Overrun?;
      if r.At? {
        EntriesOverrun(code, id, r.p, se, n - 1, r.v, b);
        assert forall k :: 0 < k < n ==> (ShortAt(code, id, p, se, w, b, k) <==> ShortAt(code, id, r.p, se, r.v, b, k - 1));
        if k :| 0 <= k < n - 1 && ShortAt(code, id, r.p, se, r.v, b, k) { assert ShortAt(code, id, p, se, w, b, k + 1); }
      } else {
        assert forall k :: 0 < k < n ==> !FillEntries(code, id, p, se, k, w, b).At?;
      }
    }
  }

  /** After `m` sections, or at the end of the binary. */
  function FirstSections(code: seq<Byte>, p: nat, w: Written, b: Buffers, m: nat): (r: Cursor<Written>)
    requires p <= |code| && b.word > 0
    ensures r.At? ==> r.p <= |code|
    decreases m
  {
    if m == 0 || p == |code| then At(p, w)
    else
      var r := FillSection(code, p, w, b);
      if !r.At? then Pass(r) else FirstSections(code, r.p, r.v, b, m - 1)
  }

  /** The section at `p` is complete and its `k`-th entry is reached and short. */
  predicate ShortSection(code: seq<Byte>, p: nat, w: Written, b: Buffers, k: nat)
    requires p <= |code| && b.word > 0
  {
    && p < |code| && Known(code[p])
    && var size := ReadU(code, p + 1, |code|);
       && size.p + size.v <= |code|
       && var n := ReadU(code, size.p, size.p + size.v);
          k < n.v && ShortAt(code, code[p], n.p, size.p + size.v, Started(w, code[p]), b, k)
  }

  lemma SectionOverruns(code: seq<Byte>, p: nat, w: Written, b: Buffers)
    requires p < |code| && b.word > 0
    ensures FillSection(code, p, w, b).Overrun? <==> exists k :: 0 <= k && ShortSection(code, p, w, b, k)
  {
    hide ReadU, FillEntries, ShortAt;
    var size := ReadU(code, p + 1, |code|);
    if size.p + size.v <= |code| && Known(code[p]) {
      var se := size.p + size.v;
      var n := ReadU(code, size.p, se);
      EntriesOverrun(code, code[p], n.p, se, n.v, Started(w, code[p]), b);
      if k :| 0 <= k < n.v && ShortAt(code, code[p], n.p, se, Started(w, code[p]), b, k) { assert ShortSection(code, p, w, b, k); }
    }
  }

  /** The pass reaches the `m`-th section and the `k`-th entry in it, and that is short. */
  predicate ShortIn(code: seq<Byte>, p: nat, w: Written, b: Buffers, m: nat, k: nat)
    requires p <= |code| && b.word > 0
  {
    var r := FirstSections(code, p, w, b, m);
    r.At? && ShortSection(code, r.p, r.v, b, k)
  }

  /** The filling pass stays inside the binary and its buffers, on any bytes and for any buffers, if and only if no entry that
      it reaches is short of the bytes or the room it takes for granted. */
  lemma {:induction false} FillingOverruns(code: seq<Byte>, p: nat, w: Written, b: Buffers)
    requires p <= |code| && b.word > 0
    ensures FillModule(code, p, w, b).Overrun? <==> exists m, k :: 0 <= m && 0 <= k && ShortIn(code, p, w, b, m, k)
    decreases |code| - p
  {
    hide FillSection, ShortSection;
    if p == |code| {
      Ended(code, w, b);
    } else {
      SectionOverruns(code, p, w, b);
      var r := FillSection(code, p, w, b);
      assert forall k :: 0 <= k ==> (ShortIn(code, p, w, b, 0, k) <==> ShortSection(code, p, w, b, k));
      if r.At? {
        FillingOverruns(code, r.p, r.v, b);
        assert forall m, k :: 0 < m && 0 <= k ==> (ShortIn(code, p, w, b, m, k) <==> ShortIn(code, r.p, r.v, b, m - 1, k));
        if m, k :| 0 <= m && 0 <= k && ShortIn(code, r.p, r.v, b, m, k) { assert ShortIn(code, p, w, b, m + 1, k); }
      } else {
        assert forall m :: 0 < m ==> !FirstSections(code, p, w, b, m).At?;
        if r.Overrun? {
          var k :| 0 <= k && ShortSection(code, p, w, b, k);
          assert ShortIn(code, p, w, b, 0, k);
        }
      }
    }
  }

  lemma Ended(code: seq<Byte>, w: Written, b: Buffers)
    requires b.word > 0
    ensures FillModule(code, |code|, w, b) == At(|code|, w)
    ensures forall m, k :: 0 <= m && 0 <= k ==> !ShortIn(code, |code|, w, b, m, k)
  {
  }

  /** Counting, allocating and filling together leave binary or buffers, on any bytes, if and only if clearing the buffers
      does or an entry is short of bytes or room. */
  lemma ParsingOverruns(code: seq<Byte>, z: Sizes, word: nat, unit: nat)
    requires word > 0 && Positives(z)
    ensures var c := CountModule(code, 0, NONE, {});
            ParseSections(code, z, word, unit).Overrun? <==>
            c.At? && var a := Allocate(c.v, z, word, unit);
                     a.Spilled? || (a.Ready? && exists m, k :: 0 <= m && 0 <= k && ShortIn(code, 0, NOTHING, a.b, m, k))
  {
    hide CountModule, FillModule, ShortIn, AnswerAll, Asks, Requests.Room;
    var c := CountModule(code, 0, NONE, {});
    if c.At? && Allocate(c.v, z, word, unit).Ready? { FillingOverruns(code, 0, NOTHING, Allocate(c.v, z, word, unit).b); }
  }

  /** Well-formed modules so small that no size wraps have no short entry. */
  lemma WellFormedStays(code: seq<Byte>, ss: seq<Section>, z: Sizes, word: nat, unit: nat)
    requires ModuleAt(code, 0, ss, NOTHING, {}) && Addressable(code, z, word, unit)
    requires var w := Total(NOTHING, ss); w.imported + w.codes <= w.funcs
    ensures word > 0 && CountModule(code, 0, NONE, {}).At?
    ensures var a := Allocate(CountModule(code, 0, NONE, {}).v, z, word, unit);
            a.Ready? && forall m, k :: 0 <= m && 0 <= k ==> !ShortIn(code, 0, NOTHING, a.b, m, k)
  {
    hide ModuleAt, CountModule, FillModule, ShortIn, Total, Allocate, Largest;
    PassesAgree(code, ss, z, word, unit);
    ReadyWord(CountModule(code, 0, NONE, {}).v, z, word, unit);
    FillingOverruns(code, 0, NOTHING, Allocate(CountModule(code, 0, NONE, {}).v, z, word, unit).b);
  }

  lemma ReadyWord(c: Counts, z: Sizes, word: nat, unit: nat)
    requires word > 0 && Positives(z)
    ensures Allocate(c, z, word, unit).Ready? ==> Allocate(c, z, word, unit).b.word == word
  {
    hide AnswerAll, Asks, Requests.Room;
  }

  // ----- memory sections -----

  /** Memory entries that start before the section's end. */
  function MemoryEntries(code: seq<Byte>, p: nat, se: nat): nat
    requires p <= se <= |code|
    decreases se - p
  {
    if p == se then 0 else 1 + MemoryEntries(code, ReadLimits(code, p, se).p, se)
  }

  /** A memory section leaves the binary if and only if it announces more entries than it has plus one for every byte behind
      it. */
  lemma {:induction false} MemorySectionOverruns(code: seq<Byte>, p: nat, se: nat, n: nat, w: Written, b: Buffers)
    requires p <= se <= |code| && b.word > 0
    ensures FillEntries(code, 5, p, se, n, w, b).Overrun? <==> n > MemoryEntries(code, p, se) + (|code| - se)
    decreases se - p, n
  {
    hide ReadU;
    if p == se {
      BehindMemories(code, p, se, n, w, b);
    } else if n > 0 {
      MemorySectionOverruns(code, ReadLimits(code, p, se).p, se, n - 1, w, b);
    }
  }

  /** Behind the section an entry is one byte. */
  lemma {:induction false} BehindMemories(code: seq<Byte>, p: nat, se: nat, n: nat, w: Written, b: Buffers)
    requires se <= p <= |code| && b.word > 0
    ensures FillEntries(code, 5, p, se, n, w, b).Overrun? <==> n > |code| - p
    decreases n
  {
    if n > 0 && p < |code| { BehindMemories(code, p + 1, se, n - 1, w, b); }
  }

  const EmptyMemory: seq<Byte> := [0x05, 0x01, 0x01]

  /** A memory section that announces one entry and has none, at the end of the binary: the flags are read behind it. */
  lemma EmptyMemoryOverruns(b: Buffers)
    requires b.word > 0
    ensures FillModule(EmptyMemory, 0, NOTHING, b).Overrun?
  {
    var code := EmptyMemory;
    Single(code, 1, 3);
    Single(code, 2, 3);
    assert FillSection(code, 0, NOTHING, b) == Pass(FillEntries(code, 5, 3, 3, 1, NOTHING, b)) by {
      MemorySectionOverruns(code, 3, 3, 1, NOTHING, b);
    }
    MemorySectionOverruns(code, 3, 3, 1, NOTHING, b);
  }

  lemma Single(code: seq<Byte>, p: nat, se: nat)
    requires p < se <= |code| && code[p] < 128
    ensures ReadU(code, p, se) == At(p + 1, code[p] as nat)
  {
    FirstGroup(code, p);
  }

  // ----- the buffer of offsets -----

  /** What the counting pass does with the number of data segments from some section on. */
  lemma {:induction false} DatasCounted(code: seq<Byte>, p: nat, c: Counts, seen: set<nat>)
    requires p <= |code| && CountModule(code, p, c, seen).At? && 11 in seen
    ensures CountModule(code, p, c, seen).v.datas == c.datas
    decreases |code| - p
  {
    hide ReadU, CountSection;
    if p + 1 < |code| {
      var size := ReadU(code, p + 1, |code|);
      if size.v <= |code| - size.p {
        var se := size.p + size.v;
        OtherSection(code, code[p], size.p, se, c);
        DatasCounted(code, se, CountSection(code, code[p], size.p, se, c), seen + {code[p] as nat});
      }
    }
  }

  lemma OtherSection(code: seq<Byte>, id: Byte, p: nat, se: nat, c: Counts)
    requires p <= se <= |code|
    ensures CountSection(code, id, p, se, c).datas == if id == 11 then ReadU(code, p, se).v else c.datas
  {
    hide ReadU, CountImports;
    if id == 2 { ImportsLeaveDatas(code, ReadU(code, p, se).p, se, ReadU(code, p, se).v, c.(imports := ReadU(code, p, se).v)); }
  }

  lemma {:induction false} ImportsLeaveDatas(code: seq<Byte>, p: nat, se: nat, n: nat, c: Counts)
    requires p <= se <= |code|
    ensures CountImports(code, p, se, n, c).datas == c.datas
    decreases n
  {
    hide ReadU;
    if n > 0 && p < se {
      var m := ReadName(code, p, se);
      if m.At? {
        var f := ReadName(code, m.p, se);
        if f.At? && f.p < se {
          var kind, q := code[f.p], f.p + 1;
          if kind == 0x00 { ImportsLeaveDatas(code, ReadU(code, q, se).p, se, n - 1, c.(funcs := c.funcs + 1)); }
          if kind == 0x01 && q + 1 < se { ImportsLeaveDatas(code, ReadLimits(code, q + 1, se).p, se, n - 1, c.(tables := c.tables + 1)); }
          if kind == 0x02 && q < se { ImportsLeaveDatas(code, ReadLimits(code, q, se).p, se, n - 1, c); }
          if kind == 0x03 && q + 2 <= se { ImportsLeaveDatas(code, q + 2, se, n - 1, c.(globals := c.globals + 1)); }
        }
      }
    }
  }

  lemma {:induction false} DatasWritten(code: seq<Byte>, id: nat, p: nat, se: nat, n: nat, w: Written, b: Buffers)
    requires p <= |code| && se <= |code| && Known(id) && b.word > 0
    ensures var r := FillEntries(code, id, p, se, n, w, b); r.At? ==> r.v.datas == w.datas + (if id == 11 then n else 0)
    decreases n
  {
    hide FillEntry;
    if n > 0 {
      OneDataWritten(code, id, p, se, w, b);
      var r := FillEntry(code, id, p, se, w, b);
      if r.At? { DatasWritten(code, id, r.p, se, n - 1, r.v, b); }
    }
  }

  lemma OneDataWritten(code: seq<Byte>, id: nat, p: nat, se: nat, w: Written, b: Buffers)
    requires p <= |code| && se <= |code| && Known(id) && b.word > 0
    ensures var r := FillEntry(code, id, p, se, w, b); r.At? ==> r.v.datas == w.datas + (if id == 11 then 1 else 0)
  {
    hide ReadU, ReadName, ReadLimits, ReadInit, ReadElemHead, ReadItems, ReadDataHead, ReadLocals, ItemRoom;
  }

  /** The section at `p` when the capacity for segments is that of the counting pass. */
  lemma CountedSection(code: seq<Byte>, p: nat, w: Written, c: Counts, b: Buffers, seen: set<nat>, k: nat)
    requires p <= |code| && CountModule(code, p, c, seen).At? && (11 !in seen ==> w.datas == 0) && b.word > 0
    requires Roomy(b) && b.cap.datas == CountModule(code, p, c, seen).v.datas
    ensures ShortSection(code, p, w, b, k) ==> code[p] in {2, 4, 5, 6, 9}
  {
    hide ReadU, CountSection, FillEntries, Roomy, Short;
    if ShortSection(code, p, w, b, k) {
      var size := ReadU(code, p + 1, |code|);
      var se := size.p + size.v;
      var n := ReadU(code, size.p, se);
      var w1 := Started(w, code[p]);
      if code[p] == 11 && p + 1 < |code| {
        OtherSection(code, 11, size.p, se, c);
        DatasCounted(code, se, CountSection(code, 11, size.p, se, c), seen + {11});
        DatasWritten(code, 11, n.p, se, k, w1, b);
      }
      RoomyAt(code, code[p], n.p, se, w1, b, k);
    }
  }

  lemma RoomyAt(code: seq<Byte>, id: nat, p: nat, se: nat, w: Written, b: Buffers, k: nat)
    requires p <= |code| && se <= |code| && b.word > 0 && Known(id) && Roomy(b) && ShortAt(code, id, p, se, w, b, k)
    requires id == 11 ==> FillEntries(code, id, p, se, k, w, b).v.datas < b.cap.datas
    ensures id in {2, 4, 5, 6, 9}
  {
    hide FillEntries, Short;
    var r := FillEntries(code, id, p, se, k, w, b);
    RoomyEntry(code, id, r.p, se, r.v, b);
  }

  /** With room for all there is capacity for, only what is missing from the binary makes an entry short. */
  lemma RoomyEntry(code: seq<Byte>, id: nat, p: nat, se: nat, w: Written, b: Buffers)
    requires p <= |code| && se <= |code| && b.word > 0 && Known(id) && Roomy(b) && Short(code, id, p, se, w, b)
    requires id == 11 ==> w.datas < b.cap.datas
    ensures id in {2, 4, 5, 6, 9}
  {
    hide ReadU, ReadName, ReadDataHead, ReadLocals, FillGlobal, FillElem, FillImport, FillData, ShortGlobal, ShortElem, ShortImport;
  }

  lemma {:induction false} CountedSections(code: seq<Byte>, p: nat, w: Written, c: Counts, b: Buffers, seen: set<nat>, m: nat, k: nat)
    requires p <= |code| && CountModule(code, p, c, seen).At? && (11 !in seen ==> w.datas == 0) && b.word > 0
    requires Roomy(b) && b.cap.datas == CountModule(code, p, c, seen).v.datas
    ensures ShortIn(code, p, w, b, m, k) ==> code[FirstSections(code, p, w, b, m).p] in {2, 4, 5, 6, 9}
    decreases m
  {
    hide ReadU, ShortSection, CountSection, FillEntries, Roomy;
    if m == 0 || p == |code| {
      CountedSection(code, p, w, c, b, seen, k);
    } else {
      var r := FillSection(code, p, w, b);
      if r.At? {
        var size := ReadU(code, p + 1, |code|);
        var se := size.p + size.v;
        if Known(code[p]) {
          var n := ReadU(code, size.p, se);
          DatasWritten(code, code[p], n.p, se, n.v, Started(w, code[p]), b);
        }
        if p + 1 < |code| {
          CountedSections(code, se, r.v, CountSection(code, code[p], size.p, se, c), b, seen + {code[p] as nat}, m - 1, k);
        } else {
          AtEnd(code, r.v, b, m - 1, k);
        }
      }
    }
  }

  lemma AtEnd(code: seq<Byte>, w: Written, b: Buffers, m: nat, k: nat)
    requires b.word > 0
    ensures !ShortIn(code, |code|, w, b, m, k)
  {
  }

  /** When every buffer has room for what was counted, on any bytes, none is written past its end, not even that of the
      offsets, recorded before the capacity test: what is short is an entry of an import, table, memory, global or element
      section. */
  lemma OffsetsFit(code: seq<Byte>, b: Buffers, m: nat, k: nat)
    requires CountModule(code, 0, NONE, {}).At? && b.cap == CountModule(code, 0, NONE, {}).v && Roomy(b) && b.word > 0
    ensures ShortIn(code, 0, NOTHING, b, m, k) ==> code[FirstSections(code, 0, NOTHING, b, m).p] in {2, 4, 5, 6, 9}
  {
    hide CountModule, FirstSections;
    CountedSections(code, 0, NOTHING, NONE, b, {}, m, k);
  }

  // ----- sizes that wrap -----

  const WORD: nat := 0x1_0000_0000

  /** 2^30 + 1 in five bytes. */
  const Huge: Imm := [0x81, 0x80, 0x80, 0x80, 0x04]

  lemma HugeCount()
    ensures Legal(Huge, 5) && U(Huge) == 0x4000_0001
  {
    var h := Huge;
    assert PayloadAt(h, 0, 1) == 1 by { FirstGroup(h, 0); }
    assert PayloadAt(h, 0, 2) == 1;
    assert PayloadAt(h, 0, 3) == 1;
    assert PayloadAt(h, 0, 4) == 1;
    assert PayloadAt(h, 0, 5) == 0x4000_0001;
  }

  /** So many elements of a size divisible by four take as many bytes as one of them. */
  lemma HugeRoom(unit: nat, size: nat)
    requires 0 < size && size % 4 == 0 && 0 < unit && size + unit <= WORD
    ensures 0x4000_0001 * size % WORD == size && Requests.Room(WORD, unit, size, 0x4000_0001) == 1
  {
    var q := size / 4;
    assert 0x4000_0001 * size == q * WORD + size;
  }

  /** If only one kind of buffer is requested, the answer is that for it. */
  lemma {:induction false} OnlyAnswer(asks: seq<Ask>, i: nat, word: nat, unit: nat, room: nat)
    requires (forall k :: 0 <= k < |asks| ==> Proper(asks[k])) && word > 0 && i < |asks|
    requires (forall k :: 0 <= k < |asks| && k != i ==> asks[k].n == 0) && AnswerOne(asks[i], word, unit) == Granted([room])
    ensures AnswerAll(asks, word, unit) == Granted(seq(|asks|, _ => 0)[i := room])
  {
    hide Proper;
    assert AnswerAll(asks, word, unit).Granted? && AnswerAll(asks, word, unit).rooms == seq(|asks|, _ => 0)[i := room] by {
      if i == 0 {
        NoAnswers(asks[1..], word, unit);
      } else {
        EmptyAnswer(asks[0], word, unit);
        OnlyAnswer(asks[1..], i - 1, word, unit, room);
      }
    }
  }

  lemma EmptyAnswer(a: Ask, word: nat, unit: nat)
    requires Proper(a) && word > 0 && a.n == 0
    ensures AnswerOne(a, word, unit) == Granted([0])
  {
  }

  lemma {:induction false} NoAnswers(asks: seq<Ask>, word: nat, unit: nat)
    requires (forall k :: 0 <= k < |asks| ==> Proper(asks[k]) && asks[k].n == 0) && word > 0
    ensures AnswerAll(asks, word, unit) == Granted(seq(|asks|, _ => 0))
  {
    hide Proper;
    if asks != [] {
      EmptyAnswer(asks[0], word, unit);
      NoAnswers(asks[1..], word, unit);
      assert [0] + seq(|asks| - 1, _ => 0) == seq(|asks|, _ => 0);
    } else {
      assert seq(0, _ => 0) == [];
    }
  }

  /** A function section that announces so many functions. */
  const WrappedFunctions: seq<Byte> := [0x03, 0x05] + Huge

  /** With words of 32 bits the size of the buffer wraps to that of one function; the type indices are read as 0 behind the
      section, and the second function is written behind the buffer. */
  lemma WrappedFunctionsOverrun(z: Sizes, unit: nat)
    requires Positives(z) && z.func % 4 == 0 && unit > 0 && z.func + unit <= WORD
    ensures ParseSections(WrappedFunctions, z, WORD, unit).Overrun?
  {
    hide ReadU, FillEntries, Allocate, CountModule;
    HugeFunctions(z, unit);
    var b := Allocate(NONE.(funcs := 0x4000_0001), z, WORD, unit).b;
    CountedFunctions();
    Single(WrappedFunctions, 1, 7);
    HugeCount();
    ReadImm(WrappedFunctions, 2, 7, Huge);
    SecondOverruns(WrappedFunctions, b);
  }

  lemma CountedFunctions()
    ensures CountModule(WrappedFunctions, 0, NONE, {}) == At(7, NONE.(funcs := 0x4000_0001))
  {
    hide ReadU;
    HugeCount();
    Single(WrappedFunctions, 1, 7);
    ReadImm(WrappedFunctions, 2, 7, Huge);
    assert CountModule(WrappedFunctions, 7, NONE.(funcs := 0x4000_0001), {3}) == At(7, NONE.(funcs := 0x4000_0001));
  }

  lemma HugeFunctions(z: Sizes, unit: nat)
    requires Positives(z) && z.func % 4 == 0 && unit > 0 && z.func + unit <= WORD
    ensures var a := Allocate(NONE.(funcs := 0x4000_0001), z, WORD, unit);
            a.Ready? && a.b.cap.funcs == 0x4000_0001 && a.b.room.funcs == 1 && a.b.word == WORD
  {
    hide Requests.Room, AnswerAll;
    var asks := Asks(NONE.(funcs := 0x4000_0001), z, WORD);
    HugeRoom(unit, z.func);
    assert Requests.Room(WORD, unit, [z.func][0], 0x4000_0001) == 1;
    assert Clears(asks[1], z.func, WORD, unit);
    OnlyAnswer(asks, 1, WORD, unit, 1);
  }

  lemma SecondOverruns(code: seq<Byte>, b: Buffers)
    requires |code| == 7 && b.word > 0 && b.cap.funcs == 0x4000_0001 && b.room.funcs == 1
    ensures FillEntries(code, 3, 7, 7, 0x4000_0001, NOTHING, b).Overrun?
  {
    var w := NOTHING.(funcs := 1);
    assert FillEntry(code, 3, 7, 7, NOTHING, b) == At(7, w);
    assert FillEntry(code, 3, 7, 7, w, b).Overrun?;
    assert FillEntries(code, 3, 7, 7, 0x4000_0000, w, b).Overrun?;
  }

  /** An active element segment of so many indices, of which none is there. */
  const WrappedElement: seq<Byte> := [0x09, 0x0A, 0x01, 0x00, 0x41, 0x00, 0x0B] + Huge

  /** With words of 32 bits the array of the segment has room for one. */
  lemma WrappedElementOverruns(z: Sizes, unit: nat)
    requires Positives(z) && 0 < unit && Largest(z) + unit <= WORD
    ensures ParseSections(WrappedElement, z, WORD, unit).Overrun?
  {
    hide ReadU, FillEntries, Allocate, CountModule, Largest;
    var c := NONE.(elems := 1);
    SmallIsRoomy(c, z, WORD, unit, 1);
    var b := Allocate(c, z, WORD, unit).b;
    CountedElement();
    Single(WrappedElement, 1, 12);
    Single(WrappedElement, 2, 12);
    OneElementOverruns(NOTHING, b);
    assert FillEntries(WrappedElement, 9, 3, 12, 1, NOTHING, b).Overrun? by { FirstOverruns(WrappedElement, 9, 3, 12, NOTHING, b); }
  }

  lemma FirstOverruns(code: seq<Byte>, id: nat, p: nat, se: nat, w: Written, b: Buffers)
    requires p <= |code| && se <= |code| && b.word > 0 && FillEntry(code, id, p, se, w, b).Overrun?
    ensures FillEntries(code, id, p, se, 1, w, b).Overrun?
  {
    hide FillEntry;
  }

  lemma CountedElement()
    ensures CountModule(WrappedElement, 0, NONE, {}) == At(12, NONE.(elems := 1))
  {
    hide ReadU;
    Single(WrappedElement, 1, 12);
    Single(WrappedElement, 2, 12);
    assert CountModule(WrappedElement, 12, NONE.(elems := 1), {9}) == At(12, NONE.(elems := 1));
  }

  lemma OneElementOverruns(w: Written, b: Buffers)
    requires b.word == WORD && 0 < b.unit && 4 + b.unit <= WORD
    ensures FillEntry(WrappedElement, 9, 3, 12, w, b).Overrun?
  {
    hide ReadU, Requests.Room;
    var code := WrappedElement;
    Single(code, 3, 12);
    Single(code, 5, 12);
    HugeCount();
    ReadImm(code, 7, 12, Huge);
    HugeRoom(b.unit, 4);
    assert ReadElemHead(code, 3, 12) == At(7, 0);
    assert ReadItem(code, 12, 12, false) == At(12, 0);
    assert ReadItems(code, 12, 12, 0x4000_0000, 0, false).Overrun?;
    assert ReadItems(code, 12, 12, 0x4000_0001, 1, false).Overrun?;
  }
}
