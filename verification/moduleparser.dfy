// The code of the two parsing passes: a cursor over the binary, the counts, the buffers, and what has been written so far.
// There is no test where the specification says `Overrun`, `Behind` or `Spilled`; the methods therefore speak of inputs on
// which that does not happen, which module `Overreads` singles out exactly.
module ModuleParser {
  import opened Leb128
  import opened Bytecode
  import opened SectionBuffers
  import opened Sections
  import Requests

  /** The first request that is not granted is the answer. */
  lemma {:induction false} StopsAt(asks: seq<Ask>, i: nat, word: nat, unit: nat)
    requires (forall k :: 0 <= k < |asks| ==> Proper(asks[k])) && word > 0 && i < |asks|
    requires forall k :: 0 <= k < i ==> AnswerOne(asks[k], word, unit).Granted?
    ensures !AnswerOne(asks[i], word, unit).Granted? ==> AnswerAll(asks, word, unit) == AnswerOne(asks[i], word, unit)
  {
    hide AnswerOne, Proper;
    if i > 0 {
      assert forall k :: 0 <= k < i - 1 ==> asks[1..][k] == asks[k + 1];
      StopsAt(asks[1..], i - 1, word, unit);
    }
  }

  lemma {:induction false} AllGranted(asks: seq<Ask>, rooms: seq<nat>, word: nat, unit: nat)
    requires (forall k :: 0 <= k < |asks| ==> Proper(asks[k])) && word > 0 && |rooms| == |asks|
    requires forall k :: 0 <= k < |asks| ==> AnswerOne(asks[k], word, unit) == Granted([rooms[k]])
    ensures AnswerAll(asks, word, unit) == Granted(rooms)
  {
    hide AnswerOne, Proper;
    if asks != [] {
      AllGranted(asks[1..], rooms[1..], word, unit);
      assert [rooms[0]] + rooms[1..] == rooms;
    }
  }

  class Parser {
    const code: seq<Byte>
    const sizes: Sizes
    const word: nat
    const unit: nat
    var ptr: nat
    var counts: Counts
    var buffers: Buffers
    var written: Written

    constructor (code: seq<Byte>, sizes: Sizes, word: nat, unit: nat)
      ensures this.code == code && this.sizes == sizes && this.word == word && this.unit == unit
      ensures ptr == 0 && counts == NONE && written == NOTHING
    {
      this.code, this.sizes, this.word, this.unit := code, sizes, word, unit;
      ptr, counts, written := 0, NONE, NOTHING;
      buffers := Buffers(NONE, Rooms(0, 0, 0, 0, 0, 0, 0, 0), word, unit);
    }

    /** The cursor is in the binary, perhaps behind the section end `se`. */
    predicate Inside(se: nat)
      reads this
    {
      ptr <= |code| && se <= |code|
    }

    method Decode(se: nat) returns (v: nat)
      requires Inside(se)
      modifies this`ptr
      ensures Inside(se) && At(ptr, v) == old(ReadU(code, ptr, se))
    {
      hide Taken, U32At;
      v := 0;
      if ptr < se { v, ptr := DecodeVarUint32(code, ptr, se); }
    }

    /** Skips a length-prefixed name. */
    method SkipName(se: nat) returns (ok: bool)
      requires Inside(se)
      modifies this`ptr
      ensures Inside(se) && (ok <==> old(ReadName(code, ptr, se)).At?) && (ok ==> ptr == old(ReadName(code, ptr, se)).p)
    {
      hide ReadU;
      var n := Decode(se);
      if ptr <= se && n > se - ptr { return false; }
      ptr := ptr + n;
      ok := true;
    }

    /** The flags are read without a test. */
    method SkipLimits(se: nat)
      requires Inside(se) && ptr < |code|
      modifies this`ptr
      ensures Inside(se) && ptr == old(ReadLimits(code, ptr, se)).p
    {
      hide ReadU;
      var flags := code[ptr];
      ptr := ptr + 1;
      var min := Decode(se);
      if flags % 2 == 1 { var max := Decode(se); }
    }

    // ----- the counting pass -----

    /** Walks the import entries; it stops at the first one that cannot be read. */
    method CountImportEntries(se: nat, n: nat)
      requires Inside(se) && ptr <= se
      modifies this`ptr, this`counts
      ensures counts == CountImports(code, old(ptr), se, n, old(counts))
    {
      hide ReadU, ReadName, ReadLimits;
      ghost var goal := CountImports(code, ptr, se, n, counts);
      var i := 0;
      while i < n && ptr < se
        invariant Inside(se) && ptr <= se && i <= n && goal == CountImports(code, ptr, se, n - i, counts)
        decreases n - i
      {
        var ok := SkipName(se);
        if !ok { return; }
        ok := SkipName(se);
        if !ok || ptr >= se { return; }
        var kind := code[ptr];
        ptr := ptr + 1;
        if kind == 0x00 {
          var t := Decode(se);
          counts := counts.(funcs := counts.funcs + 1);
        } else if kind == 0x01 {
          if ptr >= se { return; }
          ptr := ptr + 1;
          if ptr >= se { return; }
          SkipLimits(se);
          counts := counts.(tables := counts.tables + 1);
        } else if kind == 0x02 {
          if ptr >= se { return; }
          SkipLimits(se);
        } else if kind == 0x03 {
          if ptr + 2 > se { return; }
          ptr := ptr + 2;
          counts := counts.(globals := counts.globals + 1);
        } else {
          return;
        }
        i := i + 1;
      }
    }

    /** CountSectionEntries: a repeated section or a truncated one ends the pass. */
    method CountSectionEntries() returns (ok: bool)
      requires ptr == 0 && counts == NONE
      modifies this`ptr, this`counts
      ensures var r := CountModule(code, 0, NONE, {}); (ok <==> r.At?) && (ok ==> counts == r.v)
    {
      hide ReadU, CountImports;
      ghost var goal := CountModule(code, 0, counts, {});
      var seen: set<nat> := {};
      while ptr < |code|
        invariant ptr <= |code| && goal == CountModule(code, ptr, counts, seen)
        decreases |code| - ptr
      {
        var id := code[ptr];
        ptr := ptr + 1;
        if ptr >= |code| { return true; }
        var size := Decode(|code|);
        if size > |code| - ptr { return true; }
        var se := ptr + size;
        if 0 < id <= 15 {
          if id as nat in seen { return false; }
        }
        seen := seen + {id as nat};
        CountOne(id, se);
        ptr := se;
      }
      ok := true;
    }

    method CountOne(id: Byte, se: nat)
      requires Inside(se) && ptr <= se
      modifies this`ptr, this`counts
      ensures counts == CountSection(code, id, old(ptr), se, old(counts))
    {
      hide ReadU, CountImports;
      if id == 1 {
        var n := Decode(se);
        counts := counts.(types := n);
      } else if id == 2 {
        var n := Decode(se);
        counts := counts.(imports := n);
        CountImportEntries(se, n);
      } else if id == 3 {
        var n := Decode(se);
        counts := counts.(funcs := counts.funcs + n);
      } else if id == 4 {
        var n := Decode(se);
        counts := counts.(tables := counts.tables + n);
      } else if id == 6 {
        var n := Decode(se);
        counts := counts.(globals := counts.globals + n);
      } else if id == 7 {
        var n := Decode(se);
        counts := counts.(exports := n);
      } else if id == 9 {
        var n := Decode(se);
        counts := counts.(elems := n);
      } else if id == 11 {
        var n := Decode(se);
        counts := counts.(datas := n);
      }
    }

    // ----- the buffers -----

    /** Requests one array after the other; the answer is the least room among them. */
    method Request(a: Ask) returns (ok: bool, room: nat)
      requires Proper(a) && word > 0 && !AnswerOne(a, word, unit).Behind?
      ensures var r := AnswerOne(a, word, unit); if ok then r == Granted([room]) else r == Refused
    {
      hide Requests.Room;
      if a.n == 0 { return true, 0; }
      var least := Requests.Room(word, unit, a.sizes[0], a.n);
      var i := 1;
      while i < |a.sizes|
        invariant 1 <= i <= |a.sizes|
        invariant LeastRoom(a.n, a.sizes, word, unit) ==
                  if i == |a.sizes| then least else Min(least, LeastRoom(a.n, a.sizes[i..], word, unit))
        decreases |a.sizes| - i
      {
        var next := Requests.Room(word, unit, a.sizes[i], a.n);
        if next < least { least := next; }
        i := i + 1;
      }
      if least < 0 { return false, 0; }
      ok, room := true, least;
    }

    /** One buffer after the other; the first that is refused ends it. */
    method AllocateSectionBuffers() returns (ok: bool)
      requires Positives(sizes) && word > 0 && !Allocate(counts, sizes, word, unit).Spilled?
      modifies this`buffers
      ensures var r := Allocate(counts, sizes, word, unit); if ok then r == Ready(buffers) else r == NoMemory
    {
      hide AnswerOne, Proper, Requests.Room;
      var asks := Asks(counts, sizes, word);
      var types, funcs, exports, imports, globals, tables, datas, elems;
      StopsAt(asks, 0, word, unit);
      ok, types := Request(asks[0]);
      if !ok { return; }
      StopsAt(asks, 1, word, unit);
      ok, funcs := Request(asks[1]);
      if !ok { return; }
      StopsAt(asks, 2, word, unit);
      ok, exports := Request(asks[2]);
      if !ok { return; }
      StopsAt(asks, 3, word, unit);
      ok, imports := Request(asks[3]);
      if !ok { return; }
      StopsAt(asks, 4, word, unit);
      ok, globals := Request(asks[4]);
      if !ok { return; }
      StopsAt(asks, 5, word, unit);
      ok, tables := Request(asks[5]);
      if !ok { return; }
      StopsAt(asks, 6, word, unit);
      ok, datas := Request(asks[6]);
      if !ok { return; }
      StopsAt(asks, 7, word, unit);
      ok, elems := Request(asks[7]);
      if !ok { return; }
      AllGranted(asks, [types, funcs, exports, imports, globals, tables, datas, elems], word, unit);
      var offsets := Requests.Room(word, unit, 4, counts.datas % word);
      if offsets < 0 { offsets := 0; }
      buffers := Buffers(Capacities(counts, word), Rooms(types, funcs, imports, tables, exports, elems, datas, offsets), word, unit);
    }

    /** Counts, allocates, fills. */
    method ParseModule() returns (ok: bool)
      requires ptr == 0 && counts == NONE && written == NOTHING && Positives(sizes) && word > 0
      requires !ParseSections(code, sizes, word, unit).Overrun?
      modifies this
      ensures var r := ParseSections(code, sizes, word, unit); (ok <==> r.At?) && (ok ==> written == r.v)
    {
      hide CountModule, FillModule, Asks, AnswerAll, Requests.Room;
      ok := CountSectionEntries();
      if !ok { return; }
      ok := AllocateSectionBuffers();
      if !ok { return; }
      ptr := 0;
      ok := FillSections();
    }

    // ----- the filling pass -----

    /** The cursor and the entries written, as the specification of one entry or section says. */
    ghost predicate Did(r: Cursor<Written>, ok: bool)
      reads this
    {
      (ok <==> r.At?) && (ok ==> ptr == r.p && written == r.v)
    }

    method ParseType(se: nat) returns (ok: bool)
      requires Inside(se) && !FillType(code, ptr, se, written, buffers).Overrun?
      modifies this`ptr, this`written
      ensures ptr <= |code| && Did(old(FillType(code, ptr, se, written, buffers)), ok)
    {
      hide ReadU;
      if ptr >= se || code[ptr] != 0x60 { return false; }
      ptr := ptr + 1;
      var paramCount := Decode(se);
      var paramsStart := ptr;
      if paramCount > MAX_ARITY || paramCount > se - ptr { return false; }
      ptr := ptr + paramCount;
      var resultCount := Decode(se);
      var resultsStart := ptr;
      if resultCount > MAX_ARITY || resultCount > se - ptr { return false; }
      ptr := ptr + resultCount;
      if |written.sigs| >= buffers.cap.types { return false; }
      assert |written.sigs| < buffers.room.types;
      written := written.(sigs := written.sigs + [Signature(code[paramsStart..paramsStart + paramCount], code[resultsStart..ptr])]);
      ok := true;
    }

    method ParseImport(se: nat) returns (ok: bool)
      requires Inside(se) && !FillImport(code, ptr, se, written, buffers).Overrun?
      modifies this`ptr, this`written
      ensures ptr <= |code| && Did(old(FillImport(code, ptr, se, written, buffers)), ok)
    {
      hide ReadU, ReadName;
      ok := SkipName(se);
      if !ok { return; }
      ok := SkipName(se);
      if !ok || ptr >= se { return false; }
      var kind := code[ptr];
      ptr := ptr + 1;
      if kind == 0x00 {
        var t := Decode(se);
        if written.funcs >= buffers.cap.funcs { return false; }
        written := written.(funcs := written.funcs + 1, imported := written.imported + 1);
      } else if kind == 0x01 {
        var elemType := code[ptr];
        ptr := ptr + 1;
        SkipLimits(se);
        if written.tables < buffers.cap.tables { written := written.(tables := written.tables + 1); }
      } else if kind == 0x02 {
        SkipLimits(se);
      } else if kind == 0x03 {
        if ptr + 2 > se { return false; }
        ptr := ptr + 2;
        if written.globals < buffers.cap.globals { written := written.(globals := written.globals + 1); }
      }
      if written.imports < buffers.cap.imports {
        assert written.imports < buffers.room.imports;
        written := written.(imports := written.imports + 1);
      }
      ok := true;
    }

    /** The test is made on the unsigned distance to the limit. */
    method SkipRaw(se: nat, n: nat) returns (ok: bool)
      requires Inside(se) && !ReadRaw(code, ptr, se, n).Overrun?
      modifies this`ptr
      ensures ptr <= |code|
      ensures (ok <==> old(ReadRaw(code, ptr, se, n)).At?) && (ok ==> ptr == old(ReadRaw(code, ptr, se, n)).p)
    {
      if ptr <= se && n > se - ptr { return false; }
      ptr := ptr + n;
      ok := true;
    }

    method SkipInit(se: nat) returns (ok: bool)
      requires Inside(se) && !ReadInit(code, ptr, se, written.globals).Overrun?
      modifies this`ptr
      ensures ptr <= |code|
      ensures var r := old(ReadInit(code, ptr, se, written.globals)); (ok <==> r.At?) && (ok ==> ptr == r.p)
    {
      hide ReadU, Taken, ReadRaw;
      ok := true;
      var op := code[ptr];
      ptr := ptr + 1;
      if op == 0x41 || op == 0xD0 || op == 0xD2 {
        var v := Decode(se);
      } else if op == 0x42 {
        var v := 0;
        if ptr < se { v, ptr := DecodeVarInt64(code, ptr, se); }
      } else if op == 0x43 {
        ok := SkipRaw(se, 4);
      } else if op == 0x44 {
        ok := SkipRaw(se, 8);
      } else if op == 0x23 {
        var idx := Decode(se);
        if idx >= written.globals { return false; }
      } else {
        return false;
      }
    }

    method ParseGlobal(se: nat) returns (ok: bool)
      requires Inside(se) && !FillGlobal(code, ptr, se, written, buffers).Overrun?
      modifies this`ptr, this`written
      ensures ptr <= |code| && Did(old(FillGlobal(code, ptr, se, written, buffers)), ok)
    {
      hide ReadInit;
      if written.globals >= buffers.cap.globals { return false; }
      var valueType, isMutable := code[ptr], code[ptr + 1] != 0;
      ptr := ptr + 2;
      ok := SkipInit(se);
      if !ok { return; }
      if ptr >= se || code[ptr] != 0x0B { return false; }
      ptr := ptr + 1;
      written := written.(globals := written.globals + 1);
      ok := true;
    }

    /** The opcode is read without a test. */
    method SkipOffset(se: nat) returns (ok: bool)
      requires Inside(se) && ptr < |code|
      modifies this`ptr
      ensures ptr <= |code|
      ensures (ok <==> old(ReadOffset(code, ptr, se)).At?) && (ok ==> ptr == old(ReadOffset(code, ptr, se)).p)
    {
      hide ReadU;
      var op := code[ptr];
      ptr := ptr + 1;
      if op != 0x41 && op != 0x23 { return false; }
      var v := Decode(se);
      if ptr >= se || code[ptr] != 0x0B { return false; }
      ptr := ptr + 1;
      ok := true;
    }

    method ParseElemHead(se: nat) returns (ok: bool, flags: nat)
      requires Inside(se) && !ReadElemHead(code, ptr, se).Overrun?
      modifies this`ptr
      ensures ptr <= |code|
      ensures (ok <==> old(ReadElemHead(code, ptr, se)).At?) && (ok ==> At(ptr, flags) == old(ReadElemHead(code, ptr, se)))
    {
      hide ReadU, ReadOffset;
      flags := Decode(se);
      var hasOffset := flags % 2 == 0;
      ok := true;
      if hasOffset {
        if flags / 2 % 2 == 1 { var table := Decode(se); }
        ok := SkipOffset(se);
        if !ok { return; }
      } else {
        var kind := code[ptr];
        ptr := ptr + 1;
      }
      if hasOffset && flags / 2 % 2 == 1 {
        if ptr >= se { return false, flags; }
        ptr := ptr + 1;
      }
    }

    method SkipItem(se: nat, exprs: bool) returns (ok: bool)
      requires Inside(se) && !ReadItem(code, ptr, se, exprs).Overrun?
      modifies this`ptr
      ensures ptr <= |code|
      ensures (ok <==> old(ReadItem(code, ptr, se, exprs)).At?) && (ok ==> ptr == old(ReadItem(code, ptr, se, exprs)).p)
    {
      hide ReadU;
      if exprs {
        if ptr >= se { return false; }
        var op := code[ptr];
        ptr := ptr + 1;
        if op == 0xD2 {
          var f := Decode(se);
        } else if op == 0xD0 {
          var typ := code[ptr];
          ptr := ptr + 1;
        }
        if ptr >= se || code[ptr] != 0x0B { return false; }
        ptr := ptr + 1;
      } else {
        var f := Decode(se);
      }
      ok := true;
    }

    /** Item `i` is stored at index `i` of the segment's array. */
    method SkipItems(se: nat, n: nat, room: nat, exprs: bool) returns (ok: bool)
      requires Inside(se) && !ReadItems(code, ptr, se, n, room, exprs).Overrun?
      modifies this`ptr
      ensures ptr <= |code|
      ensures (ok <==> old(ReadItems(code, ptr, se, n, room, exprs)).At?) && (ok ==> ptr == old(ReadItems(code, ptr, se, n, room, exprs)).p)
    {
      hide ReadItem;
      ghost var goal := ReadItems(code, ptr, se, n, room, exprs);
      var i := 0;
      while i < n
        invariant Inside(se) && i <= n && (i <= room || i == 0) && goal == ReadItems(code, ptr, se, n - i, room - i, exprs)
        decreases n - i
      {
        ok := SkipItem(se, exprs);
        if !ok { return; }
        assert i < room;
        i := i + 1;
      }
      ok := true;
    }

    method ParseElement(se: nat) returns (ok: bool)
      requires Inside(se) && buffers.word > 0 && !FillElem(code, ptr, se, written, buffers).Overrun?
      modifies this`ptr, this`written
      ensures ptr <= |code| && Did(old(FillElem(code, ptr, se, written, buffers)), ok)
    {
      hide ReadU, ReadElemHead, ReadItems, Requests.Room;
      if ptr >= se { return false; }
      var flags;
      ok, flags := ParseElemHead(se);
      if !ok { return; }
      var num := Decode(se);
      var room := if num > 0 then Requests.Room(buffers.word, buffers.unit, 4, num) else 0;
      if room < 0 { return false; }
      ok := SkipItems(se, num, room, flags / 4 % 2 == 1);
      if !ok { return; }
      if written.elems >= buffers.cap.elems { return false; }
      assert written.elems < buffers.room.elems;
      written := written.(elems := written.elems + 1);
    }

    method ParseDataHead(se: nat) returns (ok: bool, flags: nat)
      requires Inside(se)
      modifies this`ptr
      ensures ptr <= |code|
      ensures (ok <==> old(ReadDataHead(code, ptr, se)).At?) && (ok ==> At(ptr, flags) == old(ReadDataHead(code, ptr, se)))
    {
      hide ReadU, ReadOffset;
      flags := Decode(se);
      ok := true;
      if flags != 1 && flags != 3 {
        if flags == 2 { var mem := Decode(se); }
        if ptr >= se { return false, flags; }
        ok := SkipOffset(se);
      }
    }

    /** The element of the offset buffer that an active segment is recorded in must exist. */
    method ParseData(se: nat) returns (ok: bool)
      requires Inside(se) && !FillData(code, ptr, se, written, buffers).Overrun?
      modifies this`ptr, this`written
      ensures ptr <= |code| && Did(old(FillData(code, ptr, se, written, buffers)), ok)
    {
      hide ReadU, ReadDataHead;
      var flags;
      ok, flags := ParseDataHead(se);
      if !ok { return; }
      assert !Inactive(flags) && buffers.cap.datas > 0 ==> written.datas < buffers.room.offsets;
      var size := Decode(se);
      if ptr <= se && size > se - ptr { return false; }
      if written.datas >= buffers.cap.datas { return false; }
      assert written.datas < buffers.room.datas;
      written := written.(datas := written.datas + 1);
      ptr := ptr + size;
    }

    /** The end of a body is its limit. */
    method ParseCode(se: nat) returns (ok: bool)
      requires Inside(se) && !FillCode(code, ptr, se, written, buffers).Overrun?
      modifies this`ptr, this`written
      ensures ptr <= |code| && Did(old(FillCode(code, ptr, se, written, buffers)), ok)
    {
      hide ReadU, ReadLocals;
      var size := Decode(se);
      if ptr <= se && size > se - ptr { return false; }
      var end := ptr + size;
      var n := Decode(end);
      ok := SkipLocals(end, n);
      if !ok { return; }
      if written.imported + written.codes >= buffers.cap.funcs { return false; }
      assert written.imported + written.codes < buffers.room.funcs;
      written := written.(codes := written.codes + 1);
      ptr := end;
    }

    method SkipLocals(end: nat, n: nat) returns (ok: bool)
      requires Inside(end)
      modifies this`ptr
      ensures ptr <= |code| && (ok <==> old(ReadLocals(code, ptr, end, n, 0)).At?)
    {
      hide ReadU;
      ghost var goal := ReadLocals(code, ptr, end, n, 0);
      var i: nat, sum: nat := 0, 0;
      while i < n
        invariant Inside(end) && i <= n && goal == ReadLocals(code, ptr, end, n - i, sum)
        decreases n - i
      {
        var count := Decode(end);
        if ptr >= end { return false; }
        ptr := ptr + 1;
        if count + sum > MAX_LOCALS { return false; }
        sum := sum + count;
        i := i + 1;
      }
      ok := true;
    }

    method ParseEntry(id: nat, se: nat) returns (ok: bool)
      requires Inside(se) && Known(id) && buffers.word > 0 && !FillEntry(code, id, ptr, se, written, buffers).Overrun?
      modifies this`ptr, this`written
      ensures ptr <= |code| && Did(old(FillEntry(code, id, ptr, se, written, buffers)), ok)
    {
      hide ReadU, ReadName, FillType, FillImport, FillGlobal, FillElem, FillCode, FillData;
      ok := true;
      if id == 1 {
        ok := ParseType(se);
      } else if id == 2 {
        ok := ParseImport(se);
      } else if id == 3 {
        var t := Decode(se);
        if written.funcs >= buffers.cap.funcs { return false; }
        assert written.funcs < buffers.room.funcs;
        written := written.(funcs := written.funcs + 1);
      } else if id == 4 {
        var elemType := code[ptr];
        ptr := ptr + 1;
        if elemType != 0x70 && elemType != 0x6F { return false; }
        SkipLimits(se);
        if written.tables >= buffers.cap.tables { return false; }
        assert written.tables < buffers.room.tables;
        written := written.(tables := written.tables + 1);
      } else if id == 5 {
        SkipLimits(se);
      } else if id == 6 {
        ok := ParseGlobal(se);
      } else if id == 7 {
        ok := SkipName(se);
        if !ok || ptr >= se { return false; }
        ptr := ptr + 1;
        var idx := Decode(se);
        if written.exports >= buffers.cap.exports { return false; }
        assert written.exports < buffers.room.exports;
        written := written.(exports := written.exports + 1);
      } else if id == 9 {
        ok := ParseElement(se);
      } else if id == 10 {
        ok := ParseCode(se);
      } else {
        ok := ParseData(se);
      }
    }

    /** Writes every entry of every section; bodies are numbered anew in each code section. */
    method FillSections() returns (ok: bool)
      requires ptr == 0 && buffers.word > 0 && !FillModule(code, 0, written, buffers).Overrun?
      modifies this`ptr, this`written
      ensures var r := FillModule(code, 0, old(written), buffers); (ok <==> r.At?) && (ok ==> written == r.v)
    {
      hide ReadU, FillEntries;
      ghost var goal := FillModule(code, 0, written, buffers);
      while ptr < |code|
        invariant ptr <= |code| && goal == FillModule(code, ptr, written, buffers)
        decreases |code| - ptr
      {
        var id := code[ptr];
        ptr := ptr + 1;
        var size := Decode(|code|);
        if size > |code| - ptr { return false; }
        var se := ptr + size;
        if Known(id) {
          var n := Decode(se);
          if id == 10 { written := written.(codes := 0); }
          ok := ParseEntries(id, se, n);
          if !ok { return; }
        }
        ptr := se;
      }
      ok := true;
    }

    method ParseEntries(id: nat, se: nat, n: nat) returns (ok: bool)
      requires Inside(se) && Known(id) && buffers.word > 0 && !FillEntries(code, id, ptr, se, n, written, buffers).Overrun?
      modifies this`ptr, this`written
      ensures ptr <= |code| && Did(old(FillEntries(code, id, ptr, se, n, written, buffers)), ok)
    {
      hide FillEntry;
      ghost var goal := FillEntries(code, id, ptr, se, n, written, buffers);
      var i := 0;
      while i < n
        invariant Inside(se) && i <= n && goal == FillEntries(code, id, ptr, se, n - i, written, buffers)
        decreases n - i
      {
        ok := ParseEntry(id, se);
        if !ok { return; }
        i := i + 1;
      }
      ok := true;
    }
  }
}
