// What the filling pass refuses, and that whatever it accepts keeps the capacities.
module Refusals {
  import opened Leb128
  import opened Bytecode
  import opened SectionBuffers
  import opened Sections

  // ----- types, tables, bodies -----

  /** A function type must begin with 0x60, and have at most 1000 parameters and 1000 results, all inside the section. */
  lemma TypeRefused(code: seq<Byte>, p: nat, se: nat, pc: Imm, rc: Imm, w: Written, b: Buffers)
    requires p < se <= |code|
    ensures code[p] != 0x60 ==> FillType(code, p, se, w, b).Failed?
    ensures ImmAt(code, p + 1, pc) && p + 1 + |pc| <= se && (U(pc) > 1000 || p + 1 + |pc| + U(pc) > se) ==> FillType(code, p, se, w, b).Failed?
    ensures var q := p + 1 + |pc| + U(pc);
            && ImmAt(code, p + 1, pc) && q <= se && ImmAt(code, q, rc) && q + |rc| <= se && (U(rc) > 1000 || q + |rc| + U(rc) > se) ==>
              FillType(code, p, se, w, b).Failed?
  {
    hide ImmAt, U, ReadU;
    if ImmAt(code, p + 1, pc) && p + 1 + |pc| <= se {
      ReadImm(code, p + 1, se, pc);
      var q := p + 1 + |pc| + U(pc);
      if ImmAt(code, q, rc) && q + |rc| <= se { ReadImm(code, q, se, rc); }
    }
  }

  /** A table holds functions or external references. */
  lemma TableRefused(code: seq<Byte>, p: nat, se: nat, w: Written, b: Buffers)
    requires p < |code| && se <= |code| && code[p] != 0x70 && code[p] != 0x6F
    ensures FillTable(code, p, se, w, b).Failed?
  {
  }

  /** A body declares at most 65535 locals. */
  lemma {:induction false} LocalsRefused(code: seq<Byte>, p: nat, se: nat, ls: seq<Local>, sum: nat)
    requires LocalsAt(code, p, ls) && p + LocalsSize(ls) <= se <= |code| && sum + LocalsSum(ls) > 65535 >= sum
    ensures ReadLocals(code, p, se, |ls|, sum).Failed?
    decreases |ls|
  {
    hide ImmAt, U, ReadU;
    if ls != [] {
      ReadImm(code, p, se, ls[0].count);
      if sum + U(ls[0].count) <= 65535 { LocalsRefused(code, p + |ls[0].count| + 1, se, ls[1..], sum + U(ls[0].count)); }
    }
  }

  // ----- initializers and offsets -----

  /** An initializer is a constant, a reference, or an earlier global, and ends in 0x0B. */
  lemma GlobalRefused(code: seq<Byte>, p: nat, se: nat, imm: Imm, w: Written, b: Buffers)
    requires p + 2 < se <= |code| && w.globals < b.cap.globals
    ensures code[p + 2] !in {0x23, 0x41, 0x42, 0x43, 0x44, 0xD0, 0xD2} ==> FillGlobal(code, p, se, w, b).Failed?
    ensures code[p + 2] == 0x23 && ImmAt(code, p + 3, imm) && p + 3 + |imm| <= se && U(imm) >= w.globals ==> FillGlobal(code, p, se, w, b).Failed?
    ensures code[p + 2] in {0x23, 0x41, 0xD0, 0xD2} && ImmAt(code, p + 3, imm) && p + 3 + |imm| < se && code[p + 3 + |imm|] != 0x0B ==>
              FillGlobal(code, p, se, w, b).Failed?
  {
    hide ImmAt, U, ReadU, ReadRaw, Taken;
    if ImmAt(code, p + 3, imm) && p + 3 + |imm| <= se { ReadImm(code, p + 3, se, imm); }
  }

  /** The offset of a segment is a constant or a global, and ends in 0x0B. */
  lemma OffsetRefused(code: seq<Byte>, p: nat, se: nat, imm: Imm)
    requires p < se <= |code|
    ensures code[p] != 0x41 && code[p] != 0x23 ==> ReadOffset(code, p, se).Failed?
    ensures ImmAt(code, p + 1, imm) && p + 1 + |imm| < se && code[p + 1 + |imm|] != 0x0B ==> ReadOffset(code, p, se).Failed?
  {
    hide ImmAt, U, ReadU;
    if ImmAt(code, p + 1, imm) && p + 1 + |imm| <= se { ReadImm(code, p + 1, se, imm); }
  }

  // ----- capacities -----

  /** Nothing exceeds its capacity. */
  predicate Within(w: Written, c: Counts)
  {
    && |w.sigs| <= c.types && w.funcs <= c.funcs && w.imports <= c.imports && w.tables <= c.tables && w.globals <= c.globals
    && w.exports <= c.exports && w.elems <= c.elems && w.datas <= c.datas
  }

  lemma EntryWithin(code: seq<Byte>, id: nat, p: nat, se: nat, w: Written, b: Buffers)
    requires p <= |code| && se <= |code| && b.word > 0 && Within(w, b.cap)
    ensures var r := FillEntry(code, id, p, se, w, b); r.At? ==> Within(r.v, b.cap)
  {
    hide ReadU, ReadName, ReadLimits, ReadInit, ReadElemHead, ReadItems, ReadDataHead, ReadLocals, ItemRoom;
  }

  lemma {:induction false} EntriesWithin(code: seq<Byte>, id: nat, p: nat, se: nat, n: nat, w: Written, b: Buffers)
    requires p <= |code| && se <= |code| && b.word > 0 && Within(w, b.cap)
    ensures var r := FillEntries(code, id, p, se, n, w, b); r.At? ==> Within(r.v, b.cap)
    decreases n
  {
    hide FillEntry, Within;
    if n > 0 {
      EntryWithin(code, id, p, se, w, b);
      var r := FillEntry(code, id, p, se, w, b);
      if r.At? { EntriesWithin(code, id, r.p, se, n - 1, r.v, b); }
    }
  }

  /** Whatever bytes the filling pass accepts, it never records more than there is capacity for. */
  lemma {:induction false} AcceptedWithin(code: seq<Byte>, p: nat, w: Written, b: Buffers)
    requires p <= |code| && b.word > 0 && Within(w, b.cap)
    ensures var r := FillModule(code, p, w, b); r.At? ==> Within(r.v, b.cap)
    decreases |code| - p
  {
    hide FillEntries, ReadU;
    if p < |code| {
      var size := ReadU(code, p + 1, |code|);
      if size.v <= |code| - size.p && Known(code[p]) {
        var n := ReadU(code, size.p, size.p + size.v);
        EntriesWithin(code, code[p], n.p, size.p + size.v, n.v, Started(w, code[p]), b);
      }
      var r := FillSection(code, p, w, b);
      if r.At? { AcceptedWithin(code, r.p, r.v, b); }
    }
  }

  // ----- the counting pass -----

  /** A section that comes a second time is refused by the counting pass, wherever both stand. */
  lemma {:induction false} RepeatRefused(code: seq<Byte>, p: nat, c: Counts, seen: set<nat>, k: nat)
    requires p <= |code| && k < |code| && Reaches(code, p, k) && 0 < code[k] <= 15 && code[k] as nat in seen
    ensures CountModule(code, p, c, seen).Failed?
    decreases |code| - p
  {
    hide ReadU, CountSection;
    var size := ReadU(code, p + 1, |code|);
    if p != k && !(0 < code[p] <= 15 && code[p] as nat in seen) {
      var se := size.p + size.v;
      RepeatRefused(code, se, CountSection(code, code[p], size.p, se, c), seen + {code[p] as nat}, k);
    }
  }

  /** A whole section starts at `k`, and whole sections lead there from `p`. */
  predicate Reaches(code: seq<Byte>, p: nat, k: nat)
    requires p <= |code|
    decreases |code| - p
  {
    && p + 1 < |code|
    && var size := ReadU(code, p + 1, |code|);
       && size.p + size.v <= |code| && (p == k || Reaches(code, size.p + size.v, k))
  }

  /** Two sections with the same number from 1 to 15 are refused. */
  lemma TwiceRefused(code: seq<Byte>, c: Counts, seen: set<nat>, p: nat, k: nat)
    requires p < k < |code| && Reaches(code, p, k) && 0 < code[p] <= 15 && code[k] == code[p]
    ensures CountModule(code, p, c, seen).Failed?
  {
    hide ReadU, CountSection;
    var size := ReadU(code, p + 1, |code|);
    var se := size.p + size.v;
    if code[p] as nat !in seen { RepeatRefused(code, se, CountSection(code, code[p], size.p, se, c), seen + {code[p] as nat}, k); }
  }
}
