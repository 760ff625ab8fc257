// Two-pass parsing of a module binary: a counting pass sizes the buffers, a filling pass writes them. On every
// well-formed module both passes see the same entries. The filling pass reads some bytes without a test: behind the end of
// a section they are the next bytes of the binary, and behind the binary they are not there. It writes by the capacities,
// which may be more than there is room for.
module Sections {
  import opened Leb128
  import opened Bytecode
  import opened SectionBuffers
  import Requests

  /** Parameter and result types of a function type, as bytes. */
  datatype Signature = Signature(params: seq<Byte>, results: seq<Byte>)

  /** A length-prefixed name. */
  datatype Name = Name(len: Imm, bytes: seq<Byte>)

  /** Limits of a table or memory; the maximum is written when bit 0 of the flags is set. */
  datatype Limits = Limits(flags: Byte, min: Imm, max: Imm)

  datatype Desc = DFunc(typ: Imm) | DTable(elem: Byte, limits: Limits) | DMemory(limits: Limits) | DGlobal(valueType: Byte, mut: Byte)

  /** A constant initializer: opcode and immediate bytes, or an earlier global. */
  datatype Init = Const32(op: Byte, imm: Imm) | Const64(imm: Imm) | Raw(op: Byte, bytes: seq<Byte>) | GlobalRef(imm: Imm)

  /** The offset of a segment: a constant or a global, closed by `end`. */
  datatype Offset = Offset(op: Byte, imm: Imm)

  /** A function index, or one of the expressions ref.func and ref.null. */
  datatype Item = Index(imm: Imm) | RefFunc(imm: Imm) | RefNull(typ: Byte)

  datatype Entry =
    | EType(pc: Imm, params: seq<Byte>, rc: Imm, results: seq<Byte>)
    | EImport(modName: Name, field: Name, desc: Desc)
    | EFunc(typ: Imm)
    | ETable(elem: Byte, limits: Limits)
    | EMemory(limits: Limits)
    | EGlobal(valueType: Byte, mut: Byte, init: Init)
    | EExport(name: Name, kind: Byte, idx: Imm)
    | EElem(flags: Imm, table: Imm, off: Offset, kind: Byte, num: Imm, items: seq<Item>)
    | EData(flags: Imm, mem: Imm, off: Offset, size: Imm, bytes: seq<Byte>)
    | ECode(size: Imm, num: Imm, locals: seq<Local>, body: seq<Byte>)

  /** So many locals of one type. */
  datatype Local = Local(count: Imm, typ: Byte)

  const MAX_ARITY: nat := 1000

  const MAX_LOCALS: nat := 0xFFFF

  /** The entries written so far, how many of the functions are imported, and how many bodies the code section gave. */
  datatype Written = Written(sigs: seq<Signature>, funcs: nat, imported: nat, codes: nat, imports: nat, tables: nat, globals: nat,
                             exports: nat, elems: nat, datas: nat)

  /** Where reading stands; a refusal; or an access behind the binary or behind a buffer, which nothing prevents. */
  datatype Cursor<T> = At(p: nat, v: T) | Failed | Overrun

  function Pass<T, V>(r: Cursor<T>): Cursor<V>
    requires !r.At?
  {
    if r.Failed? then Failed else Overrun
  }

  // ----- well-encoded entries -----

  function LimitsSize(l: Limits): nat { 1 + |l.min| + (if l.flags % 2 == 1 then |l.max| else 0) }

  predicate LimitsAt(code: seq<Byte>, p: nat, l: Limits)
  {
    && ByteAt(code, p, l.flags) && ImmAt(code, p + 1, l.min)
    && (l.flags % 2 == 1 ==> ImmAt(code, p + 1 + |l.min|, l.max))
  }

  function NameSize(n: Name): nat { |n.len| + |n.bytes| }

  predicate NameAt(code: seq<Byte>, p: nat, n: Name)
  {
    ImmAt(code, p, n.len) && U(n.len) == |n.bytes| && p + |n.len| + |n.bytes| <= |code|
  }

  predicate BytesAt(code: seq<Byte>, p: nat, bytes: seq<Byte>) { p + |bytes| <= |code| && code[p..p + |bytes|] == bytes }

  function DescSize(d: Desc): nat
  {
    match d
    case DFunc(t) => |t|
    case DTable(_, l) => 1 + LimitsSize(l)
    case DMemory(l) => LimitsSize(l)
    case DGlobal(_, _) => 2
  }

  predicate DescAt(code: seq<Byte>, p: nat, d: Desc)
  {
    match d
    case DFunc(t) => ByteAt(code, p, 0x00) && ImmAt(code, p + 1, t)
    case DTable(e, l) => ByteAt(code, p, 0x01) && ByteAt(code, p + 1, e) && LimitsAt(code, p + 2, l)
    case DMemory(l) => ByteAt(code, p, 0x02) && LimitsAt(code, p + 1, l)
    case DGlobal(t, m) => ByteAt(code, p, 0x03) && ByteAt(code, p + 1, t) && ByteAt(code, p + 2, m)
  }

  function InitSize(i: Init): nat
  {
    match i
    case Const32(_, imm) => |imm|
    case Const64(imm) => |imm|
    case Raw(_, bytes) => |bytes|
    case GlobalRef(imm) => |imm|
  }

  /** The initializer behind its opcode; `globals` are already defined. */
  predicate InitAt(code: seq<Byte>, p: nat, i: Init, globals: nat)
  {
    match i
    case Const32(op, imm) => (op == 0x41 || op == 0xD0 || op == 0xD2) && ByteAt(code, p, op) && ImmAt(code, p + 1, imm)
    case Const64(imm) => ByteAt(code, p, 0x42) && Legal(imm, 10) && HasBytes(code, p + 1, imm)
    case Raw(op, bytes) => ((op == 0x43 && |bytes| == 4) || (op == 0x44 && |bytes| == 8)) && ByteAt(code, p, op) && BytesAt(code, p + 1, bytes)
    case GlobalRef(imm) => ByteAt(code, p, 0x23) && ImmAt(code, p + 1, imm) && U(imm) < globals
  }

  function OffsetSize(o: Offset): nat { 1 + |o.imm| + 1 }

  predicate OffsetAt(code: seq<Byte>, p: nat, o: Offset)
  {
    (o.op == 0x41 || o.op == 0x23) && ByteAt(code, p, o.op) && ImmAt(code, p + 1, o.imm) && ByteAt(code, p + 1 + |o.imm|, 0x0B)
  }

  /** Bit 0 of an element segment's flags: no offset. Bit 1: a table index and a kind. Bit 2: expressions. */
  predicate Passive(flags: nat) { flags % 2 == 1 }

  predicate Explicit(flags: nat) { flags / 2 % 2 == 1 }

  predicate Expressions(flags: nat) { flags / 4 % 2 == 1 }

  function ElemHeadSize(e: Entry): nat
    requires e.EElem?
  {
    |e.flags| + (if Passive(U(e.flags)) then 1
                 else if Explicit(U(e.flags)) then |e.table| + OffsetSize(e.off) + 1
                 else OffsetSize(e.off))
  }

  predicate ElemHeadAt(code: seq<Byte>, p: nat, e: Entry)
    requires e.EElem?
  {
    && ImmAt(code, p, e.flags)
    && var q := p + |e.flags|;
       if Passive(U(e.flags)) then ByteAt(code, q, e.kind)
       else if Explicit(U(e.flags)) then
         ImmAt(code, q, e.table) && OffsetAt(code, q + |e.table|, e.off) && ByteAt(code, q + |e.table| + OffsetSize(e.off), e.kind)
       else OffsetAt(code, q, e.off)
  }

  function ItemSize(it: Item): nat
  {
    match it
    case Index(imm) => |imm|
    case RefFunc(imm) => 1 + |imm| + 1
    case RefNull(_) => 3
  }

  predicate ItemAt(code: seq<Byte>, p: nat, it: Item, exprs: bool)
  {
    match it
    case Index(imm) => !exprs && ImmAt(code, p, imm)
    case RefFunc(imm) => exprs && ByteAt(code, p, 0xD2) && ImmAt(code, p + 1, imm) && ByteAt(code, p + 1 + |imm|, 0x0B)
    case RefNull(t) => exprs && ByteAt(code, p, 0xD0) && ByteAt(code, p + 1, t) && ByteAt(code, p + 2, 0x0B)
  }

  function ItemsSize(its: seq<Item>): nat { if its == [] then 0 else ItemSize(its[0]) + ItemsSize(its[1..]) }

  predicate ItemsAt(code: seq<Byte>, p: nat, its: seq<Item>, exprs: bool)
    decreases |its|
  {
    its == [] || (ItemAt(code, p, its[0], exprs) && ItemsAt(code, p + ItemSize(its[0]), its[1..], exprs))
  }

  /** Flags of a data segment: 1 and 3 have no offset, 2 has a memory index. */
  predicate Inactive(flags: nat) { flags == 1 || flags == 3 }

  function DataHeadSize(e: Entry): nat
    requires e.EData?
  {
    |e.flags| + (if Inactive(U(e.flags)) then 0 else (if U(e.flags) == 2 then |e.mem| else 0) + OffsetSize(e.off))
  }

  predicate DataHeadAt(code: seq<Byte>, p: nat, e: Entry)
    requires e.EData?
  {
    && ImmAt(code, p, e.flags)
    && (!Inactive(U(e.flags)) ==>
          && (U(e.flags) == 2 ==> ImmAt(code, p + |e.flags|, e.mem))
          && OffsetAt(code, p + |e.flags| + (if U(e.flags) == 2 then |e.mem| else 0), e.off))
  }

  function LocalsSize(ls: seq<Local>): nat { if ls == [] then 0 else |ls[0].count| + 1 + LocalsSize(ls[1..]) }

  predicate LocalsAt(code: seq<Byte>, p: nat, ls: seq<Local>)
    decreases |ls|
  {
    ls == [] || (&& ImmAt(code, p, ls[0].count) && ByteAt(code, p + |ls[0].count|, ls[0].typ)
                 && LocalsAt(code, p + |ls[0].count| + 1, ls[1..]))
  }

  function LocalsSum(ls: seq<Local>): nat { if ls == [] then 0 else U(ls[0].count) + LocalsSum(ls[1..]) }

  /** Size, declarations of locals, and the instructions. */
  predicate CodeAt(code: seq<Byte>, p: nat, e: Entry)
    requires e.ECode?
  {
    var q := p + |e.size|;
    && ImmAt(code, p, e.size) && U(e.size) == |e.num| + LocalsSize(e.locals) + |e.body|
    && ImmAt(code, q, e.num) && U(e.num) == |e.locals| && LocalsAt(code, q + |e.num|, e.locals) && LocalsSum(e.locals) <= 65535
    && q + U(e.size) <= |code|
  }

  function EntrySize(e: Entry): nat
  {
    match e
    case EType(pc, ps, rc, rs) => 1 + |pc| + |ps| + |rc| + |rs|
    case EImport(m, f, d) => NameSize(m) + NameSize(f) + 1 + DescSize(d)
    case EFunc(t) => |t|
    case ETable(_, l) => 1 + LimitsSize(l)
    case EMemory(l) => LimitsSize(l)
    case EGlobal(_, _, i) => 2 + 1 + InitSize(i) + 1
    case EExport(n, _, idx) => NameSize(n) + 1 + |idx|
    case EElem(_, _, _, _, num, its) => ElemHeadSize(e) + |num| + ItemsSize(its)
    case EData(_, _, _, size, bytes) => DataHeadSize(e) + |size| + |bytes|
    case ECode(size, num, ls, body) => |size| + |num| + LocalsSize(ls) + |body|
  }

  /** A well-encoded entry at `p`, when `w` has been written. */
  predicate EntryAt(code: seq<Byte>, p: nat, e: Entry, w: Written)
  {
    match e
    case EType(pc, ps, rc, rs) =>
      && ByteAt(code, p, 0x60) && ImmAt(code, p + 1, pc) && U(pc) == |ps| <= 1000
      && BytesAt(code, p + 1 + |pc|, ps) && ImmAt(code, p + 1 + |pc| + |ps|, rc) && U(rc) == |rs| <= 1000
      && BytesAt(code, p + 1 + |pc| + |ps| + |rc|, rs)
    case EImport(m, f, d) =>
      NameAt(code, p, m) && NameAt(code, p + NameSize(m), f) && DescAt(code, p + NameSize(m) + NameSize(f), d)
    case EFunc(t) => ImmAt(code, p, t)
    case ETable(el, l) => (el == 0x70 || el == 0x6F) && ByteAt(code, p, el) && LimitsAt(code, p + 1, l)
    case EMemory(l) => LimitsAt(code, p, l)
    case EGlobal(t, m, i) =>
      && ByteAt(code, p, t) && ByteAt(code, p + 1, m) && InitAt(code, p + 2, i, w.globals)
      && ByteAt(code, p + 3 + InitSize(i), 0x0B)
    case EExport(n, k, idx) =>
      NameAt(code, p, n) && ByteAt(code, p + NameSize(n), k) && ImmAt(code, p + NameSize(n) + 1, idx)
    case EElem(flags, _, _, _, num, its) =>
      var q := p + ElemHeadSize(e);
      ElemHeadAt(code, p, e) && ImmAt(code, q, num) && U(num) == |its| && ItemsAt(code, q + |num|, its, Expressions(U(flags)))
    case EData(_, _, _, size, bytes) =>
      var q := p + DataHeadSize(e);
      DataHeadAt(code, p, e) && ImmAt(code, q, size) && U(size) == |bytes| && q + |size| + |bytes| <= |code|
    case ECode(_, _, _, _) => CodeAt(code, p, e)
  }

  function Imported(w: Written, d: Desc): Written
  {
    match d
    case DFunc(_) => w.(funcs := w.funcs + 1, imported := w.imported + 1)
    case DTable(_, _) => w.(tables := w.tables + 1)
    case DMemory(_) => w
    case DGlobal(_, _) => w.(globals := w.globals + 1)
  }

  /** What an entry adds. */
  function Effect(w: Written, e: Entry): Written
  {
    match e
    case EType(_, ps, _, rs) => w.(sigs := w.sigs + [Signature(ps, rs)])
    case EImport(_, _, d) => Imported(w.(imports := w.imports + 1), d)
    case EFunc(_) => w.(funcs := w.funcs + 1)
    case ETable(_, _) => w.(tables := w.tables + 1)
    case EMemory(_) => w
    case EGlobal(_, _, _) => w.(globals := w.globals + 1)
    case EExport(_, _, _) => w.(exports := w.exports + 1)
    case EElem(_, _, _, _, _, _) => w.(elems := w.elems + 1)
    case EData(_, _, _, _, _) => w.(datas := w.datas + 1)
    case ECode(_, _, _, _) => w.(codes := w.codes + 1)
  }

  /** What has been written fits the capacities; a body belongs to each function that is not imported. */
  predicate Fits(w: Written, c: Counts)
  {
    |w.sigs| <= c.types && w.funcs <= c.funcs && w.imported + w.codes <= c.funcs && w.imports <= c.imports && w.tables <= c.tables && w.globals <= c.globals && w.exports <= c.exports && w.elems <= c.elems && w.datas <= c.datas
  }

  // ----- reading with the section's end as limit -----

  /** A decoder reads nothing at or behind its limit. */
  function ReadU(code: seq<Byte>, p: nat, se: nat): (r: Cursor<nat>)
    requires p <= |code| && se <= |code|
    ensures r.At? && p <= r.p <= |code| && (p <= se ==> r.p <= se) && (p >= se ==> r == At(p, 0))
  {
    if p >= se then At(p, 0) else At(p + Taken(code, p, se, 5), U32At(code, p, Taken(code, p, se, 5)))
  }

  lemma ReadImm(code: seq<Byte>, p: nat, se: nat, imm: Imm)
    requires ImmAt(code, p, imm) && p + |imm| <= se <= |code|
    ensures ReadU(code, p, se) == At(p + |imm|, U(imm))
  {
    assert imm != [];
    TakenLegal(code, p, se, 5, imm);
    PayloadOfSlice(code, p, imm, |imm|);
  }

  /** An entry is written at index `i` after the capacity test. */
  function Put(i: nat, cap: nat, room: nat, r: Cursor<Written>): Cursor<Written>
  {
    if i >= cap then Failed else if i >= room then Overrun else r
  }

  function FillType(code: seq<Byte>, p: nat, se: nat, w: Written, b: Buffers): (r: Cursor<Written>)
    requires p <= |code| && se <= |code|
    ensures r.At? ==> p <= r.p <= se
  {
    if p >= se || code[p] != 0x60 then Failed
    else
      var pc := ReadU(code, p + 1, se);
      if pc.v > MAX_ARITY || pc.v > se - pc.p then Failed
      else
        var rc := ReadU(code, pc.p + pc.v, se);
        if rc.v > MAX_ARITY || rc.v > se - rc.p then Failed
        else
          var sig := Signature(code[pc.p..pc.p + pc.v], code[rc.p..rc.p + rc.v]);
          Put(|w.sigs|, b.cap.types, b.room.types, At(rc.p + rc.v, w.(sigs := w.sigs + [sig])))
  }

  /** Limits of a table or memory: flags, read without a test, minimum, and the maximum if bit 0 says so. */
  function ReadLimits(code: seq<Byte>, p: nat, se: nat): (r: Cursor<nat>)
    requires p <= |code| && se <= |code|
    ensures r.At? ==> p < r.p <= |code| && (p < se ==> r.p <= se)
    ensures if p < |code| then r.At? else r.Overrun?
  {
    if p >= |code| then Overrun
    else
      var min := ReadU(code, p + 1, se);
      if code[p] % 2 == 1 then ReadU(code, min.p, se) else min
  }

  /** The length is compared with the unsigned distance to the limit, which is huge behind it; but there the length is 0. */
  function ReadName(code: seq<Byte>, p: nat, se: nat): (r: Cursor<nat>)
    requires p <= |code| && se <= |code|
    ensures r.At? ==> p <= r.p <= |code| && (p <= se ==> r.p <= se)
    ensures !r.Overrun?
  {
    var n := ReadU(code, p, se);
    if n.p <= se && n.v > se - n.p then Failed else At(n.p + n.v, n.v)
  }

  /** An import; it is recorded last, as long as there is capacity. */
  function FillImport(code: seq<Byte>, p: nat, se: nat, w: Written, b: Buffers): (r: Cursor<Written>)
    requires p <= |code| && se <= |code|
    ensures r.At? ==> p <= r.p <= |code|
  {
    var m := ReadName(code, p, se);
    if m.Failed? then Failed
    else
      var f := ReadName(code, m.p, se);
      if f.Failed? || f.p >= se then Failed
      else
        var d := FillDesc(code, code[f.p], f.p + 1, se, w, b);
        if !d.At? || w.imports >= b.cap.imports then d
        else if w.imports >= b.room.imports then Overrun
        else At(d.p, d.v.(imports := w.imports + 1))
  }

  /** Behind the kind of an import. */
  function FillDesc(code: seq<Byte>, kind: Byte, q: nat, se: nat, w: Written, b: Buffers): (r: Cursor<Written>)
    requires q <= |code| && se <= |code|
    ensures r.At? ==> q <= r.p <= |code|
  {
    if kind == 0x00 then
      if w.funcs >= b.cap.funcs then Failed else At(ReadU(code, q, se).p, w.(funcs := w.funcs + 1, imported := w.imported + 1))
    else if kind == 0x01 then
      if q >= |code| then Overrun
      else
        var l := ReadLimits(code, q + 1, se);
        if !l.At? then Pass(l) else At(l.p, if w.tables < b.cap.tables then w.(tables := w.tables + 1) else w)
    else if kind == 0x02 then
      var l := ReadLimits(code, q, se);
      if !l.At? then Pass(l) else At(l.p, w)
    else if kind == 0x03 then
      if q + 2 > se then Failed else At(q + 2, if w.globals < b.cap.globals then w.(globals := w.globals + 1) else w)
    else At(q, w)
  }

  /** Behind `n` raw bytes; the test compares with the unsigned distance to the limit, so behind the limit it passes. */
  function ReadRaw(code: seq<Byte>, p: nat, se: nat, n: nat): (r: Cursor<nat>)
    requires p <= |code| && se <= |code|
    ensures r.At? ==> p <= r.p <= |code|
  {
    if p <= se then (if n > se - p then Failed else At(p + n, 0))
    else if p + n > |code| then Overrun
    else At(p + n, 0)
  }

  /** Behind an initializer, whose opcode is read without a test; reading a later global fails. */
  function ReadInit(code: seq<Byte>, p: nat, se: nat, globals: nat): (r: Cursor<nat>)
    requires p <= |code| && se <= |code|
    ensures r.At? ==> p <= r.p <= |code|
  {
    if p >= |code| then Overrun
    else if code[p] == 0x41 || code[p] == 0xD0 || code[p] == 0xD2 then ReadU(code, p + 1, se)
    else if code[p] == 0x42 then At(if p + 1 >= se then p + 1 else p + 1 + Taken(code, p + 1, se, 10), 0)
    else if code[p] == 0x43 then ReadRaw(code, p + 1, se, 4)
    else if code[p] == 0x44 then ReadRaw(code, p + 1, se, 8)
    else if code[p] == 0x23 then (if ReadU(code, p + 1, se).v >= globals then Failed else ReadU(code, p + 1, se))
    else Failed
  }

  function FillGlobal(code: seq<Byte>, p: nat, se: nat, w: Written, b: Buffers): (r: Cursor<Written>)
    requires p <= |code| && se <= |code|
    ensures r.At? ==> p <= r.p <= |code|
  {
    if w.globals >= b.cap.globals then Failed
    else if p + 2 > |code| then Overrun
    else
      var i := ReadInit(code, p + 2, se, w.globals);
      if !i.At? then Pass(i)
      else if i.p >= se || code[i.p] != 0x0B then Failed
      else At(i.p + 1, w.(globals := w.globals + 1))
  }

  /** Behind the offset of a segment; the opcode is read without a test. */
  function ReadOffset(code: seq<Byte>, p: nat, se: nat): (r: Cursor<nat>)
    requires p <= |code| && se <= |code|
    ensures r.At? ==> p < r.p <= se
    ensures r.Overrun? <==> p >= |code|
  {
    if p >= |code| then Overrun
    else if code[p] != 0x41 && code[p] != 0x23 then Failed
    else
      var v := ReadU(code, p + 1, se);
      if v.p >= se || code[v.p] != 0x0B then Failed else At(v.p + 1, 0)
  }

  /** Behind flags, table index, offset and kind of an element segment; the value is the flags. */
  function ReadElemHead(code: seq<Byte>, p: nat, se: nat): (r: Cursor<nat>)
    requires p <= |code| && se <= |code|
    ensures r.At? ==> p <= r.p <= |code|
  {
    var flags := ReadU(code, p, se);
    if Passive(flags.v) then (if flags.p >= |code| then Overrun else At(flags.p + 1, flags.v))
    else
      var q := if Explicit(flags.v) then ReadU(code, flags.p, se).p else flags.p;
      var o := ReadOffset(code, q, se);
      if !o.At? then Pass(o)
      else if Explicit(flags.v) then (if o.p >= se then Failed else At(o.p + 1, flags.v))
      else At(o.p, flags.v)
  }

  /** Behind `n` function indices or expressions, each stored in an array that has room for `room` of them. */
  function ReadItems(code: seq<Byte>, p: nat, se: nat, n: nat, room: nat, exprs: bool): (r: Cursor<nat>)
    requires p <= |code| && se <= |code|
    ensures r.At? ==> p <= r.p <= |code|
    decreases n
  {
    if n == 0 then At(p, 0)
    else
      var r := ReadItem(code, p, se, exprs);
      if !r.At? then Pass(r) else if room == 0 then Overrun else ReadItems(code, r.p, se, n - 1, room - 1, exprs)
  }

  /** One index or expression; the type of a null reference is read without a test. */
  function ReadItem(code: seq<Byte>, p: nat, se: nat, exprs: bool): (r: Cursor<nat>)
    requires p <= |code| && se <= |code|
    ensures r.At? ==> p <= r.p <= |code|
    ensures r.Overrun? <==> exprs && p < se && code[p] == 0xD0 && p + 1 >= |code|
  {
    if !exprs then ReadU(code, p, se)
    else if p >= se then Failed
    else if code[p] == 0xD0 && p + 1 >= |code| then Overrun
    else
      var q := if code[p] == 0xD2 then ReadU(code, p + 1, se).p else if code[p] == 0xD0 then p + 2 else p + 1;
      if q >= se || code[q] != 0x0B then Failed else At(q + 1, 0)
  }

  /** The array of the segment's items is requested when their number is known. */
  function FillElem(code: seq<Byte>, p: nat, se: nat, w: Written, b: Buffers): (r: Cursor<Written>)
    requires p <= |code| && se <= |code| && b.word > 0
    ensures r.At? ==> p <= r.p <= |code|
  {
    if p >= se then Failed
    else
      var h := ReadElemHead(code, p, se);
      if !h.At? then Pass(h)
      else
        var num := ReadU(code, h.p, se);
        var room := ItemRoom(b, num.v);
        if room < 0 then Failed
        else
          var its := ReadItems(code, num.p, se, num.v, room, Expressions(h.v));
          if !its.At? then Pass(its) else Put(w.elems, b.cap.elems, b.room.elems, At(its.p, w.(elems := w.elems + 1)))
  }

  /** Items that the array of a segment has room for, or a refusal. */
  function ItemRoom(b: Buffers, n: nat): int
    requires b.word > 0
  {
    if n == 0 then 0 else Requests.Room(b.word, b.unit, 4, n)
  }

  /** The offset's global is recorded before the capacity test. */
  function FillData(code: seq<Byte>, p: nat, se: nat, w: Written, b: Buffers): (r: Cursor<Written>)
    requires p <= |code| && se <= |code|
    ensures r.At? ==> p <= r.p <= |code|
  {
    var o := ReadDataHead(code, p, se);
    if !o.At? then Pass(o)
    else if !Inactive(o.v) && 0 < b.cap.datas && b.room.offsets <= w.datas then Overrun
    else
      var size := ReadU(code, o.p, se);
      if size.p <= se && size.v > se - size.p then Failed
      else Put(w.datas, b.cap.datas, b.room.datas, At(size.p + size.v, w.(datas := w.datas + 1)))
  }

  /** Behind the declarations of locals; `sum` have been declared. */
  function ReadLocals(code: seq<Byte>, p: nat, se: nat, n: nat, sum: nat): (r: Cursor<nat>)
    requires p <= |code| && se <= |code|
    ensures r.At? ==> p <= r.p && (p <= se ==> r.p <= se) && r.p <= |code|
    ensures !r.Overrun?
    decreases n
  {
    if n == 0 then At(p, sum)
    else
      var count := ReadU(code, p, se);
      if count.p >= se || count.v + sum > MAX_LOCALS then Failed else ReadLocals(code, count.p + 1, se, n - 1, sum + count.v)
  }

  /** A body is recorded for the next function behind those imported so far. */
  function FillCode(code: seq<Byte>, p: nat, se: nat, w: Written, b: Buffers): (r: Cursor<Written>)
    requires p <= |code| && se <= |code|
    ensures r.At? ==> p <= r.p <= |code|
  {
    var size := ReadU(code, p, se);
    if size.p <= se && size.v > se - size.p then Failed
    else
      var end := size.p + size.v;
      var n := ReadU(code, size.p, end);
      var ls := ReadLocals(code, n.p, end, n.v, 0);
      if !ls.At? then Failed else Put(w.imported + w.codes, b.cap.funcs, b.room.funcs, At(end, w.(codes := w.codes + 1)))
  }

  /** Behind the flags, memory index and offset of a data segment; the value is the flags. */
  function ReadDataHead(code: seq<Byte>, p: nat, se: nat): (r: Cursor<nat>)
    requires p <= |code| && se <= |code|
    ensures r.At? ==> p <= r.p <= |code|
    ensures !r.Overrun?
  {
    var flags := ReadU(code, p, se);
    if Inactive(flags.v) then flags
    else
      var q := if flags.v == 2 then ReadU(code, flags.p, se).p else flags.p;
      if q >= se then Failed
      else
        var o := ReadOffset(code, q, se);
        if o.Failed? then Failed else At(o.p, flags.v)
  }

  /** One entry of section `id`. */
  function FillEntry(code: seq<Byte>, id: nat, p: nat, se: nat, w: Written, b: Buffers): (r: Cursor<Written>)
    requires p <= |code| && se <= |code| && b.word > 0
    ensures r.At? ==> p <= r.p <= |code|
  {
    if id == 1 then FillType(code, p, se, w, b)
    else if id == 2 then FillImport(code, p, se, w, b)
    else if id == 3 then Put(w.funcs, b.cap.funcs, b.room.funcs, At(ReadU(code, p, se).p, w.(funcs := w.funcs + 1)))
    else if id == 4 then FillTable(code, p, se, w, b)
    else if id == 5 then
      var l := ReadLimits(code, p, se);
      if !l.At? then Pass(l) else At(l.p, w)
    else if id == 6 then FillGlobal(code, p, se, w, b)
    else if id == 7 then FillExport(code, p, se, w, b)
    else if id == 9 then FillElem(code, p, se, w, b)
    else if id == 10 then FillCode(code, p, se, w, b)
    else FillData(code, p, se, w, b)
  }

  function FillTable(code: seq<Byte>, p: nat, se: nat, w: Written, b: Buffers): (r: Cursor<Written>)
    requires p <= |code| && se <= |code|
    ensures r.At? ==> p <= r.p <= |code|
  {
    if p >= |code| then Overrun
    else if code[p] != 0x70 && code[p] != 0x6F then Failed
    else
      var l := ReadLimits(code, p + 1, se);
      if !l.At? then Pass(l) else Put(w.tables, b.cap.tables, b.room.tables, At(l.p, w.(tables := w.tables + 1)))
  }

  function FillExport(code: seq<Byte>, p: nat, se: nat, w: Written, b: Buffers): (r: Cursor<Written>)
    requires p <= |code| && se <= |code|
    ensures r.At? ==> p <= r.p <= |code|
  {
    var n := ReadName(code, p, se);
    if n.Failed? || n.p >= se then Failed
    else Put(w.exports, b.cap.exports, b.room.exports, At(ReadU(code, n.p + 1, se).p, w.(exports := w.exports + 1)))
  }

  predicate Known(id: nat) { 1 <= id <= 7 || 9 <= id <= 11 }

  function IdOf(e: Entry): nat
  {
    match e
    case EType(_, _, _, _) => 1
    case EImport(_, _, _) => 2
    case EFunc(_) => 3
    case ETable(_, _) => 4
    case EMemory(_) => 5
    case EGlobal(_, _, _) => 6
    case EExport(_, _, _) => 7
    case EElem(_, _, _, _, _, _) => 9
    case EData(_, _, _, _, _) => 11
    case ECode(_, _, _, _) => 10
  }

  lemma LimitsRead(code: seq<Byte>, p: nat, se: nat, l: Limits)
    requires LimitsAt(code, p, l) && p + LimitsSize(l) <= se <= |code|
    ensures ReadLimits(code, p, se).At? && ReadLimits(code, p, se).p == p + LimitsSize(l)
  {
    hide ImmAt, U;
    ReadImm(code, p + 1, se, l.min);
    if l.flags % 2 == 1 { ReadImm(code, p + 1 + |l.min|, se, l.max); }
  }

  lemma NameRead(code: seq<Byte>, p: nat, se: nat, n: Name)
    requires NameAt(code, p, n) && p + NameSize(n) <= se <= |code|
    ensures ReadName(code, p, se).At? && ReadName(code, p, se).p == p + NameSize(n)
  {
    hide ImmAt, U;
    ReadImm(code, p, se, n.len);
  }

  /** There is room for what lies in `n` bytes. */
  predicate Suits(b: Buffers, n: nat) { Roomy(b) && b.unit > 0 && 4 * n + b.unit <= b.word }

  lemma TypeFilled(code: seq<Byte>, p: nat, se: nat, e: Entry, w: Written, b: Buffers)
    requires e.EType? && EntryAt(code, p, e, w) && p + EntrySize(e) <= se <= |code| && |w.sigs| < b.cap.types && Roomy(b)
    ensures FillType(code, p, se, w, b) == At(p + EntrySize(e), Effect(w, e))
  {
    hide ImmAt, U, ReadU;
    ReadImm(code, p + 1, se, e.pc);
    ReadImm(code, p + 1 + |e.pc| + |e.params|, se, e.rc);
  }

  lemma ImportFilled(code: seq<Byte>, p: nat, se: nat, e: Entry, w: Written, b: Buffers)
    requires e.EImport? && EntryAt(code, p, e, w) && p + EntrySize(e) <= se <= |code| && Fits(Effect(w, e), b.cap) && Roomy(b)
    ensures FillImport(code, p, se, w, b) == At(p + EntrySize(e), Effect(w, e))
  {
    hide ImmAt, U, ReadU, ReadName, ReadLimits, NameAt, NameSize, LimitsAt, LimitsSize;
    NameRead(code, p, se, e.modName);
    NameRead(code, p + NameSize(e.modName), se, e.field);
    var q := p + NameSize(e.modName) + NameSize(e.field) + 1;
    match e.desc
    case DFunc(t) => ReadImm(code, q, se, t);
    case DTable(_, l) => LimitsRead(code, q + 1, se, l);
    case DMemory(l) => LimitsRead(code, q, se, l);
    case DGlobal(_, _) =>
  }

  lemma InitRead(code: seq<Byte>, p: nat, se: nat, i: Init, globals: nat)
    requires InitAt(code, p, i, globals) && p + 1 + InitSize(i) <= se <= |code|
    ensures ReadInit(code, p, se, globals).At? && ReadInit(code, p, se, globals).p == p + 1 + InitSize(i)
  {
    hide ImmAt, U, ReadU;
    match i
    case Const32(_, imm) => ReadImm(code, p + 1, se, imm);
    case Const64(imm) => TakenLegal(code, p + 1, se, 10, imm);
    case GlobalRef(imm) => ReadImm(code, p + 1, se, imm);
    case Raw(_, _) =>
  }

  lemma OffsetRead(code: seq<Byte>, p: nat, se: nat, o: Offset)
    requires OffsetAt(code, p, o) && p + OffsetSize(o) <= se <= |code|
    ensures ReadOffset(code, p, se) == At(p + OffsetSize(o), 0)
  {
    hide ImmAt, U, ReadU;
    ReadImm(code, p + 1, se, o.imm);
  }

  lemma ItemRead(code: seq<Byte>, p: nat, se: nat, it: Item, exprs: bool)
    requires ItemAt(code, p, it, exprs) && p + ItemSize(it) <= se <= |code|
    ensures ReadItem(code, p, se, exprs).At? && ReadItem(code, p, se, exprs).p == p + ItemSize(it)
  {
    hide ImmAt, U, ReadU;
    match it
    case Index(imm) => ReadImm(code, p, se, imm);
    case RefFunc(imm) => ReadImm(code, p + 1, se, imm);
    case RefNull(_) =>
  }

  lemma {:induction false} ItemsRead(code: seq<Byte>, p: nat, se: nat, its: seq<Item>, room: nat, exprs: bool)
    requires ItemsAt(code, p, its, exprs) && p + ItemsSize(its) <= se <= |code|
    requires |its| <= room
    ensures ReadItems(code, p, se, |its|, room, exprs) == At(p + ItemsSize(its), 0)
    decreases |its|
  {
    hide ItemAt, ItemSize, ReadItem;
    if its != [] {
      ItemRead(code, p, se, its[0], exprs);
      ItemsRead(code, p + ItemSize(its[0]), se, its[1..], room - 1, exprs);
    }
  }

  lemma ElemHeadRead(code: seq<Byte>, p: nat, se: nat, e: Entry)
    requires e.EElem? && ElemHeadAt(code, p, e) && p + ElemHeadSize(e) <= se <= |code|
    ensures ReadElemHead(code, p, se) == At(p + ElemHeadSize(e), U(e.flags))
  {
    hide ImmAt, U, ReadU, ReadOffset, OffsetAt, OffsetSize, Explicit, Passive;
    ReadImm(code, p, se, e.flags);
    var q := p + |e.flags|;
    if !Passive(U(e.flags)) {
      if Explicit(U(e.flags)) {
        ReadImm(code, q, se, e.table);
        OffsetRead(code, q + |e.table|, se, e.off);
      } else {
        OffsetRead(code, q, se, e.off);
      }
    }
  }

  lemma {:induction false} ItemsCount(code: seq<Byte>, p: nat, its: seq<Item>, exprs: bool)
    requires ItemsAt(code, p, its, exprs)
    ensures |its| <= ItemsSize(its)
    decreases |its|
  {
    if its != [] {
      if its[0].Index? { NotEmpty(code, p, its[0].imm); }
      ItemsCount(code, p + ItemSize(its[0]), its[1..], exprs);
    }
  }

  /** The array of the items of a segment that lies in `n` bytes. */
  lemma ItemsRoom(b: Buffers, k: nat, n: nat)
    requires Suits(b, n) && k <= n
    ensures ItemRoom(b, k) == k
  {
    if k > 0 { OffsetsRoomy(k, b.word, b.unit, n, 4); }
  }

  lemma ElemFilled(code: seq<Byte>, p: nat, se: nat, e: Entry, w: Written, b: Buffers)
    requires e.EElem? && EntryAt(code, p, e, w) && p + EntrySize(e) <= se <= |code| && w.elems < b.cap.elems && Suits(b, |code|)
    ensures FillElem(code, p, se, w, b) == At(p + EntrySize(e), Effect(w, e))
  {
    hide ImmAt, U, ReadU, ReadElemHead, ElemHeadAt, ElemHeadSize, ReadItems, ItemsAt, ItemsSize, ItemRoom, Expressions;
    ElemHeadRead(code, p, se, e);
    NotEmpty(code, p + ElemHeadSize(e), e.num);
    ReadImm(code, p + ElemHeadSize(e), se, e.num);
    var q := p + ElemHeadSize(e) + |e.num|;
    ItemsCount(code, q, e.items, Expressions(U(e.flags)));
    ItemsRoom(b, |e.items|, |code|);
    ItemsRead(code, q, se, e.items, ItemRoom(b, |e.items|), Expressions(U(e.flags)));
  }

  lemma NotEmpty(code: seq<Byte>, p: nat, imm: Imm)
    requires ImmAt(code, p, imm)
    ensures |imm| > 0
  {
  }

  lemma DataHeadRead(code: seq<Byte>, p: nat, se: nat, e: Entry)
    requires e.EData? && DataHeadAt(code, p, e) && p + DataHeadSize(e) <= se <= |code|
    ensures ReadDataHead(code, p, se) == At(p + DataHeadSize(e), U(e.flags))
  {
    hide ImmAt, U, ReadU, ReadOffset, OffsetAt;
    ReadImm(code, p, se, e.flags);
    if !Inactive(U(e.flags)) {
      var q := p + |e.flags|;
      if U(e.flags) == 2 {
        ReadImm(code, q, se, e.mem);
        OffsetRead(code, q + |e.mem|, se, e.off);
      } else {
        OffsetRead(code, q, se, e.off);
      }
    }
  }

  lemma DataFilled(code: seq<Byte>, p: nat, se: nat, e: Entry, w: Written, b: Buffers)
    requires e.EData? && EntryAt(code, p, e, w) && p + EntrySize(e) <= se <= |code| && w.datas < b.cap.datas && Roomy(b)
    ensures FillData(code, p, se, w, b) == At(p + EntrySize(e), Effect(w, e))
  {
    hide ImmAt, U, ReadU, ReadDataHead, DataHeadAt, DataHeadSize;
    DataHeadRead(code, p, se, e);
    ReadImm(code, p + DataHeadSize(e), se, e.size);
  }

  lemma {:induction false} LocalsRead(code: seq<Byte>, p: nat, se: nat, ls: seq<Local>, sum: nat)
    requires LocalsAt(code, p, ls) && p + LocalsSize(ls) <= se <= |code| && sum + LocalsSum(ls) <= MAX_LOCALS
    ensures ReadLocals(code, p, se, |ls|, sum) == At(p + LocalsSize(ls), sum + LocalsSum(ls))
    decreases |ls|
  {
    hide ImmAt, U, ReadU;
    if ls != [] {
      ReadImm(code, p, se, ls[0].count);
      LocalsRead(code, p + |ls[0].count| + 1, se, ls[1..], sum + U(ls[0].count));
    }
  }

  lemma CodeFilled(code: seq<Byte>, p: nat, se: nat, e: Entry, w: Written, b: Buffers)
    requires e.ECode? && CodeAt(code, p, e) && p + EntrySize(e) <= se <= |code| && Fits(Effect(w, e), b.cap) && Roomy(b)
    ensures FillCode(code, p, se, w, b) == At(p + EntrySize(e), Effect(w, e))
  {
    hide ImmAt, U, ReadU, LocalsAt, LocalsSize, LocalsSum, ReadLocals;
    NotEmpty(code, p + |e.size|, e.num);
    ReadImm(code, p, se, e.size);
    var q := p + |e.size|;
    ReadImm(code, q, q + U(e.size), e.num);
    LocalsRead(code, q + |e.num|, q + U(e.size), e.locals, 0);
  }

  /** A well-encoded entry for which there is room is consumed exactly and written. */
  lemma EntryFilled(code: seq<Byte>, p: nat, se: nat, e: Entry, w: Written, b: Buffers)
    requires EntryAt(code, p, e, w) && p + EntrySize(e) <= se <= |code| && Fits(Effect(w, e), b.cap) && Suits(b, |code|)
    ensures FillEntry(code, IdOf(e), p, se, w, b) == At(p + EntrySize(e), Effect(w, e))
  {
    hide ImmAt, U, ReadU, ReadName, ReadLimits, ReadInit, NameAt, NameSize, LimitsAt, LimitsSize, InitAt, InitSize, FillType, FillImport, DescAt,
         FillElem, FillData, FillCode, CodeAt, ElemHeadAt, ElemHeadSize, DataHeadAt, DataHeadSize, ItemsAt, ItemsSize;
    match e
    case EType(_, _, _, _) => TypeFilled(code, p, se, e, w, b);
    case EImport(_, _, _) => ImportFilled(code, p, se, e, w, b);
    case EFunc(t) => ReadImm(code, p, se, t);
    case ETable(_, l) => LimitsRead(code, p + 1, se, l);
    case EMemory(l) => LimitsRead(code, p, se, l);
    case EGlobal(_, _, i) => InitRead(code, p + 2, se, i, w.globals);
    case EExport(n, _, idx) =>
      NameRead(code, p, se, n);
      ReadImm(code, p + NameSize(n) + 1, se, idx);
    case EElem(_, _, _, _, _, _) => ElemFilled(code, p, se, e, w, b);
    case EData(_, _, _, _, _) => DataFilled(code, p, se, e, w, b);
    case ECode(_, _, _, _) => CodeFilled(code, p, se, e, w, b);
  }

  // ----- sections -----

  function EntriesSize(es: seq<Entry>): nat
  {
    if es == [] then 0 else EntrySize(es[0]) + EntriesSize(es[1..])
  }

  predicate EntriesAt(code: seq<Byte>, p: nat, es: seq<Entry>, w: Written)
    decreases |es|
  {
    es == [] || (EntryAt(code, p, es[0], w) && EntriesAt(code, p + EntrySize(es[0]), es[1..], Effect(w, es[0])))
  }

  function Effects(w: Written, es: seq<Entry>): Written
    decreases |es|
  {
    if es == [] then w else Effects(Effect(w, es[0]), es[1..])
  }

  /** A section: its declared size and number of entries; or one the passes skip. */
  datatype Section = Section(id: Byte, size: Imm, count: Imm, entries: seq<Entry>) | Skipped(id: Byte, size: Imm)

  predicate SectionAt(code: seq<Byte>, p: nat, s: Section, w: Written)
  {
    && ByteAt(code, p, s.id) && ImmAt(code, p + 1, s.size) && p + 1 + |s.size| + U(s.size) <= |code|
    && match s
       case Section(id, size, count, es) =>
         var q := p + 1 + |size|;
         && Known(id) && (forall i :: 0 <= i < |es| ==> IdOf(es[i]) == id)
         && ImmAt(code, q, count) && U(count) == |es| && U(size) == |count| + EntriesSize(es)
         && EntriesAt(code, q + |count|, es, w)
       case Skipped(id, _) => !Known(id)
  }

  function SectionSize(s: Section): nat { 1 + |s.size| + U(s.size) }

  function SectionEffect(w: Written, s: Section): Written { if s.Section? then Effects(w, s.entries) else w }

  /** Sections up to the end of the binary, each non-custom one at most once. */
  predicate ModuleAt(code: seq<Byte>, p: nat, ss: seq<Section>, w: Written, seen: set<nat>)
    decreases |ss|
  {
    if ss == [] then p == |code|
    else
      var s := ss[0];
      && SectionAt(code, p, s, w) && (0 < s.id <= 15 ==> s.id as nat !in seen)
      && ModuleAt(code, p + SectionSize(s), ss[1..], SectionEffect(w, s), seen + {s.id as nat})
  }

  function Total(w: Written, ss: seq<Section>): Written
    decreases |ss|
  {
    if ss == [] then w else Total(SectionEffect(w, ss[0]), ss[1..])
  }

  const NOTHING: Written := Written([], 0, 0, 0, 0, 0, 0, 0, 0, 0)

  function Tally(w: Written): Counts { Counts(|w.sigs|, w.funcs, w.imports, w.tables, w.globals, w.exports, w.elems, w.datas) }

  // ----- the filling pass -----

  function FillEntries(code: seq<Byte>, id: nat, p: nat, se: nat, n: nat, w: Written, b: Buffers): (r: Cursor<Written>)
    requires p <= |code| && se <= |code| && b.word > 0
    ensures r.At? ==> r.p <= |code|
    decreases n
  {
    if n == 0 then At(p, w)
    else
      var r := FillEntry(code, id, p, se, w, b);
      if !r.At? then Pass(r) else FillEntries(code, id, r.p, se, n - 1, r.v, b)
  }

  /** One section; whatever was read of it, the next one starts where its size says. Bodies are numbered from 0. */
  function FillSection(code: seq<Byte>, p: nat, w: Written, b: Buffers): (r: Cursor<Written>)
    requires p < |code| && b.word > 0
    ensures r.At? ==> p < r.p <= |code|
  {
    var size := ReadU(code, p + 1, |code|);
    if size.v > |code| - size.p then Failed
    else
      var se := size.p + size.v;
      if !Known(code[p]) then At(se, w)
      else
        var n := ReadU(code, size.p, se);
        var r := FillEntries(code, code[p], n.p, se, n.v, Started(w, code[p]), b);
        if !r.At? then Pass(r) else At(se, r.v)
  }

  function Started(w: Written, id: nat): Written { if id == 10 then w.(codes := 0) else w }

  function FillModule(code: seq<Byte>, p: nat, w: Written, b: Buffers): Cursor<Written>
    requires p <= |code| && b.word > 0
    decreases |code| - p
  {
    if p == |code| then At(p, w)
    else
      var r := FillSection(code, p, w, b);
      if !r.At? then Pass(r) else FillModule(code, r.p, r.v, b)
  }

  // ----- the counting pass -----

  /** Walks over import entries as long as they can be read. */
  function CountImports(code: seq<Byte>, p: nat, se: nat, n: nat, c: Counts): Counts
    requires p <= se <= |code|
    decreases n
  {
    if n == 0 || p >= se then c
    else
      var m := ReadName(code, p, se);
      if m.Failed? then c
      else
        var f := ReadName(code, m.p, se);
        if f.Failed? || f.p >= se then c
        else
          var kind, q := code[f.p], f.p + 1;
          if kind == 0x00 then CountImports(code, ReadU(code, q, se).p, se, n - 1, c.(funcs := c.funcs + 1))
          else if kind == 0x01 then
            if q >= se || q + 1 >= se then c
            else CountImports(code, ReadLimits(code, q + 1, se).p, se, n - 1, c.(tables := c.tables + 1))
          else if kind == 0x02 then
            if q >= se then c else CountImports(code, ReadLimits(code, q, se).p, se, n - 1, c)
          else if kind == 0x03 then
            if q + 2 > se then c else CountImports(code, q + 2, se, n - 1, c.(globals := c.globals + 1))
          else c
  }

  function CountSection(code: seq<Byte>, id: Byte, p: nat, se: nat, c: Counts): Counts
    requires p <= se <= |code|
  {
    var n := ReadU(code, p, se);
    if id == 1 then c.(types := n.v)
    else if id == 2 then CountImports(code, n.p, se, n.v, c.(imports := n.v))
    else if id == 3 then c.(funcs := c.funcs + n.v)
    else if id == 4 then c.(tables := c.tables + n.v)
    else if id == 6 then c.(globals := c.globals + n.v)
    else if id == 7 then c.(exports := n.v)
    else if id == 9 then c.(elems := n.v)
    else if id == 11 then c.(datas := n.v)
    else c
  }

  function CountModule(code: seq<Byte>, p: nat, c: Counts, seen: set<nat>): Cursor<Counts>
    requires p <= |code|
    decreases |code| - p
  {
    if p == |code| || p + 1 == |code| then At(p, c)
    else
      var size := ReadU(code, p + 1, |code|);
      if size.v > |code| - size.p then At(p, c)
      else if 0 < code[p] <= 15 && code[p] as nat in seen then Failed
      else CountModule(code, size.p + size.v, CountSection(code, code[p], size.p, size.p + size.v, c), seen + {code[p] as nat})
  }

  // ----- both passes -----

  /** Writing only adds. */
  predicate Grows(w: Written, w': Written)
  {
    |w.sigs| <= |w'.sigs| && w.funcs <= w'.funcs && w.imported <= w'.imported && w.codes <= w'.codes && w.imports <= w'.imports && w.tables <= w'.tables && w.globals <= w'.globals && w.exports <= w'.exports
    && w.elems <= w'.elems && w.datas <= w'.datas
  }

  lemma {:induction false} EffectsGrow(w: Written, es: seq<Entry>)
    ensures Grows(w, Effects(w, es))
    decreases |es|
  {
    if es != [] { EffectsGrow(Effect(w, es[0]), es[1..]); }
  }

  /** A section of well-encoded entries that fit is written completely. */
  lemma {:induction false} EntriesFilled(code: seq<Byte>, id: nat, p: nat, se: nat, es: seq<Entry>, w: Written, b: Buffers)
    requires EntriesAt(code, p, es, w) && p + EntriesSize(es) <= se <= |code| && (forall i :: 0 <= i < |es| ==> IdOf(es[i]) == id)
    requires Fits(Effects(w, es), b.cap) && Suits(b, |code|)
    ensures FillEntries(code, id, p, se, |es|, w, b) == At(p + EntriesSize(es), Effects(w, es))
    decreases |es|
  {
    hide FillEntry, EntryAt, EntrySize, Effect, IdOf;
    if es != [] {
      EffectsGrow(Effect(w, es[0]), es[1..]);
      EntryFilled(code, p, se, es[0], w, b);
      EntriesFilled(code, id, p + EntrySize(es[0]), se, es[1..], Effect(w, es[0]), b);
    }
  }

  /** Functions, tables and globals among imports. */
  function AddImported(c: Counts, w: Written, w': Written): Counts
    requires Grows(w, w')
  {
    c.(funcs := c.funcs + (w'.funcs - w.funcs), tables := c.tables + (w'.tables - w.tables), globals := c.globals + (w'.globals - w.globals))
  }

  /** One import counted. */
  lemma ImportCounted(code: seq<Byte>, p: nat, se: nat, n: nat, e: Entry, w: Written, c: Counts)
    requires e.EImport? && EntryAt(code, p, e, w) && p + EntrySize(e) <= se <= |code| && n > 0
    ensures Grows(w, Effect(w, e))
    ensures CountImports(code, p, se, n, c) == CountImports(code, p + EntrySize(e), se, n - 1, AddImported(c, w, Effect(w, e)))
  {
    hide ImmAt, U, ReadU, ReadName, ReadLimits, NameAt, NameSize, LimitsAt;
    NameRead(code, p, se, e.modName);
    NameRead(code, p + NameSize(e.modName), se, e.field);
    var q := p + NameSize(e.modName) + NameSize(e.field) + 1;
    match e.desc
    case DFunc(t) => ReadImm(code, q, se, t);
    case DTable(_, l) => LimitsRead(code, q + 1, se, l);
    case DMemory(l) => LimitsRead(code, q, se, l);
    case DGlobal(_, _) =>
  }

  lemma {:induction false} ImportsCounted(code: seq<Byte>, p: nat, se: nat, es: seq<Entry>, w: Written, c: Counts)
    requires EntriesAt(code, p, es, w) && p + EntriesSize(es) <= se <= |code| && forall i :: 0 <= i < |es| ==> es[i].EImport?
    ensures Grows(w, Effects(w, es)) && CountImports(code, p, se, |es|, c) == AddImported(c, w, Effects(w, es))
    ensures Effects(w, es).imports == w.imports + |es| && SameOthers(w, Effects(w, es))
    decreases |es|
  {
    hide EntryAt, EntrySize, CountImports, Effect;
    EffectsGrow(w, es);
    if es == [] {
      NoneCounted(code, p, se, c);
    } else {
      ImportCounted(code, p, se, |es|, es[0], w, c);
      ImportedOnly(w, es[0]);
      ImportsCounted(code, p + EntrySize(es[0]), se, es[1..], Effect(w, es[0]), AddImported(c, w, Effect(w, es[0])));
    }
  }

  /** What imports do not write. */
  predicate SameOthers(w: Written, w': Written)
  {
    w'.sigs == w.sigs && w'.codes == w.codes && w'.exports == w.exports && w'.elems == w.elems && w'.datas == w.datas
  }

  lemma NoneCounted(code: seq<Byte>, p: nat, se: nat, c: Counts)
    requires p <= se <= |code|
    ensures CountImports(code, p, se, 0, c) == c
  {
  }

  lemma ImportedOnly(w: Written, e: Entry)
    requires e.EImport?
    ensures var w' := Effect(w, e); w'.imports == w.imports + 1 && SameOthers(w, w')
  {
  }

  /** Sections other than imports add their number of entries to one count. */
  lemma {:induction false} PlainCounted(id: nat, es: seq<Entry>, w: Written)
    requires Known(id) && id != 2 && forall i :: 0 <= i < |es| ==> IdOf(es[i]) == id
    ensures var w', n := Effects(w, es), |es|;
            (id != 10 ==> w'.codes == w.codes) && Tally(w') ==
              if id == 1 then Tally(w).(types := |w.sigs| + n)
              else if id == 3 then Tally(w).(funcs := w.funcs + n)
              else if id == 4 then Tally(w).(tables := w.tables + n)
              else if id == 5 || id == 10 then Tally(w)
              else if id == 6 then Tally(w).(globals := w.globals + n)
              else if id == 7 then Tally(w).(exports := w.exports + n)
              else if id == 9 then Tally(w).(elems := w.elems + n)
              else Tally(w).(datas := w.datas + n)
    decreases |es|
  {
    if es != [] { PlainCounted(id, es[1..], Effect(w, es[0])); }
  }

  /** Counts that a section sets rather than adds to are still zero when it comes. */
  predicate Unset(w: Written, seen: set<nat>)
  {
    && (1 !in seen ==> w.sigs == []) && (2 !in seen ==> w.imports == 0) && (7 !in seen ==> w.exports == 0)
    && (9 !in seen ==> w.elems == 0) && (11 !in seen ==> w.datas == 0) && (10 !in seen ==> w.codes == 0)
  }

  lemma SectionCounted(code: seq<Byte>, p: nat, s: Section, w: Written, seen: set<nat>)
    requires SectionAt(code, p, s, w) && Unset(w, seen) && (0 < s.id <= 15 ==> s.id as nat !in seen)
    ensures p + SectionSize(s) <= |code| && ReadU(code, p + 1, |code|) == At(p + 1 + |s.size|, U(s.size))
    ensures CountSection(code, s.id, p + 1 + |s.size|, p + SectionSize(s), Tally(w)) == Tally(SectionEffect(w, s))
    ensures Unset(SectionEffect(w, s), seen + {s.id as nat})
  {
    hide ImmAt, U, ReadU, EntriesAt, EntriesSize, Effects, CountImports, IdOf;
    ReadImm(code, p + 1, |code|, s.size);
    if s.Section? {
      var q, se := p + 1 + |s.size|, p + SectionSize(s);
      ReadImm(code, q, se, s.count);
      if s.id == 2 {
        AreImports(s.entries);
        ImportsCounted(code, q + |s.count|, se, s.entries, w, Tally(w).(imports := |s.entries|));
      } else {
        PlainCounted(s.id, s.entries, w);
      }
      TallyKeeps(w, Effects(w, s.entries), s.id);
    }
  }

  lemma AreImports(es: seq<Entry>)
    requires forall i :: 0 <= i < |es| ==> IdOf(es[i]) == 2
    ensures forall i :: 0 <= i < |es| ==> es[i].EImport?
  {
    forall i | 0 <= i < |es| ensures es[i].EImport? { assert IdOf(es[i]) == 2; }
  }

  lemma TallyKeeps(w: Written, w': Written, id: nat)
    ensures (Tally(w').types == Tally(w).types == 0 ==> w'.sigs == []) && (w.sigs == [] ==> Tally(w).types == 0)
  {
  }

  lemma SectionFilled(code: seq<Byte>, p: nat, s: Section, w: Written, b: Buffers)
    requires SectionAt(code, p, s, w) && Fits(SectionEffect(w, s), b.cap) && Suits(b, |code|) && (s.id == 10 ==> w.codes == 0)
    ensures p < |code| && p + SectionSize(s) <= |code|
    ensures FillModule(code, p, w, b) == FillModule(code, p + SectionSize(s), SectionEffect(w, s), b)
  {
    hide ImmAt, U, ReadU, EntriesAt, EntriesSize, Effects, FillEntries, IdOf;
    ReadImm(code, p + 1, |code|, s.size);
    if s.Section? {
      var q, se := p + 1 + |s.size|, p + SectionSize(s);
      ReadImm(code, q, se, s.count);
      EntriesFilled(code, s.id, q + |s.count|, se, s.entries, w, b);
    }
  }

  lemma {:induction false} TotalGrows(w: Written, ss: seq<Section>)
    ensures Grows(w, Total(w, ss))
    decreases |ss|
  {
    hide Effects;
    if ss != [] {
      if ss[0].Section? { EffectsGrow(w, ss[0].entries); }
      TotalGrows(SectionEffect(w, ss[0]), ss[1..]);
    }
  }

  lemma {:induction false} ModuleCounted(code: seq<Byte>, p: nat, ss: seq<Section>, w: Written, seen: set<nat>)
    requires ModuleAt(code, p, ss, w, seen) && Unset(w, seen) && p <= |code|
    ensures CountModule(code, p, Tally(w), seen) == At(|code|, Tally(Total(w, ss)))
    decreases |ss|
  {
    hide SectionAt, SectionSize, SectionEffect, CountSection, Tally, Unset, ReadU;
    if ss != [] {
      var s := ss[0];
      SectionInside(code, p, s, w);
      SectionCounted(code, p, s, w, seen);
      ModuleCounted(code, p + SectionSize(s), ss[1..], SectionEffect(w, s), seen + {s.id as nat});
    }
  }

  lemma SectionInside(code: seq<Byte>, p: nat, s: Section, w: Written)
    requires SectionAt(code, p, s, w)
    ensures p + 1 < |code| && code[p] == s.id && SectionSize(s) == 1 + |s.size| + U(s.size) && p + SectionSize(s) <= |code|
  {
    hide U, EntriesAt;
    assert s.size != [];
    ByteOf(code, p + 1, s.size, 0);
  }

  lemma {:induction false} ModuleFilled(code: seq<Byte>, p: nat, ss: seq<Section>, w: Written, seen: set<nat>, b: Buffers)
    requires ModuleAt(code, p, ss, w, seen) && Unset(w, seen) && Fits(Total(w, ss), b.cap) && Suits(b, |code|) && p <= |code|
    ensures FillModule(code, p, w, b) == At(|code|, Total(w, ss))
    decreases |ss|
  {
    hide SectionAt, SectionSize, SectionEffect, FillModule, CountSection, ReadU;
    if ss != [] {
      SectionCounted(code, p, ss[0], w, seen);
      TotalGrows(SectionEffect(w, ss[0]), ss[1..]);
      SectionFilled(code, p, ss[0], w, b);
      ModuleFilled(code, p + SectionSize(ss[0]), ss[1..], SectionEffect(w, ss[0]), seen + {ss[0].id as nat}, b);
    } else {
      FilledUp(code, w, b);
    }
  }

  lemma FilledUp(code: seq<Byte>, w: Written, b: Buffers)
    requires b.word > 0
    ensures FillModule(code, |code|, w, b) == At(|code|, w)
  {
  }

  // ----- no more entries than bytes -----

  lemma EntryBounded(code: seq<Byte>, p: nat, e: Entry, w: Written, n: nat)
    requires EntryAt(code, p, e, w) && AtMost(Tally(w), n)
    ensures EntrySize(e) >= 1 && AtMost(Tally(Effect(w, e)), n + EntrySize(e))
  {
    hide U, NameAt, NameSize, LimitsAt, InitAt, InitSize, DescAt, DescSize, LocalsAt, LocalsSize, LocalsSum, ItemsAt, ItemsSize,
         OffsetAt, OffsetSize;
    match e
    case EFunc(t) => NotEmpty(code, p, t);
    case EElem(flags, _, _, _, _, _) => NotEmpty(code, p, flags);
    case EData(flags, _, _, _, _) => NotEmpty(code, p, flags);
    case ECode(size, _, _, _) => NotEmpty(code, p, size);
    case _ =>
  }

  lemma {:induction false} EntriesBounded(code: seq<Byte>, p: nat, es: seq<Entry>, w: Written, n: nat)
    requires EntriesAt(code, p, es, w) && AtMost(Tally(w), n)
    ensures AtMost(Tally(Effects(w, es)), n + EntriesSize(es))
    decreases |es|
  {
    hide EntryAt, EntrySize, Effect, Tally, AtMost;
    if es != [] {
      EntryBounded(code, p, es[0], w, n);
      EntriesBounded(code, p + EntrySize(es[0]), es[1..], Effect(w, es[0]), n + EntrySize(es[0]));
    }
  }

  lemma SectionBounded(code: seq<Byte>, p: nat, s: Section, w: Written, n: nat)
    requires SectionAt(code, p, s, w) && AtMost(Tally(w), n)
    ensures AtMost(Tally(SectionEffect(w, s)), n + SectionSize(s))
  {
    hide ImmAt, U, EntriesAt, EntriesSize, Effects, IdOf, Tally;
    if s.Section? { EntriesBounded(code, p + 1 + |s.size| + |s.count|, s.entries, w, n); }
  }

  /** A well-formed module has no more entries of any kind than bytes. */
  lemma {:induction false} ModuleBounded(code: seq<Byte>, p: nat, ss: seq<Section>, w: Written, seen: set<nat>)
    requires ModuleAt(code, p, ss, w, seen) && AtMost(Tally(w), p)
    ensures AtMost(Tally(Total(w, ss)), |code|)
    decreases |ss|
  {
    hide SectionAt, SectionSize, SectionEffect, Tally, AtMost;
    if ss != [] {
      SectionBounded(code, p, ss[0], w, p);
      ModuleBounded(code, p + SectionSize(ss[0]), ss[1..], SectionEffect(w, ss[0]), seen + {ss[0].id as nat});
    }
  }

  // ----- the passes agree -----

  /** ParseSections: counts, allocates, fills. */
  function ParseSections(code: seq<Byte>, z: Sizes, word: nat, unit: nat): Cursor<Written>
    requires word > 0 && Positives(z)
  {
    var c := CountModule(code, 0, NONE, {});
    if !c.At? then Failed
    else
      match Allocate(c.v, z, word, unit)
      case NoMemory => Failed
      case Spilled => Overrun
      case Ready(b) => FillModule(code, 0, NOTHING, b)
  }

  /** The module is so small that the size of no buffer wraps. */
  predicate Addressable(code: seq<Byte>, z: Sizes, word: nat, unit: nat)
  {
    Positives(z) && 0 < unit <= word && |code| < 0x1_0000_0000 && |code| * Largest(z) + unit <= word
  }

  /** On every well-formed module with no more bodies than functions, so small that no size wraps, the counting pass finds
      exactly the entries the filling pass writes: no capacity test fires, nothing is read behind the binary or written
      behind a buffer, every buffer is full at the end, and the type buffer reads back the encoded signatures. */
  lemma PassesAgree(code: seq<Byte>, ss: seq<Section>, z: Sizes, word: nat, unit: nat)
    requires ModuleAt(code, 0, ss, NOTHING, {}) && Addressable(code, z, word, unit)
    requires var w := Total(NOTHING, ss); w.imported + w.codes <= w.funcs
    ensures word > 0 && CountModule(code, 0, NONE, {}) == At(|code|, Tally(Total(NOTHING, ss)))
    ensures ParseSections(code, z, word, unit) == At(|code|, Total(NOTHING, ss))
  {
    hide ModuleAt, CountModule, FillModule, Total, Allocate, Largest, Roomy;
    Quadruple(|code|, Largest(z));
    ModuleCounted(code, 0, ss, NOTHING, {});
    ModuleBounded(code, 0, ss, NOTHING, {});
    SmallIsRoomy(Tally(Total(NOTHING, ss)), z, word, unit, |code|);
    ModuleFilled(code, 0, ss, NOTHING, {}, Allocate(Tally(Total(NOTHING, ss)), z, word, unit).b);
  }

  // ----- signatures packed into words -----

  function TypeByte(types: seq<Byte>, k: nat): int { if k < |types| then types[k] as int else 0 }

  /** Four type bytes, the missing ones zero, as one word. */
  function WordAt(types: seq<Byte>, i: nat): int
  {
    TypeByte(types, 4 * i) + 0x100 * TypeByte(types, 4 * i + 1) + 0x1_0000 * TypeByte(types, 4 * i + 2)
    + 0x100_0000 * TypeByte(types, 4 * i + 3)
  }

  /** Compares counts, then words. */
  method SignatureEquals(x: Signature, y: Signature) returns (equal: bool)
    ensures equal <==> x == y
  {
    if |x.params| != |y.params| || |x.results| != |y.results| { return false; }
    var xs, ys := x.params + x.results, y.params + y.results;
    var words := (|xs| + 3) / 4;
    for i := 0 to words
      invariant forall j :: 0 <= j < 4 * i && j < |xs| ==> xs[j] == ys[j]
    {
      if WordAt(xs, i) != WordAt(ys, i) {
        assert x == y ==> xs == ys;
        return false;
      }
      SameWord(xs, ys, i);
    }
    assert xs == ys;
    assert x.params == xs[..|x.params|] && y.params == ys[..|x.params|];
    assert x.results == xs[|x.params|..] && y.results == ys[|x.params|..];
    equal := true;
  }

  lemma SameWord(xs: seq<Byte>, ys: seq<Byte>, i: nat)
    requires |xs| == |ys| && WordAt(xs, i) == WordAt(ys, i)
    ensures forall j :: 4 * i <= j < 4 * i + 4 && j < |xs| ==> xs[j] == ys[j]
  {
    Digits(TypeByte(xs, 4 * i), TypeByte(xs, 4 * i + 1), TypeByte(xs, 4 * i + 2), TypeByte(xs, 4 * i + 3),
           TypeByte(ys, 4 * i), TypeByte(ys, 4 * i + 1), TypeByte(ys, 4 * i + 2), TypeByte(ys, 4 * i + 3));
    forall j | 4 * i <= j < 4 * i + 4 && j < |xs| ensures xs[j] == ys[j] {
      assert TypeByte(xs, j) == TypeByte(ys, j);
    }
  }

  lemma Digits(a: int, b: int, c: int, d: int, a': int, b': int, c': int, d': int)
    requires 0 <= a < 256 && 0 <= b < 256 && 0 <= c < 256 && 0 <= a' < 256 && 0 <= b' < 256 && 0 <= c' < 256
    requires a + 0x100 * b + 0x1_0000 * c + 0x100_0000 * d == a' + 0x100 * b' + 0x1_0000 * c' + 0x100_0000 * d'
    ensures a == a' && b == b' && c == c' && d == d'
  {
    LowDigit(a, b + 0x100 * c + 0x1_0000 * d, a', b' + 0x100 * c' + 0x1_0000 * d');
    LowDigit(b, c + 0x100 * d, b', c' + 0x100 * d');
    LowDigit(c, d, c', d');
  }

  lemma LowDigit(a: int, r: int, a': int, r': int)
    requires 0 <= a < 256 && 0 <= a' < 256 && a + 0x100 * r == a' + 0x100 * r'
    ensures a == a' && r == r'
  {
  }
}
