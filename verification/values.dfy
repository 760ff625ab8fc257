// What the instructions compute, in plain arithmetic on 32-bit two's-complement values: for the machine's opcodes by their
// numbers, and for the structured semantics.
module Values {
  import opened Leb128
  import opened Bytecode
  import opened Runtime
  import opened Structured
  import opened Flat

  /** `v` is what remains of `x` in 32 bits. */
  predicate Wraps(v: int, x: int) { -0x8000_0000 <= v < 0x8000_0000 && (v - x) % 0x1_0000_0000 == 0 }

  /** `v` is `a` divided by `b`, rounded toward zero: what remains is less than `b` and has the sign of `a`. */
  predicate Quotient(v: int, a: int, b: int)
  {
    var r := a - v * b;
    -Abs(b) < r < Abs(b) && (a >= 0 ==> r >= 0) && (a <= 0 ==> r <= 0)
  }

  function Abs(x: int): int { if x < 0 then -x else x }

  /** Exactly one value satisfies each of the two. */
  lemma Unique(v: int, v': int, x: int, a: int, b: int)
    ensures Wraps(v, x) && Wraps(v', x) ==> v == v'
    ensures b != 0 && Quotient(v, a, b) && Quotient(v', a, b) ==> v == v'
  {
    if b != 0 && Quotient(v, a, b) && Quotient(v', a, b) {
      assert (v - v') * b == (a - v' * b) - (a - v * b);
      SmallFactor(v - v', b);
    }
  }

  lemma SmallFactor(d: int, b: int)
    requires b != 0 && -Abs(b) < d * b < Abs(b)
    ensures d == 0
  {
    if d != 0 { AtLeastOnce(d, b); }
  }

  // ----- the binary instructions -----

  /** `u` is the unsigned number with the bits of `a`. */
  predicate Reads(u: int, a: int) { 0 <= u < 0x1_0000_0000 && (u - a) % 0x1_0000_0000 == 0 }

  /** The comparisons, signed and unsigned: 1 if it holds, else 0. */
  lemma Compares(a: Value, b: Value, ua: int, ub: int)
    requires Reads(ua, a) && Reads(ub, b)
    ensures BinaryOp(0x46, a, b) == Val(if a == b then 1 else 0)
    ensures BinaryOp(0x47, a, b) == Val(if a == b then 0 else 1)
    ensures BinaryOp(0x48, a, b) == Val(if a < b then 1 else 0)
    ensures BinaryOp(0x49, a, b) == Val(if ua < ub then 1 else 0)
    ensures BinaryOp(0x4A, a, b) == Val(if b < a then 1 else 0)
    ensures BinaryOp(0x4B, a, b) == Val(if ub < ua then 1 else 0)
    ensures BinaryOp(0x4C, a, b) == Val(if b < a then 0 else 1)
    ensures BinaryOp(0x4D, a, b) == Val(if ub < ua then 0 else 1)
    ensures BinaryOp(0x4E, a, b) == Val(if a < b then 0 else 1)
    ensures BinaryOp(0x4F, a, b) == Val(if ua < ub then 0 else 1)
  {
    assert Unsigned(a) == ua && Unsigned(b) == ub;
  }

  /** i32.add, i32.sub and i32.mul keep the low 32 bits. */
  lemma Wraparound(a: Value, b: Value)
    ensures BinaryOp(0x6A, a, b).Val? && Wraps(BinaryOp(0x6A, a, b).v, a + b)
    ensures BinaryOp(0x6B, a, b).Val? && Wraps(BinaryOp(0x6B, a, b).v, a - b)
    ensures BinaryOp(0x6C, a, b).Val? && Wraps(BinaryOp(0x6C, a, b).v, a * b)
  {
    hide Wrap32;
    WrapsIs(a + b);
    WrapsIs(a - b);
    WrapsIs(a * b);
  }

  lemma WrapsIs(x: int)
    ensures Wraps(Wrap32(x), x)
  {
  }

  /** Division traps for a zero divisor, and i32.div_s alone for the quotient that leaves 32 bits. */
  lemma DivisionTraps(a: Value, b: Value, op: Byte)
    requires 0x6D <= op <= 0x70
    ensures BinaryOp(op, a, b) == Traps(DivideByZero) <==> b == 0
    ensures BinaryOp(op, a, b) == Traps(IntegerOverflow) <==> op == 0x6D && a == -0x8000_0000 && b == -1
    ensures BinaryOp(op, a, b).Val? <==> b != 0 && !(op == 0x6D && a == -0x8000_0000 && b == -1)
  {
  }

  /** i32.div_s is the quotient rounded toward zero, i32.rem_s what it leaves. */
  lemma Divides(a: Value, b: Value)
    requires b != 0
    ensures !(a == -0x8000_0000 && b == -1) ==> BinaryOp(0x6D, a, b).Val? && Quotient(BinaryOp(0x6D, a, b).v, a, b)
    ensures BinaryOp(0x6F, a, b).Val? && exists q :: Quotient(q, a, b) && BinaryOp(0x6F, a, b).v == a - q * b
  {
    TruncIsQuotient(a, b);
    var q := DivTrunc(a, b);
    if !(a == -0x8000_0000 && b == -1) { QuotientFits(q, a, b); }
    assert a - q * b == a - b * q;
    Stays(a - q * b);
  }

  /** i32.div_u and i32.rem_u are quotient and remainder of the unsigned numbers, read as signed ones. */
  lemma DividesUnsigned(a: Value, b: Value, ua: int, ub: int)
    requires b != 0 && Reads(ua, a) && Reads(ub, b)
    ensures ub != 0 && BinaryOp(0x6E, a, b).Val? && BinaryOp(0x70, a, b).Val?
    ensures exists q, m :: ua == q * ub + m && 0 <= m < ub && Wraps(BinaryOp(0x6E, a, b).v, q) && Wraps(BinaryOp(0x70, a, b).v, m)
  {
    hide Wrap32;
    assert Unsigned(a) == ua && Unsigned(b) == ub;
    var q, m := ua / ub, ua % ub;
    assert ua == q * ub + m;
    WrapsIs(q);
    WrapsIs(m);
  }

  lemma TruncIsQuotient(a: int, b: int)
    requires b != 0
    ensures Quotient(DivTrunc(a, b), a, b)
  {
    var c := if a >= 0 then a else -a;
    assert c == c / b * b + c % b && 0 <= c % b < Abs(b);
    assert DivTrunc(a, b) * b == if a >= 0 then c / b * b else -(c / b * b);
  }

  /** Only one quotient of two 32-bit values leaves 32 bits. */
  lemma QuotientFits(v: int, a: Value, b: Value)
    requires b != 0 && Quotient(v, a, b) && !(a == -0x8000_0000 && b == -1)
    ensures Wrap32(v) == v
  {
    hide Wrap32;
    assert -0x8000_0000 <= v < 0x8000_0000 by {
      if b == 1 || b == -1 {
        assert v * b == if b == 1 then v else -v;
      } else {
        Shrinks(v, a, b);
        AbsProduct(v, b);
        HalfFits(Abs(v), Abs(b), Abs(a));
      }
    }
    Stays(v);
  }

  lemma Stays(v: int)
    requires -0x8000_0000 <= v < 0x8000_0000
    ensures Wrap32(v) == v
  {
  }

  lemma Shrinks(v: int, a: int, b: int)
    requires b != 0 && Quotient(v, a, b)
    ensures Abs(v * b) <= Abs(a)
  {
    if v != 0 { AtLeastOnce(v, b); }
  }

  lemma AtLeastOnce(v: int, b: int)
    requires v != 0
    ensures Abs(v * b) >= Abs(b)
  {
    AbsProduct(v, b);
    assert (Abs(v) - 1) * Abs(b) >= 0;
  }

  lemma AbsProduct(v: int, b: int)
    ensures Abs(v * b) == Abs(v) * Abs(b)
  {
  }

  lemma HalfFits(v: nat, b: nat, a: nat)
    requires b >= 2 && v * b <= a <= 0x8000_0000
    ensures v <= 0x4000_0000
  {
    assert v * (b - 2) >= 0;
  }

  // ----- the machine and the structured semantics -----

  /** The machine, with `a` and `b` on top of the stack: a binary instruction replaces both by its result, or traps. */
  lemma MachineBinary(e: Env, base: nat, r: Regs, under: seq<Value>, a: Value, b: Value, op: Byte)
    requires r.stack == under + [a, b] && IsBinary(op)
    ensures BinaryOp(op, a, b).Val? ==> DoOp(e, base, op, 0, r) == Go(r.(stack := under + [BinaryOp(op, a, b).v]))
    ensures BinaryOp(op, a, b).Traps? ==> DoOp(e, base, op, 0, r) == Raise(BinaryOp(op, a, b).code)
  {
    hide BinaryOp;
    assert r.stack[..|r.stack| - 2] == under;
  }

  /** The same for a value of its own: i32.eqz, drop, select, i32.const. */
  lemma MachineValues(e: Env, base: nat, r: Regs, under: seq<Value>, a: Value, b: Value, c: Value)
    ensures DoOp(e, base, 0x45, 0, r.(stack := under + [c])) == Go(r.(stack := under + [if c == 0 then 1 else 0]))
    ensures DoOp(e, base, 0x1A, 0, r.(stack := under + [c])) == Go(r.(stack := under))
    ensures DoOp(e, base, 0x1B, 0, r.(stack := under + [a, b, c])) == Go(r.(stack := under + [if c == 0 then b else a]))
    ensures |under| < e.stackSize ==> DoOp(e, base, 0x41, c, r.(stack := under)) == Go(r.(stack := under + [c]))
  {
    var s := under + [c];
    assert s[..|s| - 1] == under && s[|s| - 1 := Truth(c == 0)] == under + [if c == 0 then 1 else 0];
    var t := under + [a, b, c];
    assert t[..|t| - 3] == under;
  }

  /** Variables at offset `base`, and globals: what local.set and global.set store is what a get of that variable reads, other
      variables keep their values, and local.tee is a set that leaves its operand. */
  lemma MachineVariables(e: Env, base: nat, r: Regs, i: nat, j: nat, v: Value)
    requires base + i < |r.stack| && base + j < |r.stack| && |r.stack| < e.stackSize
    ensures var o := DoOp(e, base, 0x21, i, r.(stack := r.stack + [v]));
            && o.Go? && |o.r.stack| == |r.stack| && o.r == r.(stack := o.r.stack)
            && DoOp(e, base, 0x20, j, o.r) == Go(o.r.(stack := o.r.stack + [if i == j then v else r.stack[base + j]]))
            && DoOp(e, base, 0x22, i, r.(stack := r.stack + [v])) == Go(r.(stack := o.r.stack + [v]))
  {
    var s := r.stack + [v];
    assert s[..|s| - 1] == r.stack;
    assert s[base + i := v] == r.stack[base + i := v] + [v];
  }

  lemma MachineGlobals(e: Env, base: nat, r: Regs, i: nat, j: nat, v: Value)
    requires i < |r.world.globals| && j < |r.world.globals| && |r.stack| < e.stackSize
    ensures var o := DoOp(e, base, 0x24, i, r.(stack := r.stack + [v]));
            && o.Go? && o.r.stack == r.stack && o.r.world.log == r.world.log && |o.r.world.globals| == |r.world.globals|
            && DoOp(e, base, 0x23, j, o.r) == Go(o.r.(stack := r.stack + [if i == j then v else r.world.globals[j]]))
  {
    var s := r.stack + [v];
    assert s[..|s| - 1] == r.stack;
  }

  /** The structured semantics computes the same. */
  lemma StructuredBinary(st: Store, under: seq<Value>, a: Value, b: Value, op: Byte)
    requires st.ops == under + [a, b] && IsBinary(op)
    ensures BinaryOp(op, a, b).Val? ==> EvalOp(Binary(op), st) == Normal(st.(ops := under + [BinaryOp(op, a, b).v]))
    ensures BinaryOp(op, a, b).Traps? ==> EvalOp(Binary(op), st) == Trapping(BinaryOp(op, a, b).code)
  {
    hide BinaryOp;
    assert Under(st.ops, 2) == under;
  }

  lemma StructuredValues(st: Store, under: seq<Value>, a: Value, b: Value, c: Value)
    ensures EvalOp(Eqz, st.(ops := under + [c])) == Normal(st.(ops := under + [if c == 0 then 1 else 0]))
    ensures EvalOp(Drop, st.(ops := under + [c])) == Normal(st.(ops := under))
    ensures EvalOp(Select, st.(ops := under + [a, b, c])) == Normal(st.(ops := under + [if c == 0 then b else a]))
  {
    assert Under(under + [c], 1) == under && Under(under + [a, b, c], 3) == under;
  }

  // ----- block types -----

  /** The six one-byte value types and the empty type, as they are written, and the index of a function type. */
  lemma BlockTypes(types: seq<FuncType>, bt: Imm)
    ensures bt in [[0x7F], [0x7E], [0x7D], [0x7C], [0x70], [0x6F]] ==> BlockArity(types, S(bt)) == FuncType(0, 1)
    ensures bt == [0x40] ==> BlockArity(types, S(bt)) == FuncType(0, 0)
    ensures Legal(bt, 5) && 0 <= S(bt) < |types| ==> BlockArity(types, S(bt)) == types[S(bt)]
  {
    if |bt| == 1 && 0x40 <= bt[0] < 0x80 { OneByte(bt); }
  }

  lemma OneByte(bt: Imm)
    requires |bt| == 1 && 0x40 <= bt[0] < 0x80
    ensures S(bt) == bt[0] as int - 0x80
  {
    FirstGroup(bt, 0);
  }
}
