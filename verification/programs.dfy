// Two programs of the WebAssembly test suite in 32 bits, run by the interpreter: the factorial as a loop and as a recursion.
module Programs {
  import opened Leb128
  import opened Bytecode
  import opened Runtime
  import opened Structured
  import opened Values
  import opened Flat
  import opened Simulation
  import opened Execution
  import Acceptance

  function Factorial(n: nat): int { if n == 0 then 1 else n * Factorial(n - 1) }

  /** One step of a sequence. */
  lemma PlainStep(pr: Program, results: nat, room: Room, fuel: nat, c: Code, labels: seq<nat>, st: Store, st': Store)
    requires c.Plain? && EvalOp(c.op, st) == Normal(st')
    ensures Eval(pr, results, room, fuel, c, labels, st) == Eval(pr, results, room, fuel, c.next, labels, st')
  {
  }

  lemma Small(b: Byte)
    requires b < 64
    ensures Legal([b], 5) && U([b]) == b && S([b]) == b
  {
    FirstGroup([b], 0);
  }

  // ----- the loop -----

  /** `block loop local.get 0 i32.eqz br_if 1 …`: multiplies local 1 by local 0 and counts local 0 down. */
  const Multiply: Code :=
    Plain(LocalGet([0x00]), Plain(LocalGet([0x01]), Plain(Binary(0x6C), Plain(LocalSet([0x01]),
    Plain(LocalGet([0x00]), Plain(Const([0x01]), Plain(Binary(0x6B), Plain(LocalSet([0x00]), Br([0x00], End)))))))))
  const Turn: Code := Plain(LocalGet([0x00]), Plain(Eqz, BrIf([0x01], Multiply)))
  const While: Code :=
    Plain(Const([0x01]), Plain(LocalSet([0x01]), Block([0x40], Loop([0x40], Turn, End), Plain(LocalGet([0x01]), End))))

  lemma Immediates()
    ensures U([0x00]) == 0 && U([0x01]) == 1 && S([0x01]) == 1
  {
    Small(0);
    Small(1);
  }

  lemma MultiplyRuns(pr: Program, fuel: nat, a: Value, b: Value, w: World)
    ensures BinaryOp(0x6C, a, b).Val? && BinaryOp(0x6B, a, 1).Val?
    ensures Eval(pr, 1, Unbounded, fuel, Multiply, [1, 0, 0], Store([a, b], [], w)) ==
            Branching(0, [], [BinaryOp(0x6B, a, 1).v, BinaryOp(0x6C, a, b).v], w)
  {
    hide BinaryOp, Eval;
    Wraparound(a, b);
    Wraparound(a, 1);
    FirstHalf(pr, fuel, a, b, w);
    SecondHalf(pr, fuel, a, BinaryOp(0x6C, a, b).v, w);
  }

  lemma FirstHalf(pr: Program, fuel: nat, a: Value, b: Value, w: World)
    requires BinaryOp(0x6C, a, b).Val?
    ensures Eval(pr, 1, Unbounded, fuel, Multiply, [1, 0, 0], Store([a, b], [], w)) ==
            Eval(pr, 1, Unbounded, fuel, Multiply.next.next.next.next, [1, 0, 0], Store([a, BinaryOp(0x6C, a, b).v], [], w))
  {
    hide U, S, BinaryOp, Eval;
    Immediates();
    var p, c1 := BinaryOp(0x6C, a, b).v, Multiply.next;
    PlainStep(pr, 1, Unbounded, fuel, Multiply, [1, 0, 0], Store([a, b], [], w), Store([a, b], [a], w));
    PlainStep(pr, 1, Unbounded, fuel, c1, [1, 0, 0], Store([a, b], [a], w), Store([a, b], [a, b], w));
    StructuredBinary(Store([a, b], [a, b], w), [], a, b, 0x6C);
    PlainStep(pr, 1, Unbounded, fuel, c1.next, [1, 0, 0], Store([a, b], [a, b], w), Store([a, b], [p], w));
    PlainStep(pr, 1, Unbounded, fuel, c1.next.next, [1, 0, 0], Store([a, b], [p], w), Store([a, p], [], w));
  }

  lemma SecondHalf(pr: Program, fuel: nat, a: Value, p: Value, w: World)
    requires BinaryOp(0x6B, a, 1).Val?
    ensures Eval(pr, 1, Unbounded, fuel, Multiply.next.next.next.next, [1, 0, 0], Store([a, p], [], w)) ==
            Branching(0, [], [BinaryOp(0x6B, a, 1).v, p], w)
  {
    hide U, S, BinaryOp, Eval;
    Immediates();
    var d, c4 := BinaryOp(0x6B, a, 1).v, Multiply.next.next.next.next;
    PlainStep(pr, 1, Unbounded, fuel, c4, [1, 0, 0], Store([a, p], [], w), Store([a, p], [a], w));
    PlainStep(pr, 1, Unbounded, fuel, c4.next, [1, 0, 0], Store([a, p], [a], w), Store([a, p], [a, 1], w));
    StructuredBinary(Store([a, p], [a, 1], w), [], a, 1, 0x6B);
    PlainStep(pr, 1, Unbounded, fuel, c4.next.next, [1, 0, 0], Store([a, p], [a, 1], w), Store([a, p], [d], w));
    PlainStep(pr, 1, Unbounded, fuel, c4.next.next.next, [1, 0, 0], Store([a, p], [d], w), Store([d, p], [], w));
    Branches(pr, fuel, Store([d, p], [], w));
  }

  lemma Branches(pr: Program, fuel: nat, st: Store)
    requires st.ops == []
    ensures Eval(pr, 1, Unbounded, fuel, Br([0x00], End), [1, 0, 0], st) == Branching(0, [], st.locals, st.world)
  {
    hide U;
    Immediates();
  }

  /** One turn leaves the loop when local 0 is zero, and else restarts it. */
  lemma TurnRuns(pr: Program, fuel: nat, a: Value, b: Value, w: World)
    ensures BinaryOp(0x6C, a, b).Val? && BinaryOp(0x6B, a, 1).Val?
    ensures Eval(pr, 1, Unbounded, fuel, Turn, [1, 0, 0], Store([a, b], [], w)) ==
            if a == 0 then Branching(1, [], [a, b], w) else Branching(0, [], [BinaryOp(0x6B, a, 1).v, BinaryOp(0x6C, a, b).v], w)
  {
    hide U, S, BinaryOp, Eval;
    Immediates();
    MultiplyRuns(pr, fuel, a, b, w);
    var flag: Value := if a == 0 then 1 else 0;
    PlainStep(pr, 1, Unbounded, fuel, Turn, [1, 0, 0], Store([a, b], [], w), Store([a, b], [a], w));
    StructuredValues(Store([a, b], [], w), [], 0, 0, a);
    assert [] + [a] == [a] && [] + [flag] == [flag];
    PlainStep(pr, 1, Unbounded, fuel, Turn.next, [1, 0, 0], Store([a, b], [a], w), Store([a, b], [flag], w));
    Decides(pr, fuel, a, b, flag, w);
  }

  lemma Decides(pr: Program, fuel: nat, a: Value, b: Value, flag: Value, w: World)
    ensures Eval(pr, 1, Unbounded, fuel, BrIf([0x01], Multiply), [1, 0, 0], Store([a, b], [flag], w)) ==
            if flag != 0 then Branching(1, [], [a, b], w) else Eval(pr, 1, Unbounded, fuel, Multiply, [1, 0, 0], Store([a, b], [], w))
  {
    hide U;
    Immediates();
    assert Under([flag], 1) == [];
  }

  /** All turns: what is left to multiply is the factorial of local 0. */
  lemma {:induction false} TurnsRun(pr: Program, fuel: nat, u: nat, a: Value, b: Value, acc: int, w: World)
    requires Reads(u, a) && Wraps(b, acc)
    ensures var out := Iterate(pr, 1, Unbounded, fuel, Loop([0x40], Turn, End), [1, 0], Store([a, b], [], w));
            (out == OutOfFuel && fuel < u) || exists v: Value :: Wraps(v, acc * Factorial(u)) && out == Branching(1, [], [0, v], w)
    decreases u
  {
    hide Eval, BinaryOp, U, S, Wraps, Reads;
    Acceptance.Empty40();
    TurnRuns(pr, fuel, a, b, w);
    LoopStep(pr, fuel, Store([a, b], [], w));
    ZeroReads(u, a);
    if u == 0 {
      assert acc * Factorial(0) == acc;
    } else if fuel > 0 {
      Wraparound(a, b);
      Wraparound(a, 1);
      var d, p := BinaryOp(0x6B, a, 1).v, BinaryOp(0x6C, a, b).v;
      CountsDown(u, a, d);
      Accumulates(u, a, b, p, acc);
      TurnsRun(pr, fuel - 1, u - 1, d, p, u * acc, w);
      assert u * acc * Factorial(u - 1) == acc * Factorial(u);
    }
  }

  lemma LoopStep(pr: Program, fuel: nat, st: Store)
    requires S([0x40]) == -64
    ensures var c, out := Loop([0x40], Turn, End), Eval(pr, 1, Unbounded, fuel, Turn, [1, 0, 0], st);
            Iterate(pr, 1, Unbounded, fuel, c, [1, 0], st) ==
            if out.Branching? && out.depth == 0 then
              if fuel == 0 then OutOfFuel else Iterate(pr, 1, Unbounded, fuel - 1, c, [1, 0], Store(out.locals, out.vals, out.world))
            else out
  {
    hide Eval;
    assert [1, 0] + [0] == [1, 0, 0];
  }

  lemma ZeroReads(u: nat, a: Value)
    requires Reads(u, a)
    ensures u == 0 <==> a == 0
  {
  }

  lemma CountsDown(u: nat, a: Value, d: Value)
    requires Reads(u, a) && u > 0 && Wraps(d, a - 1)
    ensures Reads(u - 1, d)
  {
  }

  lemma Accumulates(u: nat, a: Value, b: Value, p: Value, acc: int)
    requires Reads(u, a) && Wraps(b, acc) && Wraps(p, a * b)
    ensures Wraps(p, u * acc)
  {
    var i, j, k := (u - a) / 0x1_0000_0000, (b - acc) / 0x1_0000_0000, (p - a * b) / 0x1_0000_0000;
    Products(a, b, i, j, k);
    Remains(p - u * acc, k - i * b + a * j + 0x1_0000_0000 * (i * j));
  }

  lemma Products(a: int, b: int, i: int, j: int, k: int)
    ensures (a * b + 0x1_0000_0000 * k) - (a + 0x1_0000_0000 * i) * (b - 0x1_0000_0000 * j) ==
            0x1_0000_0000 * (k - i * b + a * j + 0x1_0000_0000 * (i * j))
  {
  }

  lemma Remains(x: int, q: int)
    requires x == 0x1_0000_0000 * q
    ensures x % 0x1_0000_0000 == 0
  {
  }

  /** The block and the loop in it, from the accumulator set to 1. */
  lemma BlockRuns(pr: Program, fuel: nat, u: nat, n: Value, w: World)
    requires Reads(u, n)
    ensures var out := EvalBlock(pr, 1, Unbounded, fuel, While.next.next, [1], Store([n, 1], [], w));
            (out == OutOfFuel && fuel < u) || exists v: Value :: Wraps(v, Factorial(u)) && out == Normal(Store([0, v], [], w))
  {
    hide Wraps, Reads, Iterate, S, U;
    Acceptance.Empty40();
    assert Wraps(1, 1) by { OneWraps(); }
    TurnsRun(pr, fuel, u, n, 1, 1, w);
    assert [1] + [0] == [1, 0];
    assert Top([], 0) == [] && Under([], 0) == [];
    var st := Store([n, 1], [], w);
    var it := Iterate(pr, 1, Unbounded, fuel, Loop([0x40], Turn, End), [1, 0], st);
    assert EvalLoop(pr, 1, Unbounded, fuel, Loop([0x40], Turn, End), [1, 0], st) == Leave(it, []);
    assert Eval(pr, 1, Unbounded, fuel, Loop([0x40], Turn, End), [1, 0], st) ==
           Then(pr, 1, Unbounded, fuel, End, Loop([0x40], Turn, End), [1, 0], Leave(it, []));
  }

  lemma OneWraps()
    ensures Wraps(1, 1)
  {
  }

  /** The body, on its parameter and the zeroed local. */
  lemma WhileRuns(pr: Program, fuel: nat, u: nat, n: Value, w: World)
    requires Reads(u, n)
    ensures var out := Eval(pr, 1, Unbounded, fuel, While, [1], Store([n, 0], [], w));
            (out == OutOfFuel && fuel < u) || exists v: Value :: Wraps(v, Factorial(u)) && out == Normal(Store([0, v], [v], w))
  {
    hide Wraps, Reads, EvalBlock, S, U;
    Immediates();
    BlockRuns(pr, fuel, u, n, w);
    PlainStep(pr, 1, Unbounded, fuel, While, [1], Store([n, 0], [], w), Store([n, 0], [1], w));
    PlainStep(pr, 1, Unbounded, fuel, While.next, [1], Store([n, 0], [1], w), Store([n, 1], [], w));
    BehindBlock(pr, fuel, Store([n, 1], [], w));
    var out := EvalBlock(pr, 1, Unbounded, fuel, While.next.next, [1], Store([n, 1], [], w));
    if out.Normal? {
      var v: Value :| Wraps(v, Factorial(u)) && out == Normal(Store([0, v], [], w));
      LastGet(pr, fuel, v, w);
    }
  }

  lemma BehindBlock(pr: Program, fuel: nat, st: Store)
    ensures var c, out := While.next.next, EvalBlock(pr, 1, Unbounded, fuel, While.next.next, [1], st);
            Eval(pr, 1, Unbounded, fuel, c, [1], st) == if out.Normal? then Eval(pr, 1, Unbounded, fuel, c.next, [1], out.st) else out
  {
    hide EvalBlock;
  }

  lemma LastGet(pr: Program, fuel: nat, v: Value, w: World)
    ensures Eval(pr, 1, Unbounded, fuel, Plain(LocalGet([0x01]), End), [1], Store([0, v], [], w)) == Normal(Store([0, v], [v], w))
  {
    hide U, S;
    Immediates();
    PlainStep(pr, 1, Unbounded, fuel, Plain(LocalGet([0x01]), End), [1], Store([0, v], [], w), Store([0, v], [v], w));
  }

  /** The function with this body. */
  predicate IsWhile(pr: Program, f: nat)
  {
    && f < |pr.env.funcs| && f < |pr.bodies| && pr.bodies[f] == While
    && pr.env.funcs[f].Local? && pr.env.funcs[f].typ == FuncType(1, 1) && pr.env.funcs[f].localCount == 1
  }

  /** For every argument, read as an unsigned number, the loop returns its factorial in 32 bits. */
  lemma WhileIsFactorial(pr: Program, fuel: nat, f: nat, u: nat, n: Value, w: World)
    requires IsWhile(pr, f) && Reads(u, n)
    ensures var out := Invoke(pr, Unbounded, fuel, f, [n], w);
            (out == CallOutOfFuel && fuel < u) || exists v: Value :: Wraps(v, Factorial(u)) && out == Results([v], w)
  {
    hide Wraps, Reads, Eval;
    WhileRuns(pr, fuel, u, n, w);
    assert [n] + Runtime.Zeros(1) == [n, 0];
  }

  /** The machine, if it ends, returns the factorial too. */
  lemma MachineWhile(im: Image, f: nat, under: seq<Value>, u: nat, n: Value, w: World, steps: nat, t: State)
    requires IsWhile(im.pr, f) && Reads(u, n)
    requires Launchable(im, f, under + [n], w) && Reached(im, f, under + [n], w, steps, t) && t.frames == []
    ensures exists v: Value :: Wraps(v, Factorial(u)) && t == FinalState(under, [v], w)
  {
    hide Wraps, Reads, Invoke, Launchable, Reached;
    MachineRefinesSpecification(im, f, under + [n], w, steps, t);
    assert Top(under + [n], 1) == [n] && Under(under + [n], 1) == under;
    WhileIsFactorial(im.pr, steps + 1, f, u, n, w);
  }

  // ----- the recursion -----

  const Recur: Code :=
    Plain(LocalGet([0x00]), Plain(LocalGet([0x00]), Plain(Const([0x01]), Plain(Binary(0x6B), Call([0x00], Plain(Binary(0x6C), End))))))
  const Recursive: Code :=
    Plain(LocalGet([0x00]), Plain(Const([0x00]), Plain(Binary(0x46), IfElse([0x7F], Plain(Const([0x01]), End), Recur, End))))

  /** The first function has this body. */
  predicate IsRecursive(pr: Program)
  {
    && 0 < |pr.env.funcs| && 0 < |pr.bodies| && pr.bodies[0] == Recursive
    && pr.env.funcs[0].Local? && pr.env.funcs[0].typ == FuncType(1, 1) && pr.env.funcs[0].localCount == 0
  }

  /** The other branch: the argument of the call, and what becomes of its outcome. */
  lemma RecurRuns(pr: Program, fuel: nat, labels: seq<nat>, a: Value, w: World)
    requires IsRecursive(pr)
    ensures BinaryOp(0x6B, a, 1).Val?
    ensures var d := BinaryOp(0x6B, a, 1).v;
            var out := Eval(pr, 1, Unbounded, fuel, Recur, labels, Store([a], [], w));
            if fuel == 0 then out == OutOfFuel
            else
              var call := Invoke(pr, Unbounded, fuel - 1, 0, [d], w);
              && (call == CallOutOfFuel ==> out == OutOfFuel)
              && (forall v: Value :: call == Results([v], w) ==>
                    BinaryOp(0x6C, a, v).Val? && out == Normal(Store([a], [BinaryOp(0x6C, a, v).v], w)))
  {
    hide U, S, BinaryOp, Eval, Invoke;
    Immediates();
    Wraparound(a, 1);
    var d := BinaryOp(0x6B, a, 1).v;
    PlainStep(pr, 1, Unbounded, fuel, Recur, labels, Store([a], [], w), Store([a], [a], w));
    PlainStep(pr, 1, Unbounded, fuel, Recur.next, labels, Store([a], [a], w), Store([a], [a, a], w));
    PlainStep(pr, 1, Unbounded, fuel, Recur.next.next, labels, Store([a], [a, a], w), Store([a], [a, a, 1], w));
    assert [a, a, 1] == [a] + [a, 1];
    StructuredBinary(Store([a], [a, a, 1], w), [a], a, 1, 0x6B);
    PlainStep(pr, 1, Unbounded, fuel, Recur.next.next.next, labels, Store([a], [a, a, 1], w), Store([a], [a, d], w));
    CallRuns(pr, fuel, labels, a, d, w);
  }

  lemma CallRuns(pr: Program, fuel: nat, labels: seq<nat>, a: Value, d: Value, w: World)
    requires IsRecursive(pr)
    ensures var out := Eval(pr, 1, Unbounded, fuel, Call([0x00], Plain(Binary(0x6C), End)), labels, Store([a], [a, d], w));
            if fuel == 0 then out == OutOfFuel
            else
              var call := Invoke(pr, Unbounded, fuel - 1, 0, [d], w);
              && (call == CallOutOfFuel ==> out == OutOfFuel)
              && (forall v: Value :: call == Results([v], w) ==>
                    BinaryOp(0x6C, a, v).Val? && out == Normal(Store([a], [BinaryOp(0x6C, a, v).v], w)))
  {
    hide U, S, BinaryOp, Eval, Invoke;
    Immediates();
    assert Top([a, d], 1) == [d] && Under([a, d], 1) == [a];
    CallThen(pr, fuel, labels, Store([a], [a, d], w));
    if fuel > 0 {
      forall v: Value | Invoke(pr, Unbounded, fuel - 1, 0, [d], w) == Results([v], w)
        ensures BinaryOp(0x6C, a, v).Val?
        ensures Eval(pr, 1, Unbounded, fuel, Plain(Binary(0x6C), End), labels, Store([a], [a] + [v], w)) ==
                Normal(Store([a], [BinaryOp(0x6C, a, v).v], w))
      {
        Wraparound(a, v);
        assert [a] + [v] == [] + [a, v];
        StructuredBinary(Store([a], [a] + [v], w), [], a, v, 0x6C);
        LastMultiply(pr, fuel, labels, Store([a], [a] + [v], w), Store([a], [BinaryOp(0x6C, a, v).v], w));
      }
    }
  }

  lemma LastMultiply(pr: Program, fuel: nat, labels: seq<nat>, st: Store, st': Store)
    requires EvalOp(Binary(0x6C), st) == Normal(st')
    ensures Eval(pr, 1, Unbounded, fuel, Plain(Binary(0x6C), End), labels, st) == Normal(st')
  {
    hide EvalOp;
    PlainStep(pr, 1, Unbounded, fuel, Plain(Binary(0x6C), End), labels, st, st');
    Ended(pr, fuel, labels, st');
  }

  lemma Ended(pr: Program, fuel: nat, labels: seq<nat>, st: Store)
    ensures Eval(pr, 1, Unbounded, fuel, End, labels, st) == Normal(st)
  {
  }

  lemma CallThen(pr: Program, fuel: nat, labels: seq<nat>, st: Store)
    ensures var c := Call([0x00], Plain(Binary(0x6C), End));
            var out := EvalCall(pr, 1, Unbounded, fuel, c, st);
            Eval(pr, 1, Unbounded, fuel, c, labels, st) == if out.Normal? then Eval(pr, 1, Unbounded, fuel, c.next, labels, out.st) else out
  {
    hide EvalCall;
  }

  /** The test in front. */
  lemma RecursiveRuns(pr: Program, fuel: nat, a: Value, w: World)
    ensures var flag: Value := if a == 0 then 1 else 0;
            Eval(pr, 1, Unbounded, fuel, Recursive, [1], Store([a], [], w)) ==
            Eval(pr, 1, Unbounded, fuel, Recursive.next.next.next, [1], Store([a], [flag], w))
  {
    hide U, S, BinaryOp, Eval;
    Immediates();
    assert S([0x00]) == 0 by { Small(0); }
    var flag: Value := if a == 0 then 1 else 0;
    PlainStep(pr, 1, Unbounded, fuel, Recursive, [1], Store([a], [], w), Store([a], [a], w));
    PlainStep(pr, 1, Unbounded, fuel, Recursive.next, [1], Store([a], [a], w), Store([a], [a, 0], w));
    Compares(a, 0, Unsigned(a), 0);
    StructuredBinary(Store([a], [a, 0], w), [], a, 0, 0x46);
    PlainStep(pr, 1, Unbounded, fuel, Recursive.next.next, [1], Store([a], [a, 0], w), Store([a], [flag], w));
  }

  /** The branches. */
  lemma ArmRuns(pr: Program, fuel: nat, flag: Value, a: Value, w: World)
    ensures var c := Recursive.next.next.next;
            var arm := Eval(pr, 1, Unbounded, fuel, if flag != 0 then c.thn else c.els, [1, 1], Store([a], [], w));
            (arm.Normal? || arm.OutOfFuel?) ==> Eval(pr, 1, Unbounded, fuel, c, [1], Store([a], [flag], w)) == arm
  {
    hide S, U, Eval;
    BlockTypes(pr.env.types, [0x7F]);
    assert [1] + [1] == [1, 1] && Under([flag], 1) == [];
    IfThen(pr, fuel, Store([a], [flag], w));
    var c := Recursive.next.next.next;
    var arm := Eval(pr, 1, Unbounded, fuel, if flag != 0 then c.thn else c.els, [1, 1], Store([a], [], w));
    assert EvalIf(pr, 1, Unbounded, fuel, c, [1], Store([a], [flag], w)) == Leave(arm, []);
    if arm.Normal? {
      assert [] + arm.st.ops == arm.st.ops;
      Ended(pr, fuel, [1], arm.st);
    }
  }

  lemma IfThen(pr: Program, fuel: nat, st: Store)
    ensures var c, out := Recursive.next.next.next, EvalIf(pr, 1, Unbounded, fuel, Recursive.next.next.next, [1], st);
            Eval(pr, 1, Unbounded, fuel, c, [1], st) == if out.Normal? then Eval(pr, 1, Unbounded, fuel, c.next, [1], out.st) else out
  {
    hide EvalIf;
  }

  lemma OneRuns(pr: Program, fuel: nat, st: Store)
    requires st.ops == []
    ensures Eval(pr, 1, Unbounded, fuel, Plain(Const([0x01]), End), [1, 1], st) == Normal(st.(ops := [1]))
  {
    hide S, U;
    Immediates();
    PlainStep(pr, 1, Unbounded, fuel, Plain(Const([0x01]), End), [1, 1], st, st.(ops := [1]));
    Ended(pr, fuel, [1, 1], st.(ops := [1]));
  }

  /** For every argument, read as an unsigned number, the recursion returns its factorial in 32 bits. */
  lemma {:induction false} RecursiveIsFactorial(pr: Program, fuel: nat, u: nat, n: Value, w: World)
    requires IsRecursive(pr) && Reads(u, n)
    ensures var out := Invoke(pr, Unbounded, fuel, 0, [n], w);
            (out == CallOutOfFuel && fuel < u) || exists v: Value :: Wraps(v, Factorial(u)) && out == Results([v], w)
    decreases u
  {
    hide Wraps, Reads, Eval, BinaryOp;
    ZeroReads(u, n);
    assert [n] + Runtime.Zeros(0) == [n];
    RecursiveRuns(pr, fuel, n, w);
    ArmRuns(pr, fuel, if n == 0 then 1 else 0, n, w);
    if u == 0 {
      OneRuns(pr, fuel, Store([n], [], w));
      OneWraps();
    } else {
      RecurRuns(pr, fuel, [1, 1], n, w);
      if fuel > 0 {
        Wraparound(n, 1);
        var d := BinaryOp(0x6B, n, 1).v;
        CountsDown(u, n, d);
        RecursiveIsFactorial(pr, fuel - 1, u - 1, d, w);
        var call := Invoke(pr, Unbounded, fuel - 1, 0, [d], w);
        if call.Results? {
          var v: Value :| Wraps(v, Factorial(u - 1)) && call == Results([v], w);
          Wraparound(n, v);
          Accumulates(u, n, v, BinaryOp(0x6C, n, v).v, Factorial(u - 1));
        }
      }
    }
  }

  lemma MachineRecursive(im: Image, under: seq<Value>, u: nat, n: Value, w: World, steps: nat, t: State)
    requires IsRecursive(im.pr) && Reads(u, n)
    requires Launchable(im, 0, under + [n], w) && Reached(im, 0, under + [n], w, steps, t) && t.frames == []
    ensures exists v: Value :: Wraps(v, Factorial(u)) && t == FinalState(under, [v], w)
  {
    hide Wraps, Reads, Invoke, Launchable, Reached;
    MachineRefinesSpecification(im, 0, under + [n], w, steps, t);
    assert Top(under + [n], 1) == [n] && Under(under + [n], 1) == under;
    RecursiveIsFactorial(im.pr, steps + 1, u, n, w);
  }
}
