/** Whole expressions over numbers as mathematical integers, and what the opcodes for arithmetic, comparison
    and arrays leave on the operand stack. */
module Meaning {
  import opened Values
  import opened ValueLaws
  import opened Bytecode
  import opened Source
  import opened SourceText
  import opened Machine
  import opened Correctness

  datatype Answer = Int(n: int) | NoInt

  /** An exact result, if it is a C int. */
  function Exact(n: int): Answer {
    if CInt(n) then Int(n) else NoInt
  }

  function Flag(defined: bool, b: bool): Answer {
    if defined then Int(if b then 1 else 0) else NoInt
  }

  /** The quotient rounded toward zero. */
  function Quotient(a: int, b: int): int
    requires b != 0
  {
    if a >= 0 then a / b else -(-a / b)
  }

  /** Comparisons go through the difference, which has to be a C int. */
  function Compute(op: BinOp, a: int, b: int): Answer {
    match op
    case Plus => Exact(a + b)
    case Minus => Exact(a - b)
    case Times => Exact(a * b)
    case Over => if b == 0 then NoInt else Exact(Quotient(a, b))
    case Less => Flag(CInt(a - b), a < b)
    case Equal => Flag(CInt(a - b), a == b)
    case NotEqual => Flag(CInt(a - b), a != b)
  }

  lemma QuotientIs(a: int, b: int)
    requires b != 0
    ensures TruncDiv(a, b) == Quotient(a, b)
  {
    var q, t := Quotient(a, b), TruncDiv(a, b);
    TruncDivIs(a, b);
    EuclidLeaves(a, b);
    OneQuotient(a, b, q, t);
  }

  lemma EuclidLeaves(a: int, b: int)
    requires b != 0
    ensures var r := a - Quotient(a, b) * b; Abs(r) < Abs(b) && (r > 0 ==> a > 0) && (r < 0 ==> a < 0)
  {
    var x: nat := if a >= 0 then a else -a;
    Euclid(x, b);
    Negated(x / b, b);
  }

  lemma Euclid(x: nat, b: int)
    requires b != 0
    ensures 0 <= x - x / b * b < Abs(b) && (x == 0 ==> x / b * b == 0)
  {
    assert x == x / b * b + x % b && 0 <= x % b < Abs(b);
  }

  lemma Negated(q: int, b: int)
    ensures -q * b == -(q * b)
  {
  }

  /** Remainder bounds and sign leave only one quotient. */
  lemma OneQuotient(a: int, b: int, q: int, t: int)
    requires b != 0
    requires var r := a - q * b; Abs(r) < Abs(b) && (r > 0 ==> a > 0) && (r < 0 ==> a < 0)
    requires var r := a - t * b; Abs(r) < Abs(b) && (r > 0 ==> a > 0) && (r < 0 ==> a < 0)
    ensures q == t
  {
    var d := (a - q * b) - (a - t * b);
    assert Abs(d) < Abs(b);
    assert d == (t - q) * b;
    if t > q { FarApart(t - q, b); }
    if q > t {
      assert (q - t) * b == -d;
      FarApart(q - t, b);
    }
  }

  lemma FarApart(k: int, b: int)
    requires k >= 1
    ensures Abs(k * b) >= Abs(b)
  {
    if b >= 0 { assert k * b >= b; } else { assert k * b <= b; }
  }

  /** The operations on two numbers. */
  lemma BinaryComputes(op: BinOp, a: int, b: int, mem: Mem)
    requires CInt(a) && CInt(b)
    ensures Binary(op, Num(a), Num(b), mem) ==
            match Compute(op, a, b) case Int(n) => Value(Num(n), mem) case NoInt => ValResult.Undefined
  {
    if op == Over && b != 0 { QuotientIs(a, b); }
  }

  // ----- expressions -----

  type Numbers = map<string, int>

  /** Numbers, variables that hold numbers, operators and minus signs. */
  predicate Numeric(e: Expr, vars: Numbers) {
    match e
    case Number(n) => CInt(n)
    case Var(x) => x in vars && CInt(vars[x])
    case Bin(_, l, r) => Numeric(l, vars) && Numeric(r, vars)
    case Neg(a) => Numeric(a, vars)
    case _ => false
  }

  /** The integer an expression stands for, if everything on the way is a C int. */
  function IntOf(e: Expr, vars: Numbers): (r: Answer)
    requires Numeric(e, vars)
    ensures r.Int? ==> CInt(r.n)
  {
    match e
    case Number(n) => Int(n)
    case Var(x) => Int(vars[x])
    case Bin(op, l, r) =>
      var a, b := IntOf(l, vars), IntOf(r, vars);
      if a.Int? && b.Int? then Compute(op, a.n, b.n) else NoInt
    case Neg(a) =>
      var b := IntOf(a, vars);
      if b.Int? then Exact(-b.n) else NoInt
  }

  /** Such an expression evaluates to its integer and changes nothing, or is undefined if it has none. */
  lemma {:induction false} EvalIsIntOf(p: Program, k: nat, e: Expr, vars: Numbers, env: Env, mem: Mem)
    requires Numeric(e, vars) && forall x :: x in vars ==> Source.Lookup(env, x) == Num(vars[x])
    ensures Eval(p, k, e, env, mem) ==
            match IntOf(e, vars) case Int(n) => Done(Num(n), env, mem) case NoInt => Outcome.Undefined
  {
    hide Binary, Compute;
    match e
    case Bin(op, l, r) =>
      EvalIsIntOf(p, k, r, vars, env, mem);
      EvalIsIntOf(p, k, l, vars, env, mem);
      var a, b := IntOf(l, vars), IntOf(r, vars);
      if a.Int? && b.Int? { BinaryComputes(op, a.n, b.n, mem); }
    case Neg(a) => EvalIsIntOf(p, k, a, vars, env, mem);
    case _ =>
  }

  /** From source text to integers: a line of numbers, variables and operators is read as an expression that
      evaluates to the integer of the tree its operators' rows make. */
  lemma LineEvaluates(es: seq<Expr>, ops: seq<BinOp>, p: Program, k: nat, vars: Numbers, env: Env, mem: Mem)
    requires Line(es, ops) && forall e :: e in es ==> Numeric(e, vars)
    requires forall x :: x in vars ==> Source.Lookup(env, x) == Num(vars[x])
    ensures Numeric(Tree(es, ops), vars) && Grammar.Parse(Grammar.Lex(LineText(es, ops))).Some?
    ensures Eval(p, k, Grammar.Parse(Grammar.Lex(LineText(es, ops))).value, env, mem) ==
            match IntOf(Tree(es, ops), vars) case Int(n) => Done(Num(n), env, mem) case NoInt => Outcome.Undefined
  {
    hide Line, Numeric, LineText, Grammar.Lex, Grammar.Parse, Tree;
    LineReads(es, ops);
    TreeNumeric(es, ops, vars);
    EvalIsIntOf(p, k, Tree(es, ops), vars, env, mem);
  }

  lemma {:induction false} TreeNumeric(es: seq<Expr>, ops: seq<BinOp>, vars: Numbers)
    requires Line(es, ops) && forall e :: e in es ==> Numeric(e, vars)
    ensures Numeric(Tree(es, ops), vars)
    decreases |ops|
  {
    hide Simple, Root;
    if ops != [] {
      var i := Root(ops);
      TreeNumeric(es[..i + 1], ops[..i], vars);
      TreeNumeric(es[i + 1..], ops[i + 1..], vars);
    }
  }

  // ----- opcodes -----

  /** What an arithmetic opcode computes from the number on top and the one below it. */
  function OpcodeComputes(op: Opcode, top: int, below: int): Answer
    requires op in {ADD, SUB, MUL, DIVIDE, LESS, EQUAL, NOTEQUAL}
  {
    match op
    case ADD => Exact(top + below)
    case SUB => Exact(top - below)
    case MUL => Exact(top * below)
    case DIVIDE => if below == 0 then NoInt else Exact(Quotient(top, below))
    case LESS => Flag(CInt(top - below), top < below)
    case EQUAL => Flag(CInt(top - below), top == below)
    case NOTEQUAL => Flag(CInt(top - below), top != below)
  }

  /** An arithmetic opcode replaces its two operands by the result and goes on with the next cell. */
  lemma OpcodeSteps(p: Image, s: State, op: Opcode, rest: seq<Val>, top: int, below: int)
    requires 0 <= s.pc < |p.code| && p.code[s.pc] == Do(op) && s.stack == rest + [Num(below), Num(top)]
    requires CInt(top) && CInt(below) && op in {ADD, SUB, MUL, DIVIDE, LESS, EQUAL, NOTEQUAL}
    ensures Step(p, s) ==
            match OpcodeComputes(op, top, below)
            case Int(n) => Next(State(s.pc + 1, rest + [Num(n)], s.frames, s.mem))
            case NoInt => StepResult.Undefined
  {
    hide Binary, Quotient;
    assert Pop(s.stack, 2) == rest;
    forall o: BinOp
      ensures Binary(o, Num(top), Num(below), s.mem) ==
              match Compute(o, top, below) case Int(n) => Value(Num(n), s.mem) case NoInt => ValResult.Undefined
    {
      BinaryComputes(o, top, below, s.mem);
    }
  }

  lemma MakeArrayContinues(p: Image, s: State, under: seq<Val>, vs: seq<Val>)
    requires 0 <= s.pc < |p.code| && p.code[s.pc] == Do(MKARRAY) && |s.stack| == |under| + 1 && |vs| <= |under|
    requires Top(s.stack, 0) == Num(|vs|) && Pop(s.stack, 1) == under && PopList(under, |vs|) == vs
    ensures Step(p, s) == Continue(s, |vs| + 1, MakeArray(vs, s.mem))
  {
    hide MakeArray, Pop, Top, PopList;
  }

  /** Making an array of pushed values, the first on top. */
  lemma MakeArraySteps(p: Image, s: State, rest: seq<Val>, vs: seq<Val>)
    requires 0 <= s.pc < |p.code| && p.code[s.pc] == Do(MKARRAY) && s.stack == rest + Reverse(vs) + [Num(|vs|)]
    ensures var a, r := s.mem.next, Step(p, s);
            && r.Next? && r.s == State(s.pc + 1, rest + [Ref(a)], s.frames, r.s.mem)
            && (forall k: nat :: At(a, k, r.s.mem) == if k < |vs| then vs[k] else Undef)
            && (forall b: nat, k: nat :: b != a ==> At(b, k, r.s.mem) == At(b, k, s.mem))
  {
    hide At, MakeArray, Reverse, PopList, Pop, Top, Step;
    PopReverseUnder(rest, vs, Num(|vs|));
    PopReverse(rest, vs);
    MakeArrayContinues(p, s, rest + Reverse(vs), vs);
    ArrayElements(vs, s.mem);
  }

  lemma ThreeOnTop(rest: seq<Val>, u: Val, v: Val, w: Val)
    ensures var st := rest + [u, v, w];
            && Pop(st, 2) == rest + [u] && Pop(st, 3) == rest
            && Top(st, 0) == w && Top(st, 1) == v && Top(st, 2) == u
  {
  }

  /** Reading an element: the array on top, the index below it. */
  lemma IndexSteps(p: Image, s: State, rest: seq<Val>, a: nat, i: nat, v: Val)
    requires 0 <= s.pc < |p.code| && p.code[s.pc] == Do(INDEX1) && s.stack == rest + [v, Num(i), Ref(a)]
    ensures Step(p, s) == Next(State(s.pc + 1, rest + [v] + [At(a, i, s.mem)], s.frames, s.mem))
  {
    hide At, ValIndex, Pop, Top;
    ThreeOnTop(rest, v, Num(i), Ref(a));
    IndexReads(a, i, Undef, Undef, s.mem);
  }

  /** Writing an element: the array on top, the index below it, the value below both; the value stays. */
  lemma IndexAssignSteps(p: Image, s: State, rest: seq<Val>, a: nat, i: nat, v: Val)
    requires 0 <= s.pc < |p.code| && p.code[s.pc] == Do(INDEXAS) && s.stack == rest + [v, Num(i), Ref(a)]
    ensures var r := Step(p, s);
            && r.Next? && r.s == State(s.pc + 1, rest + [v], s.frames, r.s.mem)
            && (forall b: nat, j: nat :: At(b, j, r.s.mem) ==
                  if v != Undef && b == a && j == i then v else At(b, j, s.mem))
  {
    hide At, ValIndexAssign, Pop, Top;
    ThreeOnTop(rest, v, Num(i), Ref(a));
    StoredElement(a, i, v, s.mem);
  }
}
