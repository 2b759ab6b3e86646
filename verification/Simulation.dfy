/** Compiler correctness: from the first cell of a node the machine does what the interpreter says. */
module Simulation {
  import opened Arrays
  import opened Values
  import opened Bytecode
  import opened Source
  import opened Machine
  import opened Codegen

  predicate CodeAt(code: seq<Instr>, b: nat, c: seq<Instr>) {
    b + |c| <= |code| && code[b..b + |c|] == c
  }

  lemma SplitAt(code: seq<Instr>, b: nat, c1: seq<Instr>, c2: seq<Instr>)
    requires CodeAt(code, b, c1 + c2)
    ensures CodeAt(code, b, c1) && CodeAt(code, b + |c1|, c2)
  {
    assert code[b..b + |c1 + c2|][..|c1|] == c1;
    assert code[b..b + |c1 + c2|][|c1|..] == c2;
  }

  lemma Cell(code: seq<Instr>, b: nat, c: seq<Instr>, i: nat)
    requires CodeAt(code, b, c) && i < |c|
    ensures b + i < |code| && code[b + i] == c[i]
  {
    assert code[b..b + |c|][i] == c[i];
  }

  // ----- the names of a node are in the tables -----

  predicate Covers(t: Tables, e: Expr)
    decreases e
  {
    match e
    case Number(_) => true
    case Text(s) => s in t.consts
    case Var(x) => x in t.vars
    case Bin(_, l, r) => Covers(t, l) && Covers(t, r)
    case Neg(a) => Covers(t, a)
    case Assign(x, a) => x in t.vars && Covers(t, a)
    case Index(x, i) => x in t.vars && Covers(t, i)
    case IndexAssign(x, i, a) => x in t.vars && Covers(t, i) && Covers(t, a)
    case Array(es) => CoversAll(t, es)
    case Call(f, args) => f in t.consts && CoversAll(t, args)
    case If(c, th, el) => Covers(t, c) && CoversAll(t, th) && CoversAll(t, el)
    case While(c, body) => Covers(t, c) && CoversAll(t, body)
    case Return(a) => Covers(t, a)
  }

  predicate CoversAll(t: Tables, es: Exprs)
    decreases es
  {
    es.Snoc? ==> CoversAll(t, es.init) && Covers(t, es.last)
  }

  // ----- linking -----

  /** The function's body, compiled with its own variable table, stands at its entry and is followed by
      the return of 0. */
  predicate FuncAt(p: Image, f: Func, entry: nat, scheme: Scheme) {
    var t := Tables(FuncVars(f), p.consts, scheme);
    && CoversAll(t, f.body)
    && CodeAt(p.code, entry, CodeStmts(f.body, entry, t) + [Push(0), Do(RET)])
  }

  ghost predicate Linked(p: Image, src: Program, scheme: Scheme) {
    && p.native == src.native
    && WellFormedProgram(src)
    && forall name :: match FindFunc(src.funs, name)
                      case None => name !in p.funs
                      case Some(f) => name in p.funs && FuncAt(p, f, p.funs[name], scheme)
  }

  // ----- configurations -----

  /** Everything that stays fixed while one activation runs. */
  datatype Ctx = Ctx(p: Image, src: Program, t: Tables, callers: seq<Frame>, ret: int, loops: seq<int>)

  ghost predicate Ready(c: Ctx) {
    c.p.consts == c.t.consts && Distinct(c.t.vars) && Linked(c.p, c.src, c.t.scheme)
  }

  /** The slots of a frame are the values of the allocated names, trailing undefs trimmed. */
  function SlotsOf(vars: seq<string>, env: Env): seq<Val> {
    Trim(Undef, seq(|vars|, i requires 0 <= i < |vars| => Lookup(env, vars[i])))
  }

  function Cfg(c: Ctx, pc: int, st: seq<Val>, env: Env, mem: Mem): State {
    State(pc, st, c.callers + [Frame(c.ret, c.loops, SlotsOf(c.t.vars, env))], mem)
  }

  /** What the interpreter's outcome demands of the machine when no value is delivered. */
  function Abort<T>(c: Ctx, o: Outcome<T>, k: nat, st: seq<Val>): Goal
    requires !o.Done?
  {
    match o
    case Returned(v, mem) => Comes(Next(State(c.ret + 1, st + [v], c.callers, mem)))
    case Halted(mem) => Comes(StepResult.Halted(mem))
    case Undefined => Comes(StepResult.Undefined)
    case Timeout => Runs(k)
  }

  function GoalOf(c: Ctx, o: Outcome<Val>, k: nat, end: int, st: seq<Val>): Goal {
    if o.Done? then Comes(Next(Cfg(c, end, st + [o.value], o.env, o.mem))) else Abort(c, o, k, st)
  }

  /** An argument list leaves its values with the first one on top. */
  function ListGoal(c: Ctx, o: Outcome<seq<Val>>, k: nat, end: int, st: seq<Val>): Goal {
    if o.Done? then Comes(Next(Cfg(c, end, st + Reverse(o.value), o.env, o.mem))) else Abort(c, o, k, st)
  }

  function StmtsGoal(c: Ctx, o: Outcome<seq<Val>>, k: nat, end: int, st: seq<Val>): Goal {
    if o.Done? then Comes(Next(Cfg(c, end, st, o.env, o.mem))) else Abort(c, o, k, st)
  }

  // ----- slots -----

  lemma SlotsGet(vars: seq<string>, env: Env, i: nat)
    ensures ArrGet(Undef, SlotsOf(vars, env), i) == if i < |vars| then Lookup(env, vars[i]) else Undef
    ensures Canonical(Undef, SlotsOf(vars, env))
  {
    TrimGet(Undef, seq(|vars|, j requires 0 <= j < |vars| => Lookup(env, vars[j])), i);
  }

  /** Names have distinct slots, so storing through one name changes no other. */
  lemma SlotsSet(vars: seq<string>, env: Env, x: string, v: Val)
    requires x in vars && Distinct(vars)
    ensures ArrSet(Undef, SlotsOf(vars, env), Find(vars, x), v) == SlotsOf(vars, Update(env, x, v))
  {
    var s, s' := SlotsOf(vars, env), SlotsOf(vars, Update(env, x, v));
    var n := Find(vars, x);
    SlotsGet(vars, env, 0);
    SlotsGet(vars, Update(env, x, v), 0);
    ArrSetGet(Undef, s, n, v);
    forall i: nat ensures ArrGet(Undef, ArrSet(Undef, s, n, v), i) == ArrGet(Undef, s', i) {
      SlotsGet(vars, env, i);
      SlotsGet(vars, Update(env, x, v), i);
    }
    CanonicalUnique(Undef, ArrSet(Undef, s, n, v), s');
  }

  // ----- single instructions -----

  lemma RunPush(c: Ctx, b: nat, n: int, st: seq<Val>, env: Env, mem: Mem)
    requires CodeAt(c.p.code, b, [Push(n)])
    ensures Step(c.p, Cfg(c, b, st, env, mem)) == Next(Cfg(c, b + 1, st + [Num(n)], env, mem))
    ensures Reaches(c.p, Cfg(c, b, st, env, mem), Cfg(c, b + 1, st + [Num(n)], env, mem))
  {
    hide SlotsOf;
    Cell(c.p.code, b, [Push(n)], 0);
    OneStep(c.p, Cfg(c, b, st, env, mem));
  }

  lemma PopPush(st: seq<Val>, v: Val)
    ensures Top(st + [v], 0) == v && Pop(st + [v], 1) == st
  {
  }

  lemma PopPush2(st: seq<Val>, v: Val, w: Val)
    ensures Top(st + [v] + [w], 0) == w && Top(st + [v] + [w], 1) == v
    ensures Pop(st + [v] + [w], 1) == st + [v]
    ensures Pop(st + [v] + [w], 2) == st
  {
  }

  lemma RunConstant(c: Ctx, b: nat, s: string, st: seq<Val>, env: Env, mem: Mem)
    requires c.p.consts == c.t.consts && s in c.t.consts && CodeAt(c.p.code, b, Constant(s, c.t))
    ensures Reaches(c.p, Cfg(c, b, st, env, mem), Cfg(c, b + 2, st + [Str(s)], env, mem))
  {
    hide SlotsOf, Meets;
    var n := Find(c.t.consts, s);
    SplitAt(c.p.code, b, [Push(n)], [Do(CONSTANT)]);
    RunPush(c, b, n, st, env, mem);
    Cell(c.p.code, b + 1, [Do(CONSTANT)], 0);
    PopPush(st, Num(n));
    var mid := Cfg(c, b + 1, st + [Num(n)], env, mem);
    assert Step(c.p, mid) == Next(Cfg(c, b + 2, st + [Str(s)], env, mem));
    OneStep(c.p, mid);
    Chain(c.p, Cfg(c, b, st, env, mem), mid, Comes(Step(c.p, mid)));
  }

  lemma RunGetVar(c: Ctx, b: nat, x: string, st: seq<Val>, env: Env, mem: Mem)
    requires x in c.t.vars && CodeAt(c.p.code, b, GetVar(x, c.t))
    ensures Reaches(c.p, Cfg(c, b, st, env, mem), Cfg(c, b + 2, st + [Lookup(env, x)], env, mem))
  {
    hide SlotsOf, Meets;
    var n := Find(c.t.vars, x);
    SplitAt(c.p.code, b, [Push(n)], [Do(GETVAR)]);
    RunPush(c, b, n, st, env, mem);
    Cell(c.p.code, b + 1, [Do(GETVAR)], 0);
    PopPush(st, Num(n));
    SlotsGet(c.t.vars, env, n);
    var mid := Cfg(c, b + 1, st + [Num(n)], env, mem);
    assert Step(c.p, mid) == Next(Cfg(c, b + 2, st + [Lookup(env, x)], env, mem));
    OneStep(c.p, mid);
    Chain(c.p, Cfg(c, b, st, env, mem), mid, Comes(Step(c.p, mid)));
  }

  lemma RunSetVar(c: Ctx, b: nat, x: string, v: Val, st: seq<Val>, env: Env, mem: Mem)
    requires x in c.t.vars && Distinct(c.t.vars) && CodeAt(c.p.code, b, SetVar(x, c.t))
    ensures Reaches(c.p, Cfg(c, b, st + [v], env, mem), Cfg(c, b + 2, st, Update(env, x, v), mem))
  {
    hide SlotsOf, Meets;
    var n := Find(c.t.vars, x);
    SplitAt(c.p.code, b, [Push(n)], [Do(SETVAR)]);
    RunPush(c, b, n, st + [v], env, mem);
    Cell(c.p.code, b + 1, [Do(SETVAR)], 0);
    PopPush2(st, v, Num(n));
    SlotsSet(c.t.vars, env, x, v);
    var mid := Cfg(c, b + 1, st + [v] + [Num(n)], env, mem);
    assert Step(c.p, mid) == Next(Cfg(c, b + 2, st, Update(env, x, v), mem));
    OneStep(c.p, mid);
    Chain(c.p, Cfg(c, b, st + [v], env, mem), mid, Comes(Step(c.p, mid)));
  }

  lemma RunBinary(c: Ctx, k: nat, b: nat, op: BinOp, v2: Val, v1: Val, st: seq<Val>, env: Env, mem: Mem)
    requires CodeAt(c.p.code, b, [Do(OpFor(op))])
    ensures Meets(c.p, Cfg(c, b, st + [v2] + [v1], env, mem),
                  GoalOf(c, FromValue(Binary(op, v1, v2, mem), env), k, b + 1, st))
  {
    hide SlotsOf, Meets, Binary;
    Cell(c.p.code, b, [Do(OpFor(op))], 0);
    PopPush2(st, v2, v1);
    OneStep(c.p, Cfg(c, b, st + [v2] + [v1], env, mem));
  }

  lemma RunNegate(c: Ctx, k: nat, b: nat, v: Val, st: seq<Val>, env: Env, mem: Mem)
    requires CodeAt(c.p.code, b, [Do(NEGATE)])
    ensures Meets(c.p, Cfg(c, b, st + [v], env, mem), GoalOf(c, FromValue(ValNeg(v, mem), env), k, b + 1, st))
  {
    hide SlotsOf, Meets, ValNeg;
    Cell(c.p.code, b, [Do(NEGATE)], 0);
    PopPush(st, v);
    OneStep(c.p, Cfg(c, b, st + [v], env, mem));
  }

  lemma RunIndex(c: Ctx, k: nat, b: nat, i: Val, x: Val, st: seq<Val>, env: Env, mem: Mem)
    requires CodeAt(c.p.code, b, [Do(INDEX1)])
    ensures Meets(c.p, Cfg(c, b, st + [i] + [x], env, mem),
                  GoalOf(c, FromValue(ValIndex(x, i, mem), env), k, b + 1, st))
  {
    hide SlotsOf, Meets, ValIndex;
    Cell(c.p.code, b, [Do(INDEX1)], 0);
    PopPush2(st, i, x);
    OneStep(c.p, Cfg(c, b, st + [i] + [x], env, mem));
  }

  lemma RunIndexAssign(c: Ctx, k: nat, b: nat, v: Val, i: Val, x: Val, st: seq<Val>, env: Env, mem: Mem)
    requires CodeAt(c.p.code, b, [Do(INDEXAS)])
    ensures Meets(c.p, Cfg(c, b, st + [v] + [i] + [x], env, mem),
                  GoalOf(c, FromValue(ValIndexAssign(x, i, v, mem), env), k, b + 1, st))
  {
    hide SlotsOf, Meets, ValIndexAssign;
    Cell(c.p.code, b, [Do(INDEXAS)], 0);
    var st' := st + [v] + [i] + [x];
    assert Top(st', 0) == x && Top(st', 1) == i && Top(st', 2) == v && Pop(st', 3) == st;
    OneStep(c.p, Cfg(c, b, st', env, mem));
  }

  lemma RunDiscard(c: Ctx, b: nat, v: Val, st: seq<Val>, env: Env, mem: Mem)
    requires CodeAt(c.p.code, b, [Do(DISCARD)])
    ensures Reaches(c.p, Cfg(c, b, st + [v], env, mem), Cfg(c, b + 1, st, env, mem))
  {
    hide SlotsOf, Meets;
    Cell(c.p.code, b, [Do(DISCARD)], 0);
    PopPush(st, v);
    OneStep(c.p, Cfg(c, b, st + [v], env, mem));
  }

  lemma RunJump(c: Ctx, b: nat, target: nat, st: seq<Val>, env: Env, mem: Mem)
    requires CodeAt(c.p.code, b, [Push(target), Do(JUMP)])
    ensures Step(c.p, Cfg(c, b, st, env, mem)) == Next(Cfg(c, b + 1, st + [Num(target)], env, mem))
    ensures Step(c.p, Cfg(c, b + 1, st + [Num(target)], env, mem)) == Next(Cfg(c, target, st, env, mem))
    ensures Reaches(c.p, Cfg(c, b, st, env, mem), Cfg(c, target, st, env, mem))
  {
    hide SlotsOf, Meets;
    assert [Push(target), Do(JUMP)] == [Push(target)] + [Do(JUMP)];
    SplitAt(c.p.code, b, [Push(target)], [Do(JUMP)]);
    RunPush(c, b, target, st, env, mem);
    Cell(c.p.code, b + 1, [Do(JUMP)], 0);
    PopPush(st, Num(target));
    var mid := Cfg(c, b + 1, st + [Num(target)], env, mem);
    OneStep(c.p, mid);
    Chain(c.p, Cfg(c, b, st, env, mem), mid, Comes(Step(c.p, mid)));
  }

  lemma RunJumpF(c: Ctx, b: nat, target: nat, v: Val, st: seq<Val>, env: Env, mem: Mem)
    requires CodeAt(c.p.code, b, [Push(target), Do(JUMPF)])
    ensures Reaches(c.p, Cfg(c, b, st + [v], env, mem),
                    Cfg(c, if ToBool(v, mem) then b + 2 else target, st, env, mem))
  {
    hide SlotsOf, Meets, ToBool;
    assert [Push(target), Do(JUMPF)] == [Push(target)] + [Do(JUMPF)];
    SplitAt(c.p.code, b, [Push(target)], [Do(JUMPF)]);
    RunPush(c, b, target, st + [v], env, mem);
    Cell(c.p.code, b + 1, [Do(JUMPF)], 0);
    PopPush2(st, v, Num(target));
    var mid := Cfg(c, b + 1, st + [v] + [Num(target)], env, mem);
    OneStep(c.p, mid);
    Chain(c.p, Cfg(c, b, st + [v], env, mem), mid, Comes(Step(c.p, mid)));
  }

  lemma RunRet(c: Ctx, b: nat, st: seq<Val>, env: Env, mem: Mem)
    requires CodeAt(c.p.code, b, [Do(RET)])
    ensures Reaches(c.p, Cfg(c, b, st, env, mem), State(c.ret + 1, st, c.callers, mem))
  {
    hide SlotsOf, Meets;
    Cell(c.p.code, b, [Do(RET)], 0);
    var s := Cfg(c, b, st, env, mem);
    assert s.frames[..|s.frames| - 1] == c.callers;
    OneStep(c.p, s);
  }
}
