/** The induction behind compiler correctness, one lemma per form of node. */
module Correctness {
  import opened Arrays
  import opened Values
  import opened Bytecode
  import opened Source
  import opened Machine
  import opened Codegen
  import opened Simulation

  // ----- the interpreter returns only where a return may stand -----

  lemma {:induction false} NoReturn(p: Program, k: nat, e: Expr, env: Env, mem: Mem)
    requires WellFormed(p.funs, e, false)
    ensures !Eval(p, k, e, env, mem).Returned?
    decreases k, e
  {
    hide Binary, ValNeg, ValIndex, ValIndexAssign, MakeArray, FindFunc;
    match e
    case Number(_) =>
    case Text(_) =>
    case Var(_) =>
    case Bin(_, l, r) =>
      NoReturn(p, k, r, env, mem);
      var o := Eval(p, k, r, env, mem);
      if o.Done? { NoReturn(p, k, l, o.env, o.mem); }
    case Neg(a) => NoReturn(p, k, a, env, mem);
    case Assign(_, a) => NoReturn(p, k, a, env, mem);
    case Index(_, i) => NoReturn(p, k, i, env, mem);
    case IndexAssign(_, i, a) =>
      NoReturn(p, k, a, env, mem);
      var o := Eval(p, k, a, env, mem);
      if o.Done? { NoReturn(p, k, i, o.env, o.mem); }
    case Array(es) => NoReturnList(p, k, es, env, mem);
    case Call(f, args) => NoReturnList(p, k, args, env, mem);
    case If(c, t, f) =>
      NoReturn(p, k, c, env, mem);
      var o := Eval(p, k, c, env, mem);
      if o.Done? { NoReturnStmts(p, k, if ToBool(o.value, o.mem) then t else f, o.env, o.mem); }
    case While(c, body) =>
      NoReturn(p, k, c, env, mem);
      var o := Eval(p, k, c, env, mem);
      if o.Done? {
        NoReturnStmts(p, k, body, o.env, o.mem);
        var o1 := EvalStmts(p, k, body, o.env, o.mem);
        if o1.Done? && k > 0 { NoReturn(p, k - 1, e, o1.env, o1.mem); }
      }
  }

  lemma {:induction false} NoReturnList(p: Program, k: nat, es: Exprs, env: Env, mem: Mem)
    requires WellFormedList(p.funs, es, false)
    ensures !EvalList(p, k, es, env, mem).Returned?
    decreases k, es
  {
    if es.Snoc? {
      NoReturn(p, k, es.last, env, mem);
      var o := Eval(p, k, es.last, env, mem);
      if o.Done? { NoReturnList(p, k, es.init, o.env, o.mem); }
    }
  }

  lemma {:induction false} NoReturnStmts(p: Program, k: nat, es: Exprs, env: Env, mem: Mem)
    requires WellFormedStmts(p.funs, es, false)
    ensures !EvalStmts(p, k, es, env, mem).Returned?
    decreases k, es
  {
    if es.Snoc? {
      NoReturnStmts(p, k, es.init, env, mem);
      var o := EvalStmts(p, k, es.init, env, mem);
      if o.Done? { NoReturn(p, k, es.last, o.env, o.mem); }
    }
  }

  // ----- argument lists and calls -----

  lemma {:induction false} ReverseSnoc(vs: seq<Val>, v: Val)
    ensures Reverse(vs + [v]) == [v] + Reverse(vs)
    decreases |vs|
  {
    if vs != [] {
      assert (vs + [v])[1..] == vs[1..] + [v];
      ReverseSnoc(vs[1..], v);
    }
  }

  /** Popping an argument list gives it back in source order. */
  lemma {:induction false} PopReverse(st: seq<Val>, vs: seq<Val>)
    ensures PopList(st + Reverse(vs), |vs|) == vs && Pop(st + Reverse(vs), |vs|) == st
    decreases |vs|
  {
    if vs != [] {
      assert st + Reverse(vs) == st + Reverse(vs[1..]) + [vs[0]];
      PopPush(st + Reverse(vs[1..]), vs[0]);
      PopReverse(st, vs[1..]);
    }
  }

  lemma PopUnder(st: seq<Val>, rs: seq<Val>, v: Val)
    ensures Top(st + rs + [v], 0) == v
    ensures Pop(st + rs + [v], 1) == st + rs
    ensures Pop(st + rs + [v], |rs| + 1) == st
  {
    assert (st + rs + [v])[..|st|] == st;
  }

  lemma PopReverseUnder(st: seq<Val>, vs: seq<Val>, v: Val)
    ensures Top(st + Reverse(vs) + [v], 0) == v
    ensures Pop(st + Reverse(vs) + [v], 1) == st + Reverse(vs)
    ensures Pop(st + Reverse(vs) + [v], |vs| + 1) == st
  {
    hide Reverse, Pop, Top;
    PopUnder(st, Reverse(vs), v);
  }

  lemma RunMkArray(c: Ctx, k: nat, b: nat, vs: seq<Val>, st: seq<Val>, env: Env, mem: Mem)
    requires CodeAt(c.p.code, b, [Push(|vs|), Do(MKARRAY)])
    ensures Meets(c.p, Cfg(c, b, st + Reverse(vs), env, mem),
                  GoalOf(c, FromValue(MakeArray(vs, mem), env), k, b + 2, st))
  {
    hide SlotsOf, Meets, MakeArray, CodeAt, Pop, Top, PopList, Reverse;
    assert [Push(|vs|), Do(MKARRAY)] == [Push(|vs|)] + [Do(MKARRAY)];
    SplitAt(c.p.code, b, [Push(|vs|)], [Do(MKARRAY)]);
    RunPush(c, b, |vs|, st + Reverse(vs), env, mem);
    Cell(c.p.code, b + 1, [Do(MKARRAY)], 0);
    PopReverseUnder(st, vs, Num(|vs|));
    PopReverse(st, vs);
    var mid := Cfg(c, b + 1, st + Reverse(vs) + [Num(|vs|)], env, mem);
    StepMkArrayIs(c, k, b + 1, vs, st + Reverse(vs), st, mid, env);
    OneStep(c.p, mid);
    hide GoalOf, Step, Cfg;
    Chain(c.p, Cfg(c, b, st + Reverse(vs), env, mem), mid, Comes(Step(c.p, mid)));
  }

  lemma StepMkArrayIs(c: Ctx, k: nat, b: nat, vs: seq<Val>, rest: seq<Val>, st: seq<Val>, s: State, env: Env)
    requires b < |c.p.code| && c.p.code[b] == Do(MKARRAY)
    requires s.pc == b && s.frames == c.callers + [Frame(c.ret, c.loops, SlotsOf(c.t.vars, env))]
    requires |s.stack| == |rest| + 1 && |vs| <= |rest|
    requires Top(s.stack, 0) == Num(|vs|) && Pop(s.stack, 1) == rest && Pop(s.stack, |vs| + 1) == st
    requires PopList(rest, |vs|) == vs
    ensures Comes(Step(c.p, s)) == GoalOf(c, FromValue(MakeArray(vs, s.mem), env), k, b + 1, st)
  {
    hide SlotsOf, MakeArray, Pop, Top, PopList;
  }

  lemma {:induction false} BindLookup(params: seq<string>, vs: seq<Val>, i: nat)
    requires Distinct(params) && i < |params|
    ensures Lookup(Bind(params, vs), params[i]) == if i < |vs| then vs[i] else Undef
    decreases |params|
  {
    if vs != [] {
      assert Distinct(params[1..]);
      if i > 0 {
        assert params[0] != params[i];
        BindLookup(params[1..], vs[1..], i - 1);
      } else {
        BindUnbound(params[1..], vs[1..], params[0]);
      }
    }
  }

  lemma {:induction false} BindUnbound(params: seq<string>, vs: seq<Val>, x: string)
    requires x !in params
    ensures Lookup(Bind(params, vs), x) == Undef
    decreases |params|
  {
    if params != [] && vs != [] {
      BindUnbound(params[1..], vs[1..], x);
    }
  }

  lemma {:induction false} ParamVarsDistinct(params: seq<string>)
    ensures Distinct(ParamVars(params))
    ensures forall x :: x in ParamVars(params) <==> x in params
    ensures Distinct(params) ==> ParamVars(params) == params
    decreases |params|
  {
    if params != [] {
      var init := params[..|params| - 1];
      assert params == init + [params[|params| - 1]];
      ParamVarsDistinct(init);
      assert Distinct(params) ==> Distinct(init) && params[|params| - 1] !in init;
    }
  }

  // ----- the variable table only grows, and stays free of duplicates -----

  predicate Grows(xs: seq<string>, ys: seq<string>) {
    xs <= ys && (Distinct(xs) ==> Distinct(ys))
  }

  lemma AddGrows(xs: seq<string>, x: string)
    ensures Grows(xs, Add(xs, x)) && x in Add(xs, x)
  {
    assert Add(xs, x)[|Add(xs, x)| - 1] == x || x in xs;
  }

  lemma {:induction false} VarsGrow(e: Expr, vars: seq<string>)
    ensures Grows(vars, VarsAfter(e, vars))
    decreases e
  {
    match e
    case Number(_) =>
    case Text(_) =>
    case Var(x) => AddGrows(vars, x);
    case Bin(_, l, r) => VarsGrow(r, vars); VarsGrow(l, VarsAfter(r, vars));
    case Neg(a) => VarsGrow(a, vars);
    case Assign(x, a) => VarsGrow(a, vars); AddGrows(VarsAfter(a, vars), x);
    case Index(x, i) => VarsGrow(i, vars); AddGrows(VarsAfter(i, vars), x);
    case IndexAssign(x, i, a) =>
      VarsGrow(a, vars);
      VarsGrow(i, VarsAfter(a, vars));
      AddGrows(VarsAfter(i, VarsAfter(a, vars)), x);
    case Array(es) => VarsGrowList(es, vars);
    case Call(_, args) => VarsGrowList(args, vars);
    case If(c, t, f) =>
      VarsGrow(c, vars);
      VarsGrowStmts(t, VarsAfter(c, vars));
      VarsGrowStmts(f, VarsAfterStmts(t, VarsAfter(c, vars)));
    case While(c, body) => VarsGrow(c, vars); VarsGrowStmts(body, VarsAfter(c, vars));
    case Return(a) => VarsGrow(a, vars);
  }

  lemma {:induction false} VarsGrowList(es: Exprs, vars: seq<string>)
    ensures Grows(vars, VarsAfterList(es, vars))
    decreases es
  {
    if es.Snoc? { VarsGrow(es.last, vars); VarsGrowList(es.init, VarsAfter(es.last, vars)); }
  }

  lemma {:induction false} VarsGrowStmts(es: Exprs, vars: seq<string>)
    ensures Grows(vars, VarsAfterStmts(es, vars))
    decreases es
  {
    if es.Snoc? { VarsGrowStmts(es.init, vars); VarsGrow(es.last, VarsAfterStmts(es.init, vars)); }
  }

  /** What the callee's frame and the interpreter's environment hold for the i-th allocated name. */
  lemma ArgumentAt(params: seq<string>, vars: seq<string>, vs: seq<Val>, i: nat)
    requires Distinct(vars) && params <= vars && |vs| <= |params| && i < |vars|
    ensures Lookup(Bind(params, vs), vars[i]) == ArrGet(Undef, vs, i)
  {
    hide Bind, Lookup;
    if i < |params| {
      BindLookup(params, vs, i);
    } else {
      assert forall j :: 0 <= j < |params| ==> params[j] == vars[j] && vars[j] != vars[i];
      BindUnbound(params, vs, vars[i]);
    }
  }

  lemma ArgumentsInSlots(params: seq<string>, vars: seq<string>, vs: seq<Val>)
    requires Distinct(vars) && params <= vars && |vs| <= |params|
    ensures Trim(Undef, vs) == SlotsOf(vars, Bind(params, vs))
  {
    hide Bind, Lookup, SlotsOf, Distinct, Trim;
    var s := SlotsOf(vars, Bind(params, vs));
    SlotsGet(vars, Bind(params, vs), 0);
    forall i: nat ensures ArrGet(Undef, Trim(Undef, vs), i) == ArrGet(Undef, s, i) {
      TrimGet(Undef, vs, i);
      SlotsGet(vars, Bind(params, vs), i);
      if i < |vars| { ArgumentAt(params, vars, vs, i); }
    }
    CanonicalUnique(Undef, Trim(Undef, vs), s);
  }

  /** The k-th argument is what the callee reads through the slot of its k-th parameter. */
  lemma ArgumentsBecomeSlots(f: Func, vs: seq<Val>)
    requires Distinct(f.params) && |vs| <= |f.params|
    ensures Distinct(FuncVars(f)) && f.params <= FuncVars(f)
    ensures ArrFill(Undef, [], 0, vs) == SlotsOf(FuncVars(f), Bind(f.params, vs))
  {
    hide Bind, SlotsOf, ArrFill;
    ParamVarsDistinct(f.params);
    VarsGrowStmts(f.body, ParamVars(f.params));
    ArrFillIsTrim(Undef, vs);
    ArgumentsInSlots(f.params, FuncVars(f), vs);
  }

  /** The activation a call creates. */
  function Callee(c: Ctx, f: Func, at: nat, env: Env): Ctx {
    Ctx(c.p, c.src, Tables(FuncVars(f), c.p.consts, c.t.scheme),
        c.callers + [Frame(c.ret, c.loops, SlotsOf(c.t.vars, env))], at, [])
  }

  /** The operands of CALL: the name, the number of arguments, and the arguments, first one on top. */
  lemma CallOperands(s: State, name: string, vs: seq<Val>, st: seq<Val>)
    requires s.stack == st + Reverse(vs) + [Num(|vs|)] + [Str(name)]
    ensures |s.stack| == |st| + |vs| + 2
    ensures Top(s.stack, 0) == Str(name) && Top(s.stack, 1) == Num(|vs|)
    ensures Pop(s.stack, 2) == st + Reverse(vs)
    ensures PopList(st + Reverse(vs), |vs|) == vs && Pop(st + Reverse(vs), |vs|) == st
  {
    hide Reverse;
    PopPush2(st + Reverse(vs), Num(|vs|), Str(name));
    PopReverse(st, vs);
  }

  lemma StepAt(p: Image, s: State, op: Opcode)
    requires 0 <= s.pc && CodeAt(p.code, s.pc, [Do(op)])
    ensures Step(p, s) == StepOp(p, s, op)
  {
    hide StepOp;
    Cell(p.code, s.pc, [Do(op)], 0);
  }

  function CallResult(p: Image, s: State, name: string, args: seq<Val>, st: seq<Val>): StepResult {
    if name in p.funs then Next(State(p.funs[name], st, s.frames + [Frame(s.pc, [], args)], s.mem))
    else
      match p.native(name, args, s.mem)
      case Returns(v, mem) => Next(State(s.pc + 1, st + [v], s.frames, mem))
      case Missing => Next(State(s.pc + 1, st + [Undef], s.frames, s.mem))
      case Exits(mem) => StepResult.Halted(mem)
      case Crashes => StepResult.Undefined
  }

  lemma StepCallIs(p: Image, s: State, name: string, vs: seq<Val>, rest: seq<Val>, st: seq<Val>)
    requires 0 <= s.pc && CodeAt(p.code, s.pc, [Do(CALL)])
    requires |s.stack| == |rest| + 2 && |rest| >= |vs|
    requires Top(s.stack, 0) == Str(name) && Top(s.stack, 1) == Num(|vs|) && Pop(s.stack, 2) == rest
    requires PopList(rest, |vs|) == vs && Pop(rest, |vs|) == st
    ensures Step(p, s) == CallResult(p, s, name, ArrFill(Undef, [], 0, vs), st)
  {
    hide PopList, Pop, Top, ArrFill, CodeAt;
    StepAt(p, s, CALL);
  }

  /** The CALL instruction on a defined function. */
  lemma StepCallDefined(c: Ctx, at: nat, f: Func, vs: seq<Val>, st: seq<Val>, env: Env, mem: Mem)
    requires CodeAt(c.p.code, at, [Do(CALL)])
    requires f.name in c.p.funs && Distinct(f.params) && |vs| <= |f.params|
    ensures Step(c.p, Cfg(c, at, st + Reverse(vs) + [Num(|vs|)] + [Str(f.name)], env, mem)) ==
            Next(Cfg(Callee(c, f, at, env), c.p.funs[f.name], st, Bind(f.params, vs), mem))
  {
    hide SlotsOf, CodeAt, Reverse, ArrFill, FuncVars, Bind, Step, Top, Pop, PopList;
    var s := Cfg(c, at, st + Reverse(vs) + [Num(|vs|)] + [Str(f.name)], env, mem);
    CallOperands(s, f.name, vs, st);
    StepCallIs(c.p, s, f.name, vs, st + Reverse(vs), st);
    ArgumentsBecomeSlots(f, vs);
  }

  lemma NativeGoal(c: Ctx, k: nat, at: nat, f: string, args: seq<Val>, full: seq<Val>, st: seq<Val>,
                   env: Env, mem: Mem)
    requires f !in c.p.funs
    ensures Comes(CallResult(c.p, Cfg(c, at, full, env, mem), f, args, st)) ==
            GoalOf(c, FromNative(c.p.native(f, args, mem), env, mem), k, at + 1, st)
  {
    hide SlotsOf;
  }

  lemma RunNative(c: Ctx, k: nat, at: nat, f: string, vs: seq<Val>, st: seq<Val>, env: Env, mem: Mem)
    requires CodeAt(c.p.code, at, [Do(CALL)]) && f !in c.p.funs
    ensures Meets(c.p, Cfg(c, at, st + Reverse(vs) + [Num(|vs|)] + [Str(f)], env, mem),
                  GoalOf(c, FromNative(c.p.native(f, ArrFill(Undef, [], 0, vs), mem), env, mem), k, at + 1, st))
  {
    hide SlotsOf, CodeAt, Meets, Reverse, ArrFill, Step, Top, Pop, PopList;
    var s := Cfg(c, at, st + Reverse(vs) + [Num(|vs|)] + [Str(f)], env, mem);
    CallOperands(s, f, vs, st);
    StepCallIs(c.p, s, f, vs, st + Reverse(vs), st);
    OneStep(c.p, s);
    NativeGoal(c, k, at, f, ArrFill(Undef, [], 0, vs), s.stack, st, env, mem);
    hide CallResult, GoalOf, FromNative, Cfg;
  }
}
