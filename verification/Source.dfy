/** The statement language of sqlinked.y and its meaning.  The interpreter is fuel-indexed: fuel bounds
    the nesting of loop iterations and function calls, and running out of it is the outcome `Timeout`. */
module Source {
  import opened Arrays
  import opened Values

  datatype Expr =
    | Number(n: nat)
    | Text(s: string)
    | Var(x: string)
    | Bin(op: BinOp, left: Expr, right: Expr)
    | Neg(e: Expr)
    | Assign(x: string, e: Expr)
    | Index(x: string, i: Expr)
    | IndexAssign(x: string, i: Expr, e: Expr)
    | Array(elems: Exprs)
    | Call(f: string, args: Exprs)
    | If(cond: Expr, thn: Exprs, els: Exprs)
    | While(cond: Expr, body: Exprs)
    | Return(e: Expr)

  /** The parser builds statement, element and argument lists as left-nested chains. */
  datatype Exprs = Nil | Snoc(init: Exprs, last: Expr) {
    function Length(): nat {
      if Nil? then 0 else init.Length() + 1
    }
  }

  datatype Func = Func(name: string, params: seq<string>, body: Exprs)

  /** All function definitions first, then the main statements. */
  datatype Program = Program(funs: seq<Func>, main: Exprs, native: Natives)

  /** Functions are found by name at run time; a later definition replaces an earlier one. */
  function FindFunc(funs: seq<Func>, name: string): (r: Option<Func>)
    ensures r.Some? ==> r.value in funs && r.value.name == name
    ensures r.None? ==> forall f :: f in funs ==> f.name != name
  {
    if funs == [] then None
    else if funs[|funs| - 1].name == name then Some(funs[|funs| - 1])
    else FindFunc(funs[..|funs| - 1], name)
  }

  datatype Option<+T> = None | Some(value: T)

  type Env = map<string, Val>

  function Lookup(env: Env, x: string): Val {
    if x in env then env[x] else Undef
  }

  /** Storing undef into a variable leaves it unchanged. */
  function Update(env: Env, x: string, v: Val): Env {
    if v == Undef then env else env[x := v]
  }

  function Bind(params: seq<string>, vs: seq<Val>): Env {
    if params == [] || vs == [] then map[]
    else Update(Bind(params[1..], vs[1..]), params[0], vs[0])
  }

  datatype Outcome<+T> =
    | Done(value: T, env: Env, mem: Mem)
    | Returned(result: Val, mem: Mem)
    | Halted(mem: Mem)
    | Undefined
    | Timeout
  {
    predicate IsFailure() {
      !Done?
    }

    function PropagateFailure<U>(): Outcome<U>
      requires IsFailure()
    {
      match this
      case Returned(v, m) => Outcome.Returned(v, m)
      case Halted(m) => Outcome.Halted(m)
      case Undefined => Outcome.Undefined
      case Timeout => Outcome.Timeout
    }

    function Extract(): (T, Env, Mem)
      requires Done?
    {
      (value, env, mem)
    }
  }

  function FromValue(r: ValResult, env: Env): Outcome<Val> {
    match r
    case Value(v, mem) => Done(v, env, mem)
    case Undefined => Outcome.Undefined
  }

  function FromNative(r: NativeResult, env: Env, mem: Mem): Outcome<Val> {
    match r
    case Returns(v, m) => Done(v, env, m)
    case Missing => Done(Undef, env, mem)
    case Exits(m) => Halted(m)
    case Crashes => Outcome.Undefined
  }

  /** What a call yields once the body of the function has run. */
  function FromBody(o: Outcome<seq<Val>>, env: Env): Outcome<Val> {
    match o
    case Done(_, _, m) => Done(Num(0), env, m)
    case Returned(v, m) => Done(v, env, m)
    case Halted(m) => Halted(m)
    case Undefined => Outcome.Undefined
    case Timeout => Timeout
  }

  /** Operands, elements and arguments are evaluated right to left. */
  function Eval(p: Program, k: nat, e: Expr, env: Env, mem: Mem): Outcome<Val>
    decreases k, 1, e
  {
    match e
    case Number(n) => Done(Num(n), env, mem)
    case Text(s) => Done(Str(s), env, mem)
    case Var(x) => Done(Lookup(env, x), env, mem)
    case Bin(op, l, r) =>
      var (v2, env1, mem1) :- Eval(p, k, r, env, mem);
      var (v1, env2, mem2) :- Eval(p, k, l, env1, mem1);
      FromValue(Binary(op, v1, v2, mem2), env2)
    case Neg(a) =>
      var (v, env1, mem1) :- Eval(p, k, a, env, mem);
      FromValue(ValNeg(v, mem1), env1)
    case Assign(x, a) =>
      var (v, env1, mem1) :- Eval(p, k, a, env, mem);
      var env2 := Update(env1, x, v);
      Done(Lookup(env2, x), env2, mem1)
    case Index(x, i) =>
      var (vi, env1, mem1) :- Eval(p, k, i, env, mem);
      FromValue(ValIndex(Lookup(env1, x), vi, mem1), env1)
    case IndexAssign(x, i, a) =>
      var (v, env1, mem1) :- Eval(p, k, a, env, mem);
      var (vi, env2, mem2) :- Eval(p, k, i, env1, mem1);
      FromValue(ValIndexAssign(Lookup(env2, x), vi, v, mem2), env2)
    case Array(es) =>
      var (vs, env1, mem1) :- EvalList(p, k, es, env, mem);
      FromValue(MakeArray(vs, mem1), env1)
    case Call(f, args) =>
      var (vs, env1, mem1) :- EvalList(p, k, args, env, mem);
      EvalCall(p, k, f, vs, env1, mem1)
    case If(c, t, f) =>
      var (v, env1, mem1) :- Eval(p, k, c, env, mem);
      var (_, env2, mem2) :- EvalStmts(p, k, if ToBool(v, mem1) then t else f, env1, mem1);
      Done(Num(0), env2, mem2)
    case While(c, body) =>
      var (v, env1, mem1) :- Eval(p, k, c, env, mem);
      if !ToBool(v, mem1) then Done(Num(0), env1, mem1)
      else
        var (_, env2, mem2) :- EvalStmts(p, k, body, env1, mem1);
        if k == 0 then Timeout else Eval(p, k - 1, e, env2, mem2)
    case Return(a) =>
      var (v, _, mem1) :- Eval(p, k, a, env, mem);
      Returned(v, mem1)
  }

  function EvalCall(p: Program, k: nat, f: string, vs: seq<Val>, env: Env, mem: Mem): Outcome<Val>
    decreases k, 0
  {
    match FindFunc(p.funs, f)
    case Some(fn) =>
      if k == 0 then Timeout
      else FromBody(EvalStmts(p, k - 1, fn.body, Bind(fn.params, vs), mem), env)
    case None =>
      FromNative(p.native(f, ArrFill(Undef, [], 0, vs), mem), env, mem)
  }

  /** The values of an argument list, in source order. */
  function EvalList(p: Program, k: nat, es: Exprs, env: Env, mem: Mem): Outcome<seq<Val>>
    decreases k, 1, es
  {
    match es
    case Nil => Done([], env, mem)
    case Snoc(init, last) =>
      var (v, env1, mem1) :- Eval(p, k, last, env, mem);
      var (vs, env2, mem2) :- EvalList(p, k, init, env1, mem1);
      Done(vs + [v], env2, mem2)
  }

  function EvalStmts(p: Program, k: nat, es: Exprs, env: Env, mem: Mem): Outcome<seq<Val>>
    decreases k, 1, es
  {
    match es
    case Nil => Done([], env, mem)
    case Snoc(init, last) =>
      var (_, env1, mem1) :- EvalStmts(p, k, init, env, mem);
      var (_, env2, mem2) :- Eval(p, k, last, env1, mem1);
      Done([], env2, mem2)
  }

  /** A program run: the main statements from the empty environment. */
  function EvalProgram(p: Program, k: nat, mem: Mem): Outcome<seq<Val>> {
    EvalStmts(p, k, p.main, map[], mem)
  }

  // ----- the well-formed fragment -----

  predicate Distinct(xs: seq<string>) {
    forall i, j :: 0 <= i < j < |xs| ==> xs[i] != xs[j]
  }

  /** `ret` says that a `return` may stand here: inside a function, with no operand pending.
      A call of a defined function passes no more arguments than it has parameters. */
  predicate WellFormed(funs: seq<Func>, e: Expr, ret: bool)
    decreases e
  {
    match e
    case Number(n) => n <= INT_MAX
    case Text(_) => true
    case Var(_) => true
    case Bin(_, l, r) => WellFormed(funs, r, ret) && WellFormed(funs, l, false)
    case Neg(a) => WellFormed(funs, a, ret)
    case Assign(_, a) => WellFormed(funs, a, ret)
    case Index(_, i) => WellFormed(funs, i, ret)
    case IndexAssign(_, i, a) => WellFormed(funs, a, ret) && WellFormed(funs, i, false)
    case Array(es) => WellFormedList(funs, es, ret)
    case Call(f, args) =>
      && WellFormedList(funs, args, ret)
      && (FindFunc(funs, f).Some? ==> args.Length() <= |FindFunc(funs, f).value.params|)
    case If(c, t, f) =>
      WellFormed(funs, c, ret) && WellFormedStmts(funs, t, ret) && WellFormedStmts(funs, f, ret)
    case While(c, body) => WellFormed(funs, c, ret) && WellFormedStmts(funs, body, ret)
    case Return(a) => ret && WellFormed(funs, a, ret)
  }

  predicate WellFormedList(funs: seq<Func>, es: Exprs, ret: bool)
    decreases es
  {
    es.Snoc? ==> WellFormed(funs, es.last, ret) && WellFormedList(funs, es.init, false)
  }

  predicate WellFormedStmts(funs: seq<Func>, es: Exprs, ret: bool)
    decreases es
  {
    es.Snoc? ==> WellFormedStmts(funs, es.init, ret) && WellFormed(funs, es.last, ret)
  }

  predicate WellFormedProgram(p: Program) {
    && (forall f :: f in p.funs ==> Distinct(f.params) && WellFormedStmts(p.funs, f.body, true))
    && WellFormedStmts(p.funs, p.main, false)
  }
}
