/** The compiled program as a machine image: every function stands at its entry, and running the
    definitions arrives at the main statements. */
module Linking {
  import opened Values
  import opened Bytecode
  import opened Source
  import opened Machine
  import opened Codegen
  import opened Simulation
  import opened Correctness

  function Compiled(src: Program, scheme: Scheme, remote: Remote): Image {
    var consts := ProgramConsts(src);
    Image(ProgramCode(src, scheme), consts, Entries(src.funs, consts, scheme), src.native, remote)
  }

  // ----- the tables cover every node -----

  lemma {:induction false} ConstsGrow(e: Expr, cs: seq<string>)
    ensures cs <= ConstsAfter(e, cs)
    decreases e
  {
    match e
    case Number(_) =>
    case Text(_) =>
    case Var(_) =>
    case Bin(_, l, r) => ConstsGrow(r, cs); ConstsGrow(l, ConstsAfter(r, cs));
    case Neg(a) => ConstsGrow(a, cs);
    case Assign(_, a) => ConstsGrow(a, cs);
    case Index(_, i) => ConstsGrow(i, cs);
    case IndexAssign(_, i, a) => ConstsGrow(a, cs); ConstsGrow(i, ConstsAfter(a, cs));
    case Array(es) => ConstsGrowList(es, cs);
    case Call(_, args) => ConstsGrowList(args, cs);
    case If(c, t, f) =>
      ConstsGrow(c, cs);
      ConstsGrowStmts(t, ConstsAfter(c, cs));
      ConstsGrowStmts(f, ConstsAfterStmts(t, ConstsAfter(c, cs)));
    case While(c, body) => ConstsGrow(c, cs); ConstsGrowStmts(body, ConstsAfter(c, cs));
    case Return(a) => ConstsGrow(a, cs);
  }

  lemma {:induction false} ConstsGrowList(es: Exprs, cs: seq<string>)
    ensures cs <= ConstsAfterList(es, cs)
    decreases es
  {
    if es.Snoc? { ConstsGrow(es.last, cs); ConstsGrowList(es.init, ConstsAfter(es.last, cs)); }
  }

  lemma {:induction false} ConstsGrowStmts(es: Exprs, cs: seq<string>)
    ensures cs <= ConstsAfterStmts(es, cs)
    decreases es
  {
    if es.Snoc? { ConstsGrowStmts(es.init, cs); ConstsGrow(es.last, ConstsAfterStmts(es.init, cs)); }
  }

  lemma AddCovers(xs: seq<string>, x: string, ys: seq<string>)
    requires Add(xs, x) <= ys
    ensures x in ys && xs <= ys
  {
    AddGrows(xs, x);
    var i := Find(Add(xs, x), x);
    assert ys[i] == x;
  }

  lemma {:induction false} TablesCover(e: Expr, vars: seq<string>, cs: seq<string>, t: Tables)
    requires VarsAfter(e, vars) <= t.vars && ConstsAfter(e, cs) <= t.consts
    ensures Covers(t, e)
    decreases e
  {
    hide Add;
    match e
    case Number(_) =>
    case Text(s) => AddCovers(cs, s, t.consts);
    case Var(x) => AddCovers(vars, x, t.vars);
    case Bin(_, l, r) =>
      VarsGrow(l, VarsAfter(r, vars));
      ConstsGrow(l, ConstsAfter(r, cs));
      TablesCover(r, vars, cs, t);
      TablesCover(l, VarsAfter(r, vars), ConstsAfter(r, cs), t);
    case Neg(a) => TablesCover(a, vars, cs, t);
    case Assign(x, a) =>
      AddCovers(VarsAfter(a, vars), x, t.vars);
      TablesCover(a, vars, cs, t);
    case Index(x, i) =>
      AddCovers(VarsAfter(i, vars), x, t.vars);
      TablesCover(i, vars, cs, t);
    case IndexAssign(x, i, a) =>
      AddCovers(VarsAfter(i, VarsAfter(a, vars)), x, t.vars);
      VarsGrow(i, VarsAfter(a, vars));
      ConstsGrow(i, ConstsAfter(a, cs));
      TablesCover(a, vars, cs, t);
      TablesCover(i, VarsAfter(a, vars), ConstsAfter(a, cs), t);
    case Array(es) => TablesCoverList(es, vars, cs, t);
    case Call(f, args) =>
      AddCovers(ConstsAfterList(args, cs), f, t.consts);
      TablesCoverList(args, vars, cs, t);
    case If(c, th, el) => TablesCoverIf(e, vars, cs, t);
    case While(c, body) =>
      VarsGrowStmts(body, VarsAfter(c, vars));
      ConstsGrowStmts(body, ConstsAfter(c, cs));
      TablesCover(c, vars, cs, t);
      TablesCoverStmts(body, VarsAfter(c, vars), ConstsAfter(c, cs), t);
    case Return(a) => TablesCover(a, vars, cs, t);
  }

  lemma {:induction false} TablesCoverIf(e: Expr, vars: seq<string>, cs: seq<string>, t: Tables)
    requires e.If? && VarsAfter(e, vars) <= t.vars && ConstsAfter(e, cs) <= t.consts
    ensures Covers(t, e)
    decreases e, 0
  {
    var v1, c1 := VarsAfter(e.cond, vars), ConstsAfter(e.cond, cs);
    var v2, c2 := VarsAfterStmts(e.thn, v1), ConstsAfterStmts(e.thn, c1);
    VarsGrowStmts(e.thn, v1);
    ConstsGrowStmts(e.thn, c1);
    VarsGrowStmts(e.els, v2);
    ConstsGrowStmts(e.els, c2);
    TablesCover(e.cond, vars, cs, t);
    TablesCoverStmts(e.thn, v1, c1, t);
    TablesCoverStmts(e.els, v2, c2, t);
  }

  lemma {:induction false} TablesCoverList(es: Exprs, vars: seq<string>, cs: seq<string>, t: Tables)
    requires VarsAfterList(es, vars) <= t.vars && ConstsAfterList(es, cs) <= t.consts
    ensures CoversAll(t, es)
    decreases es
  {
    if es.Snoc? {
      VarsGrowList(es.init, VarsAfter(es.last, vars));
      ConstsGrowList(es.init, ConstsAfter(es.last, cs));
      TablesCover(es.last, vars, cs, t);
      TablesCoverList(es.init, VarsAfter(es.last, vars), ConstsAfter(es.last, cs), t);
    }
  }

  lemma {:induction false} TablesCoverStmts(es: Exprs, vars: seq<string>, cs: seq<string>, t: Tables)
    requires VarsAfterStmts(es, vars) <= t.vars && ConstsAfterStmts(es, cs) <= t.consts
    ensures CoversAll(t, es)
    decreases es
  {
    if es.Snoc? {
      VarsGrow(es.last, VarsAfterStmts(es.init, vars));
      ConstsGrow(es.last, ConstsAfterStmts(es.init, cs));
      TablesCoverStmts(es.init, vars, cs, t);
      TablesCover(es.last, VarsAfterStmts(es.init, vars), ConstsAfterStmts(es.init, cs), t);
    }
  }

  // ----- functions at their entries -----

  lemma FuncCodeParts(code: seq<Instr>, f: Func, b: nat, consts: seq<string>, scheme: Scheme)
    requires CodeAt(code, b, FuncCode(f, b, consts, scheme))
    ensures var body := CodeStmts(f.body, b + 2, Tables(FuncVars(f), consts, scheme));
            && CodeAt(code, b, [Push(b + |body| + 4), Do(JUMP)])
            && CodeAt(code, b + 2, body + [Push(0), Do(RET)])
            && CodeAt(code, b + |body| + 4, [Push(0)])
            && |FuncCode(f, b, consts, scheme)| == |body| + 5
  {
    hide CodeAt, CodeStmts, FuncVars;
    var body := CodeStmts(f.body, b + 2, Tables(FuncVars(f), consts, scheme));
    var jump := [Push(b + 2 + |body| + 2), Do(JUMP)];
    assert FuncCode(f, b, consts, scheme) == jump + (body + [Push(0), Do(RET)]) + [Push(0)];
    SplitAt(code, b, jump + (body + [Push(0), Do(RET)]), [Push(0)]);
    SplitAt(code, b, jump, body + [Push(0), Do(RET)]);
  }

  lemma FuncsCodeParts(code: seq<Instr>, fs: seq<Func>, consts: seq<string>, scheme: Scheme)
    requires fs != [] && CodeAt(code, 0, FuncsCode(fs, consts, scheme))
    ensures var c := FuncsCode(fs[..|fs| - 1], consts, scheme);
            var fc := FuncCode(fs[|fs| - 1], |c|, consts, scheme);
            && CodeAt(code, 0, c) && CodeAt(code, |c|, fc) && CodeAt(code, |c| + |fc|, [Do(DISCARD)])
            && |FuncsCode(fs, consts, scheme)| == |c| + |fc| + 1
  {
    hide CodeAt, FuncCode;
    var c := FuncsCode(fs[..|fs| - 1], consts, scheme);
    var fc := FuncCode(fs[|fs| - 1], |c|, consts, scheme);
    SplitAt(code, 0, c + fc, [Do(DISCARD)]);
    SplitAt(code, 0, c, fc);
  }

  lemma {:induction false} EntriesLinked(p: Image, fs: seq<Func>, scheme: Scheme, name: string)
    requires CodeAt(p.code, 0, FuncsCode(fs, p.consts, scheme)) && ConstsAfterFuncs(fs, []) <= p.consts
    ensures match FindFunc(fs, name)
            case None => name !in Entries(fs, p.consts, scheme)
            case Some(f) => name in Entries(fs, p.consts, scheme) &&
                            FuncAt(p, f, Entries(fs, p.consts, scheme)[name], scheme)
    decreases |fs|
  {
    hide CodeAt;
    if fs != [] {
      var init, f := fs[..|fs| - 1], fs[|fs| - 1];
      FuncsCodeParts(p.code, fs, p.consts, scheme);
      ConstsGrowStmts(f.body, ConstsAfterFuncs(init, []));
      if f.name == name {
        FuncCodeParts(p.code, f, |FuncsCode(init, p.consts, scheme)|, p.consts, scheme);
        TablesCoverStmts(f.body, ParamVars(f.params), ConstsAfterFuncs(init, []),
                         Tables(FuncVars(f), p.consts, scheme));
      } else {
        EntriesLinked(p, init, scheme, name);
      }
    }
  }

  lemma CompiledParts(src: Program, scheme: Scheme, remote: Remote)
    ensures var p := Compiled(src, scheme, remote);
            var c := FuncsCode(src.funs, p.consts, scheme);
            && CodeAt(p.code, 0, c)
            && CodeAt(p.code, |c|, CodeStmts(src.main, |c|, MainTables(src, scheme)))
            && |p.code| == |c| + |CodeStmts(src.main, |c|, MainTables(src, scheme))|
            && ConstsAfterFuncs(src.funs, []) <= p.consts
  {
    ConstsGrowStmts(src.main, ConstsAfterFuncs(src.funs, []));
  }

  /** Run-time lookup by name finds the code of the last definition of that name. */
  lemma CompiledIsLinked(src: Program, scheme: Scheme, remote: Remote)
    requires WellFormedProgram(src)
    ensures Linked(Compiled(src, scheme, remote), src, scheme)
  {
    hide FuncAt, CodeAt, WellFormedProgram;
    var p := Compiled(src, scheme, remote);
    CompiledParts(src, scheme, remote);
    forall name ensures match FindFunc(src.funs, name)
                        case None => name !in p.funs
                        case Some(f) => name in p.funs && FuncAt(p, f, p.funs[name], scheme)
    {
      EntriesLinked(p, src.funs, scheme, name);
    }
  }

  /** The activation of the main statements. */
  function MainCtx(src: Program, scheme: Scheme, remote: Remote): Ctx {
    Ctx(Compiled(src, scheme, remote), src, MainTables(src, scheme), [], 0, [])
  }

  lemma {:induction false} MainVarsDistinct(src: Program)
    ensures Distinct(VarsAfterStmts(src.main, VarsAfterFuncs(src.funs)))
  {
    if src.funs != [] {
      var f := src.funs[|src.funs| - 1];
      ParamVarsDistinct(f.params);
      VarsGrowStmts(f.body, ParamVars(f.params));
    }
    VarsGrowStmts(src.main, VarsAfterFuncs(src.funs));
  }

  lemma MainReady(src: Program, scheme: Scheme, remote: Remote)
    requires WellFormedProgram(src)
    ensures Ready(MainCtx(src, scheme, remote))
    ensures CoversAll(MainTables(src, scheme), src.main)
  {
    hide Linked, CodeAt, WellFormedProgram;
    CompiledIsLinked(src, scheme, remote);
    MainVarsDistinct(src);
    TablesCoverStmts(src.main, VarsAfterFuncs(src.funs), ConstsAfterFuncs(src.funs, []), MainTables(src, scheme));
  }

  /** A definition that is reached jumps over its body, delivers 0 and is discarded. */
  lemma RunDefinition(c: Ctx, f: Func, b: nat, st: seq<Val>, env: Env, mem: Mem)
    requires CodeAt(c.p.code, b, FuncCode(f, b, c.p.consts, c.t.scheme))
    requires CodeAt(c.p.code, b + |FuncCode(f, b, c.p.consts, c.t.scheme)|, [Do(DISCARD)])
    ensures Reaches(c.p, Cfg(c, b, st, env, mem),
                    Cfg(c, b + |FuncCode(f, b, c.p.consts, c.t.scheme)| + 1, st, env, mem))
  {
    hide CodeAt, Meets, Step, SlotsOf, FuncCode, Cfg, CodeStmts;
    FuncCodeParts(c.p.code, f, b, c.p.consts, c.t.scheme);
    var target := b + |FuncCode(f, b, c.p.consts, c.t.scheme)| - 1;
    RunJump(c, b, target, st, env, mem);
    RunPush(c, target, 0, st, env, mem);
    RunDiscard(c, target + 1, Num(0), st, env, mem);
    var goal := Comes(Next(Cfg(c, target + 2, st, env, mem)));
    Chain(c.p, Cfg(c, target, st, env, mem), Cfg(c, target + 1, st + [Num(0)], env, mem), goal);
    Chain(c.p, Cfg(c, b, st, env, mem), Cfg(c, target, st, env, mem), goal);
  }

  lemma {:induction false} RunDefinitions(c: Ctx, fs: seq<Func>, st: seq<Val>, env: Env, mem: Mem)
    requires CodeAt(c.p.code, 0, FuncsCode(fs, c.p.consts, c.t.scheme))
    ensures Reaches(c.p, Cfg(c, 0, st, env, mem),
                    Cfg(c, |FuncsCode(fs, c.p.consts, c.t.scheme)|, st, env, mem))
    decreases |fs|
  {
    hide CodeAt, Meets, Step, SlotsOf, FuncCode, Cfg;
    if fs == [] {
      NoStep(c.p, Cfg(c, 0, st, env, mem));
    } else {
      var init, f := fs[..|fs| - 1], fs[|fs| - 1];
      var b := |FuncsCode(init, c.p.consts, c.t.scheme)|;
      FuncsCodeParts(c.p.code, fs, c.p.consts, c.t.scheme);
      RunDefinitions(c, init, st, env, mem);
      RunDefinition(c, f, b, st, env, mem);
      Chain(c.p, Cfg(c, 0, st, env, mem), Cfg(c, b, st, env, mem),
            Comes(Next(Cfg(c, |FuncsCode(fs, c.p.consts, c.t.scheme)|, st, env, mem))));
    }
  }
}
