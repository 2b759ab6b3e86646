/** Growing the name tables does not change code already generated from them, and every emitted cell is
    one the program builder accepts. */
module Stability {
  import opened Values
  import opened Bytecode
  import opened Source
  import opened Codegen
  import opened Simulation
  import opened Correctness
  import opened Linking

  predicate Extends(t: Tables, t': Tables) {
    t.vars <= t'.vars && t.consts <= t'.consts && t.scheme == t'.scheme
  }

  lemma {:induction false} FindStable(xs: seq<string>, ys: seq<string>, x: string)
    requires x in xs && xs <= ys
    ensures Find(xs, x) == Find(ys, x)
  {
    var i, j := Find(xs, x), Find(ys, x);
    assert ys[i] == x;
    assert j <= i;
    assert xs[j] == x;
  }

  lemma {:induction false} CodeStable(e: Expr, b: nat, t: Tables, t': Tables)
    requires Covers(t, e) && Extends(t, t')
    ensures Code(e, b, t) == Code(e, b, t')
    decreases e
  {
    hide IfCode, WhileCode;
    match e
    case Number(_) =>
    case Text(s) => FindStable(t.consts, t'.consts, s);
    case Var(x) => FindStable(t.vars, t'.vars, x);
    case Bin(_, _, _) => BinStable(e, b, t, t');
    case Neg(a) => CodeStable(a, b, t, t');
    case Assign(x, a) =>
      CodeStable(a, b, t, t');
      FindStable(t.vars, t'.vars, x);
    case Index(x, i) =>
      CodeStable(i, b, t, t');
      FindStable(t.vars, t'.vars, x);
    case IndexAssign(_, _, _) => IndexAssignStable(e, b, t, t');
    case Array(es) => ListStable(es, b, t, t');
    case Call(f, args) =>
      ListStable(args, b, t, t');
      FindStable(t.consts, t'.consts, f);
    case If(_, _, _) => IfStable(e, b, t, t');
    case While(_, _) => WhileStable(e, b, t, t');
    case Return(a) => CodeStable(a, b, t, t');
  }

  lemma {:induction false} BinStable(e: Expr, b: nat, t: Tables, t': Tables)
    requires e.Bin? && Covers(t, e) && Extends(t, t')
    ensures Code(e, b, t) == Code(e, b, t')
    decreases e, 0
  {
    CodeStable(e.right, b, t, t');
    CodeStable(e.left, b + |Code(e.right, b, t)|, t, t');
  }

  lemma {:induction false} IndexAssignStable(e: Expr, b: nat, t: Tables, t': Tables)
    requires e.IndexAssign? && Covers(t, e) && Extends(t, t')
    ensures Code(e, b, t) == Code(e, b, t')
    decreases e, 0
  {
    hide Code, Covers, Extends, GetVar;
    var ca := Code(e.e, b, t);
    IndexAssignCode(e, b, t);
    IndexAssignCode(e, b, t');
    CodeStable(e.e, b, t, t');
    CodeStable(e.i, b + |ca|, t, t');
    VarStable(e.x, t, t');
  }

  lemma IndexAssignCode(e: Expr, b: nat, t: Tables)
    requires e.IndexAssign?
    ensures var ca := Code(e.e, b, t);
            Code(e, b, t) == ca + Code(e.i, b + |ca|, t) + GetVar(e.x, t) + [Do(INDEXAS)]
    ensures Covers(t, e) ==> Covers(t, e.e) && Covers(t, e.i) && e.x in t.vars
  {
  }

  lemma VarStable(x: string, t: Tables, t': Tables)
    requires x in t.vars && Extends(t, t')
    ensures GetVar(x, t) == GetVar(x, t')
  {
    FindStable(t.vars, t'.vars, x);
  }

  lemma {:induction false} IfStable(e: Expr, b: nat, t: Tables, t': Tables)
    requires e.If? && Covers(t, e) && Extends(t, t')
    ensures Code(e, b, t) == Code(e, b, t')
    decreases e, 0
  {
    assert Covers(t, e.cond) && CoversAll(t, e.thn) && CoversAll(t, e.els);
    hide IfCode, Code, CodeStmts, ThenAt, ElseAt, Covers, CoversAll;
    IfCodeIs(e, b, t);
    IfCodeIs(e, b, t');
    var cc := Code(e.cond, b, t);
    var b1 := ThenAt(b, cc, t.scheme);
    CodeStable(e.cond, b, t, t');
    StmtsStable(e.thn, b1, t, t');
    StmtsStable(e.els, ElseAt(b, cc, CodeStmts(e.thn, b1, t), t.scheme), t, t');
  }

  lemma {:induction false} WhileStable(e: Expr, b: nat, t: Tables, t': Tables)
    requires e.While? && Covers(t, e) && Extends(t, t')
    ensures Code(e, b, t) == Code(e, b, t')
    decreases e, 0
  {
    hide WhileCode;
    var b0 := b + LoopGap(t.scheme);
    CodeStable(e.cond, b0, t, t');
    StmtsStable(e.body, b0 + |Code(e.cond, b0, t)| + Gap(t.scheme), t, t');
  }

  lemma {:induction false} ListStable(es: Exprs, b: nat, t: Tables, t': Tables)
    requires CoversAll(t, es) && Extends(t, t')
    ensures CodeList(es, b, t) == CodeList(es, b, t')
    decreases es
  {
    if es.Snoc? {
      CodeStable(es.last, b, t, t');
      ListStable(es.init, b + |Code(es.last, b, t)|, t, t');
    }
  }

  lemma {:induction false} StmtsStable(es: Exprs, b: nat, t: Tables, t': Tables)
    requires CoversAll(t, es) && Extends(t, t')
    ensures CodeStmts(es, b, t) == CodeStmts(es, b, t')
    decreases es
  {
    if es.Snoc? {
      StmtsStable(es.init, b, t, t');
      CodeStable(es.last, b + |CodeStmts(es.init, b, t)|, t, t');
    }
  }

  // ----- tables after a node -----

  function After(e: Expr, t: Tables): Tables {
    Tables(VarsAfter(e, t.vars), ConstsAfter(e, t.consts), t.scheme)
  }

  function AfterList(es: Exprs, t: Tables): Tables {
    Tables(VarsAfterList(es, t.vars), ConstsAfterList(es, t.consts), t.scheme)
  }

  function AfterStmts(es: Exprs, t: Tables): Tables {
    Tables(VarsAfterStmts(es, t.vars), ConstsAfterStmts(es, t.consts), t.scheme)
  }

  /** The tables after a node cover it, and so does every extension of them. */
  lemma AfterCovers(e: Expr, t: Tables)
    ensures Covers(After(e, t), e) && Extends(t, After(e, t))
    ensures Distinct(t.vars) ==> Distinct(After(e, t).vars)
  {
    VarsGrow(e, t.vars);
    ConstsGrow(e, t.consts);
    TablesCover(e, t.vars, t.consts, After(e, t));
  }

  lemma AfterListCovers(es: Exprs, t: Tables)
    ensures CoversAll(AfterList(es, t), es) && Extends(t, AfterList(es, t))
    ensures Distinct(t.vars) ==> Distinct(AfterList(es, t).vars)
  {
    VarsGrowList(es, t.vars);
    ConstsGrowList(es, t.consts);
    TablesCoverList(es, t.vars, t.consts, AfterList(es, t));
  }

  lemma AfterStmtsCovers(es: Exprs, t: Tables)
    ensures CoversAll(AfterStmts(es, t), es) && Extends(t, AfterStmts(es, t))
    ensures Distinct(t.vars) ==> Distinct(AfterStmts(es, t).vars)
  {
    VarsGrowStmts(es, t.vars);
    ConstsGrowStmts(es, t.consts);
    TablesCoverStmts(es, t.vars, t.consts, AfterStmts(es, t));
  }

  // ----- emitted cells -----

  /** Literals are C ints. */
  predicate Literals(e: Expr)
    decreases e
  {
    match e
    case Number(n) => n <= INT_MAX
    case Text(_) => true
    case Var(_) => true
    case Bin(_, l, r) => Literals(l) && Literals(r)
    case Neg(a) => Literals(a)
    case Assign(_, a) => Literals(a)
    case Index(_, i) => Literals(i)
    case IndexAssign(_, i, a) => Literals(i) && Literals(a)
    case Array(es) => AllLiterals(es)
    case Call(_, args) => AllLiterals(args)
    case If(c, t, f) => Literals(c) && AllLiterals(t) && AllLiterals(f)
    case While(c, body) => Literals(c) && AllLiterals(body)
    case Return(a) => Literals(a)
  }

  predicate AllLiterals(es: Exprs)
    decreases es
  {
    es.Snoc? ==> AllLiterals(es.init) && Literals(es.last)
  }

  lemma {:induction false} CodeNonEmpty(e: Expr, b: nat, t: Tables)
    ensures |Code(e, b, t)| > 0
  {
  }

  /** An argument list has no more elements than cells. */
  lemma {:induction false} LengthBound(es: Exprs, b: nat, t: Tables)
    ensures es.Length() <= |CodeList(es, b, t)|
    decreases es
  {
    if es.Snoc? {
      CodeNonEmpty(es.last, b, t);
      LengthBound(es.init, b + |Code(es.last, b, t)|, t);
    }
  }
}
