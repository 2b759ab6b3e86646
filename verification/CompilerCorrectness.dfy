/** Compiler correctness: the main induction, over fuel and the structure of the program. */
module CompilerCorrectness {
  import opened Values
  import opened Bytecode
  import opened Source
  import opened Machine
  import opened Codegen
  import opened Simulation
  import opened BracketMatching
  import opened ControlFlow
  import opened Correctness

  // ----- the parts of a node and where their code stands -----

  lemma BinNode(c: Ctx, e: Expr, b: nat, ret: bool)
    requires e.Bin? && Covers(c.t, e) && WellFormed(c.src.funs, e, ret)
    requires CodeAt(c.p.code, b, Code(e, b, c.t))
    ensures var cr := Code(e.right, b, c.t);
            var cl := Code(e.left, b + |cr|, c.t);
            && CodeAt(c.p.code, b, cr) && CodeAt(c.p.code, b + |cr|, cl)
            && CodeAt(c.p.code, b + |cr| + |cl|, [Do(OpFor(e.op))])
            && |Code(e, b, c.t)| == |cr| + |cl| + 1
    ensures Covers(c.t, e.left) && Covers(c.t, e.right)
    ensures WellFormed(c.src.funs, e.right, ret) && WellFormed(c.src.funs, e.left, false)
  {
    hide CodeAt;
    var cr := Code(e.right, b, c.t);
    var cl := Code(e.left, b + |cr|, c.t);
    SplitAt(c.p.code, b, cr + cl, [Do(OpFor(e.op))]);
    SplitAt(c.p.code, b, cr, cl);
  }

  lemma NegNode(c: Ctx, e: Expr, b: nat, ret: bool)
    requires e.Neg? && Covers(c.t, e) && WellFormed(c.src.funs, e, ret)
    requires CodeAt(c.p.code, b, Code(e, b, c.t))
    ensures var ca := Code(e.e, b, c.t);
            && CodeAt(c.p.code, b, ca) && CodeAt(c.p.code, b + |ca|, [Do(NEGATE)])
            && |Code(e, b, c.t)| == |ca| + 1
    ensures Covers(c.t, e.e) && WellFormed(c.src.funs, e.e, ret)
  {
    hide CodeAt;
    SplitAt(c.p.code, b, Code(e.e, b, c.t), [Do(NEGATE)]);
  }

  lemma AssignNode(c: Ctx, e: Expr, b: nat, ret: bool)
    requires e.Assign? && Covers(c.t, e) && WellFormed(c.src.funs, e, ret)
    requires CodeAt(c.p.code, b, Code(e, b, c.t))
    ensures var ca := Code(e.e, b, c.t);
            && CodeAt(c.p.code, b, ca) && CodeAt(c.p.code, b + |ca|, SetVar(e.x, c.t))
            && CodeAt(c.p.code, b + |ca| + 2, GetVar(e.x, c.t))
            && |Code(e, b, c.t)| == |ca| + 4
    ensures e.x in c.t.vars && Covers(c.t, e.e) && WellFormed(c.src.funs, e.e, ret)
  {
    hide CodeAt;
    var ca := Code(e.e, b, c.t);
    SplitAt(c.p.code, b, ca + SetVar(e.x, c.t), GetVar(e.x, c.t));
    SplitAt(c.p.code, b, ca, SetVar(e.x, c.t));
  }

  lemma IndexNode(c: Ctx, e: Expr, b: nat, ret: bool)
    requires e.Index? && Covers(c.t, e) && WellFormed(c.src.funs, e, ret)
    requires CodeAt(c.p.code, b, Code(e, b, c.t))
    ensures var ci := Code(e.i, b, c.t);
            && CodeAt(c.p.code, b, ci) && CodeAt(c.p.code, b + |ci|, GetVar(e.x, c.t))
            && CodeAt(c.p.code, b + |ci| + 2, [Do(INDEX1)])
            && |Code(e, b, c.t)| == |ci| + 3
    ensures e.x in c.t.vars && Covers(c.t, e.i) && WellFormed(c.src.funs, e.i, ret)
  {
    hide CodeAt;
    var ci := Code(e.i, b, c.t);
    SplitAt(c.p.code, b, ci + GetVar(e.x, c.t), [Do(INDEX1)]);
    SplitAt(c.p.code, b, ci, GetVar(e.x, c.t));
  }

  lemma IndexAssignNode(c: Ctx, e: Expr, b: nat, ret: bool)
    requires e.IndexAssign? && Covers(c.t, e) && WellFormed(c.src.funs, e, ret)
    requires CodeAt(c.p.code, b, Code(e, b, c.t))
    ensures var ca := Code(e.e, b, c.t);
            var ci := Code(e.i, b + |ca|, c.t);
            && CodeAt(c.p.code, b, ca) && CodeAt(c.p.code, b + |ca|, ci)
            && CodeAt(c.p.code, b + |ca| + |ci|, GetVar(e.x, c.t))
            && CodeAt(c.p.code, b + |ca| + |ci| + 2, [Do(INDEXAS)])
            && |Code(e, b, c.t)| == |ca| + |ci| + 3
    ensures e.x in c.t.vars && Covers(c.t, e.i) && Covers(c.t, e.e)
    ensures WellFormed(c.src.funs, e.e, ret) && WellFormed(c.src.funs, e.i, false)
  {
    hide CodeAt;
    var ca := Code(e.e, b, c.t);
    var ci := Code(e.i, b + |ca|, c.t);
    SplitAt(c.p.code, b, ca + ci + GetVar(e.x, c.t), [Do(INDEXAS)]);
    SplitAt(c.p.code, b, ca + ci, GetVar(e.x, c.t));
    SplitAt(c.p.code, b, ca, ci);
  }

  lemma ArrayNode(c: Ctx, e: Expr, b: nat, ret: bool)
    requires e.Array? && Covers(c.t, e) && WellFormed(c.src.funs, e, ret)
    requires CodeAt(c.p.code, b, Code(e, b, c.t))
    ensures var ce := CodeList(e.elems, b, c.t);
            && CodeAt(c.p.code, b, ce) && CodeAt(c.p.code, b + |ce|, [Push(e.elems.Length()), Do(MKARRAY)])
            && |Code(e, b, c.t)| == |ce| + 2
    ensures CoversAll(c.t, e.elems) && WellFormedList(c.src.funs, e.elems, ret)
  {
    hide CodeAt;
    SplitAt(c.p.code, b, CodeList(e.elems, b, c.t), [Push(e.elems.Length()), Do(MKARRAY)]);
  }

  lemma CallNode(c: Ctx, e: Expr, b: nat, ret: bool)
    requires e.Call? && Covers(c.t, e) && WellFormed(c.src.funs, e, ret)
    requires CodeAt(c.p.code, b, Code(e, b, c.t))
    ensures var ca := CodeList(e.args, b, c.t);
            && CodeAt(c.p.code, b, ca) && CodeAt(c.p.code, b + |ca|, [Push(e.args.Length())])
            && CodeAt(c.p.code, b + |ca| + 1, Constant(e.f, c.t))
            && CodeAt(c.p.code, b + |ca| + 3, [Do(CALL)])
            && |Code(e, b, c.t)| == |ca| + 4
    ensures e.f in c.t.consts && CoversAll(c.t, e.args) && WellFormedList(c.src.funs, e.args, ret)
    ensures FindFunc(c.src.funs, e.f).Some? ==> e.args.Length() <= |FindFunc(c.src.funs, e.f).value.params|
  {
    hide CodeAt;
    var ca := CodeList(e.args, b, c.t);
    SplitAt(c.p.code, b, ca + [Push(e.args.Length())] + Constant(e.f, c.t), [Do(CALL)]);
    SplitAt(c.p.code, b, ca + [Push(e.args.Length())], Constant(e.f, c.t));
    SplitAt(c.p.code, b, ca, [Push(e.args.Length())]);
  }

  lemma ReturnNode(c: Ctx, e: Expr, b: nat, ret: bool)
    requires e.Return? && Covers(c.t, e) && WellFormed(c.src.funs, e, ret)
    requires CodeAt(c.p.code, b, Code(e, b, c.t))
    ensures var ca := Code(e.e, b, c.t);
            && CodeAt(c.p.code, b, ca) && CodeAt(c.p.code, b + |ca|, [Do(RET)])
            && |Code(e, b, c.t)| == |ca| + 1
    ensures Covers(c.t, e.e) && WellFormed(c.src.funs, e.e, ret)
  {
    hide CodeAt;
    SplitAt(c.p.code, b, Code(e.e, b, c.t), [Do(RET)]);
  }

  lemma IfNode(c: Ctx, e: Expr, b: nat, ret: bool)
    requires e.If? && Covers(c.t, e) && WellFormed(c.src.funs, e, ret)
    requires CodeAt(c.p.code, b, Code(e, b, c.t))
    ensures var cc := Code(e.cond, b, c.t);
            var b1 := ThenAt(b, cc, c.t.scheme);
            var ct := CodeStmts(e.thn, b1, c.t);
            var b2 := ElseAt(b, cc, ct, c.t.scheme);
            var cf := CodeStmts(e.els, b2, c.t);
            && Code(e, b, c.t) == IfCode(b, cc, ct, cf, c.t.scheme)
            && CodeAt(c.p.code, b, cc) && CodeAt(c.p.code, b1, ct) && CodeAt(c.p.code, b2, cf)
            && Balanced(ct) && Balanced(cf)
    ensures Covers(c.t, e.cond) && CoversAll(c.t, e.thn) && CoversAll(c.t, e.els)
    ensures WellFormed(c.src.funs, e.cond, ret)
    ensures WellFormedStmts(c.src.funs, e.thn, ret) && WellFormedStmts(c.src.funs, e.els, ret)
  {
    hide CodeAt, IfCode, Balanced, Code, CodeStmts, ThenAt, ElseAt;
    IfCodeIs(e, b, c.t);
    var cc := Code(e.cond, b, c.t);
    var b1 := ThenAt(b, cc, c.t.scheme);
    var ct := CodeStmts(e.thn, b1, c.t);
    var b2 := ElseAt(b, cc, ct, c.t.scheme);
    IfParts(c.p.code, b, cc, ct, CodeStmts(e.els, b2, c.t), c.t.scheme);
    StmtsBalanced(e.thn, b1, c.t);
    StmtsBalanced(e.els, b2, c.t);
  }

  lemma WhileNode(c: Ctx, e: Expr, b: nat, ret: bool)
    requires e.While? && Covers(c.t, e) && WellFormed(c.src.funs, e, ret)
    requires CodeAt(c.p.code, b, Code(e, b, c.t))
    ensures var b0 := b + LoopGap(c.t.scheme);
            var cc := Code(e.cond, b0, c.t);
            var b1 := BodyAt(b, cc, c.t.scheme);
            var body := CodeStmts(e.body, b1, c.t);
            && Code(e, b, c.t) == WhileCode(b, cc, body, c.t.scheme)
            && CodeAt(c.p.code, b0, cc) && CodeAt(c.p.code, b1, body) && Balanced(body)
    ensures Covers(c.t, e.cond) && CoversAll(c.t, e.body)
    ensures WellFormed(c.src.funs, e.cond, ret) && WellFormedStmts(c.src.funs, e.body, ret)
  {
    hide CodeAt, WhileCode, Balanced;
    var cc := Code(e.cond, b + LoopGap(c.t.scheme), c.t);
    var b1 := BodyAt(b, cc, c.t.scheme);
    WhileParts(c.p.code, b, cc, CodeStmts(e.body, b1, c.t), c.t.scheme);
    StmtsBalanced(e.body, b1, c.t);
  }

  lemma StmtsNode(c: Ctx, es: Exprs, b: nat, ret: bool)
    requires es.Snoc? && CoversAll(c.t, es) && WellFormedStmts(c.src.funs, es, ret)
    requires CodeAt(c.p.code, b, CodeStmts(es, b, c.t))
    ensures var ci := CodeStmts(es.init, b, c.t);
            var cl := Code(es.last, b + |ci|, c.t);
            && CodeAt(c.p.code, b, ci) && CodeAt(c.p.code, b + |ci|, cl)
            && CodeAt(c.p.code, b + |ci| + |cl|, [Do(DISCARD)])
            && |CodeStmts(es, b, c.t)| == |ci| + |cl| + 1
    ensures CoversAll(c.t, es.init) && Covers(c.t, es.last)
    ensures WellFormedStmts(c.src.funs, es.init, ret) && WellFormed(c.src.funs, es.last, ret)
  {
    hide CodeAt, Code, Covers, WellFormed;
    var ci := CodeStmts(es.init, b, c.t);
    var cl := Code(es.last, b + |ci|, c.t);
    SplitAt(c.p.code, b, ci + cl, [Do(DISCARD)]);
    SplitAt(c.p.code, b, ci, cl);
  }

  /** Started at the first cell of a node, on any operand stack and any callers, the machine does what
      the interpreter does: it delivers the value and the variables, returns from the activation, halts,
      meets undefined behaviour, or keeps running for as many steps as the interpreter had fuel. */
  lemma {:induction false} ExprCorrect(c: Ctx, k: nat, e: Expr, b: nat, ret: bool, st: seq<Val>, env: Env, mem: Mem)
    requires Ready(c) && Covers(c.t, e) && WellFormed(c.src.funs, e, ret)
    requires CodeAt(c.p.code, b, Code(e, b, c.t))
    ensures Meets(c.p, Cfg(c, b, st, env, mem),
                  GoalOf(c, Eval(c.src, k, e, env, mem), k, b + |Code(e, b, c.t)|, st))
    decreases k, 2, e, 3
  {
    hide Meets, SlotsOf, CodeAt, Linked, Step;
    match e
    case Number(n) => RunPush(c, b, n, st, env, mem);
    case Text(s) => RunConstant(c, b, s, st, env, mem);
    case Var(x) => RunGetVar(c, b, x, st, env, mem);
    case Bin(_, _, _) => BinCorrect(c, k, e, b, ret, st, env, mem);
    case Neg(_) => NegCorrect(c, k, e, b, ret, st, env, mem);
    case Assign(_, _) => AssignCorrect(c, k, e, b, ret, st, env, mem);
    case Index(_, _) => IndexCorrect(c, k, e, b, ret, st, env, mem);
    case IndexAssign(_, _, _) => IndexAssignCorrect(c, k, e, b, ret, st, env, mem);
    case Array(_) => ArrayCorrect(c, k, e, b, ret, st, env, mem);
    case Call(_, _) => CallCorrect(c, k, e, b, ret, st, env, mem);
    case If(_, _, _) => IfCorrect(c, k, e, b, ret, st, env, mem);
    case While(_, _) => WhileCorrect(c, k, e, b, ret, st, env, mem);
    case Return(_) => ReturnCorrect(c, k, e, b, ret, st, env, mem);
  }

  lemma {:induction false} BinCorrect(c: Ctx, k: nat, e: Expr, b: nat, ret: bool, st: seq<Val>, env: Env, mem: Mem)
    requires e.Bin? && Ready(c) && Covers(c.t, e) && WellFormed(c.src.funs, e, ret)
    requires CodeAt(c.p.code, b, Code(e, b, c.t))
    ensures Meets(c.p, Cfg(c, b, st, env, mem),
                  GoalOf(c, Eval(c.src, k, e, env, mem), k, b + |Code(e, b, c.t)|, st))
    decreases k, 2, e, 1
  {
    hide Meets, SlotsOf, CodeAt, Linked, Step, Binary, Cfg;
    hide Code, CodeList, Covers, CoversAll, WellFormed, WellFormedList, CodeStmts, WellFormedStmts;
    BinNode(c, e, b, ret);
    var goal := GoalOf(c, Eval(c.src, k, e, env, mem), k, b + |Code(e, b, c.t)|, st);
    var cr := Code(e.right, b, c.t);
    var cl := Code(e.left, b + |cr|, c.t);
    ExprCorrect(c, k, e.right, b, ret, st, env, mem);
    var o1 := Eval(c.src, k, e.right, env, mem);
    if o1.Done? {
      var st1 := st + [o1.value];
      ExprCorrect(c, k, e.left, b + |cr|, false, st1, o1.env, o1.mem);
      NoReturn(c.src, k, e.left, o1.env, o1.mem);
      var o2 := Eval(c.src, k, e.left, o1.env, o1.mem);
      if o2.Done? {
        RunBinary(c, k, b + |cr| + |cl|, e.op, o1.value, o2.value, st, o2.env, o2.mem);
        Chain(c.p, Cfg(c, b + |cr|, st1, o1.env, o1.mem),
              Cfg(c, b + |cr| + |cl|, st1 + [o2.value], o2.env, o2.mem), goal);
      }
      Chain(c.p, Cfg(c, b, st, env, mem), Cfg(c, b + |cr|, st1, o1.env, o1.mem), goal);
    }
  }

  lemma {:induction false} NegCorrect(c: Ctx, k: nat, e: Expr, b: nat, ret: bool, st: seq<Val>, env: Env, mem: Mem)
    requires e.Neg? && Ready(c) && Covers(c.t, e) && WellFormed(c.src.funs, e, ret)
    requires CodeAt(c.p.code, b, Code(e, b, c.t))
    ensures Meets(c.p, Cfg(c, b, st, env, mem),
                  GoalOf(c, Eval(c.src, k, e, env, mem), k, b + |Code(e, b, c.t)|, st))
    decreases k, 2, e, 1
  {
    hide Meets, SlotsOf, CodeAt, Linked, Step, ValNeg, Cfg;
    hide Code, CodeList, Covers, CoversAll, WellFormed, WellFormedList, CodeStmts, WellFormedStmts;
    NegNode(c, e, b, ret);
    var goal := GoalOf(c, Eval(c.src, k, e, env, mem), k, b + |Code(e, b, c.t)|, st);
    var ca := Code(e.e, b, c.t);
    ExprCorrect(c, k, e.e, b, ret, st, env, mem);
    var o := Eval(c.src, k, e.e, env, mem);
    if o.Done? {
      RunNegate(c, k, b + |ca|, o.value, st, o.env, o.mem);
      Chain(c.p, Cfg(c, b, st, env, mem), Cfg(c, b + |ca|, st + [o.value], o.env, o.mem), goal);
    }
  }

  lemma {:induction false} AssignCorrect(c: Ctx, k: nat, e: Expr, b: nat, ret: bool, st: seq<Val>, env: Env, mem: Mem)
    requires e.Assign? && Ready(c) && Covers(c.t, e) && WellFormed(c.src.funs, e, ret)
    requires CodeAt(c.p.code, b, Code(e, b, c.t))
    ensures Meets(c.p, Cfg(c, b, st, env, mem),
                  GoalOf(c, Eval(c.src, k, e, env, mem), k, b + |Code(e, b, c.t)|, st))
    decreases k, 2, e, 1
  {
    hide Meets, SlotsOf, CodeAt, Linked, Step, Cfg, Update, Lookup;
    hide Code, CodeList, Covers, CoversAll, WellFormed, WellFormedList, CodeStmts, WellFormedStmts;
    AssignNode(c, e, b, ret);
    var goal := GoalOf(c, Eval(c.src, k, e, env, mem), k, b + |Code(e, b, c.t)|, st);
    var ca := Code(e.e, b, c.t);
    ExprCorrect(c, k, e.e, b, ret, st, env, mem);
    var o := Eval(c.src, k, e.e, env, mem);
    if o.Done? {
      var env1 := Update(o.env, e.x, o.value);
      RunSetVar(c, b + |ca|, e.x, o.value, st, o.env, o.mem);
      RunGetVar(c, b + |ca| + 2, e.x, st, env1, o.mem);
      Chain(c.p, Cfg(c, b + |ca|, st + [o.value], o.env, o.mem), Cfg(c, b + |ca| + 2, st, env1, o.mem), goal);
      Chain(c.p, Cfg(c, b, st, env, mem), Cfg(c, b + |ca|, st + [o.value], o.env, o.mem), goal);
    }
  }

  lemma {:induction false} IndexCorrect(c: Ctx, k: nat, e: Expr, b: nat, ret: bool, st: seq<Val>, env: Env, mem: Mem)
    requires e.Index? && Ready(c) && Covers(c.t, e) && WellFormed(c.src.funs, e, ret)
    requires CodeAt(c.p.code, b, Code(e, b, c.t))
    ensures Meets(c.p, Cfg(c, b, st, env, mem),
                  GoalOf(c, Eval(c.src, k, e, env, mem), k, b + |Code(e, b, c.t)|, st))
    decreases k, 2, e, 1
  {
    hide Meets, SlotsOf, CodeAt, Linked, Step, Cfg, ValIndex, Lookup;
    hide Code, CodeList, Covers, CoversAll, WellFormed, WellFormedList, CodeStmts, WellFormedStmts;
    IndexNode(c, e, b, ret);
    var goal := GoalOf(c, Eval(c.src, k, e, env, mem), k, b + |Code(e, b, c.t)|, st);
    var ci := Code(e.i, b, c.t);
    ExprCorrect(c, k, e.i, b, ret, st, env, mem);
    var o := Eval(c.src, k, e.i, env, mem);
    if o.Done? {
      var st1 := st + [o.value];
      var x := Lookup(o.env, e.x);
      RunGetVar(c, b + |ci|, e.x, st1, o.env, o.mem);
      RunIndex(c, k, b + |ci| + 2, o.value, x, st, o.env, o.mem);
      Chain(c.p, Cfg(c, b + |ci|, st1, o.env, o.mem), Cfg(c, b + |ci| + 2, st1 + [x], o.env, o.mem), goal);
      Chain(c.p, Cfg(c, b, st, env, mem), Cfg(c, b + |ci|, st1, o.env, o.mem), goal);
    }
  }

  lemma {:induction false} IndexAssignCorrect(c: Ctx, k: nat, e: Expr, b: nat, ret: bool, st: seq<Val>, env: Env,
                                              mem: Mem)
    requires e.IndexAssign? && Ready(c) && Covers(c.t, e) && WellFormed(c.src.funs, e, ret)
    requires CodeAt(c.p.code, b, Code(e, b, c.t))
    ensures Meets(c.p, Cfg(c, b, st, env, mem),
                  GoalOf(c, Eval(c.src, k, e, env, mem), k, b + |Code(e, b, c.t)|, st))
    decreases k, 2, e, 1
  {
    hide Meets, SlotsOf, CodeAt, Linked, Step, Cfg, ValIndexAssign, Lookup;
    hide Code, CodeList, Covers, CoversAll, WellFormed, WellFormedList, CodeStmts, WellFormedStmts;
    IndexAssignNode(c, e, b, ret);
    var goal := GoalOf(c, Eval(c.src, k, e, env, mem), k, b + |Code(e, b, c.t)|, st);
    var ca := Code(e.e, b, c.t);
    var ci := Code(e.i, b + |ca|, c.t);
    ExprCorrect(c, k, e.e, b, ret, st, env, mem);
    var o1 := Eval(c.src, k, e.e, env, mem);
    if o1.Done? {
      var st1 := st + [o1.value];
      ExprCorrect(c, k, e.i, b + |ca|, false, st1, o1.env, o1.mem);
      NoReturn(c.src, k, e.i, o1.env, o1.mem);
      var o2 := Eval(c.src, k, e.i, o1.env, o1.mem);
      if o2.Done? {
        var st2 := st1 + [o2.value];
        var x := Lookup(o2.env, e.x);
        var at := b + |ca| + |ci|;
        RunGetVar(c, at, e.x, st2, o2.env, o2.mem);
        RunIndexAssign(c, k, at + 2, o1.value, o2.value, x, st, o2.env, o2.mem);
        Chain(c.p, Cfg(c, at, st2, o2.env, o2.mem), Cfg(c, at + 2, st2 + [x], o2.env, o2.mem), goal);
        Chain(c.p, Cfg(c, b + |ca|, st1, o1.env, o1.mem), Cfg(c, at, st2, o2.env, o2.mem), goal);
      }
      Chain(c.p, Cfg(c, b, st, env, mem), Cfg(c, b + |ca|, st1, o1.env, o1.mem), goal);
    }
  }

  lemma {:induction false} ArrayCorrect(c: Ctx, k: nat, e: Expr, b: nat, ret: bool, st: seq<Val>, env: Env, mem: Mem)
    requires e.Array? && Ready(c) && Covers(c.t, e) && WellFormed(c.src.funs, e, ret)
    requires CodeAt(c.p.code, b, Code(e, b, c.t))
    ensures Meets(c.p, Cfg(c, b, st, env, mem),
                  GoalOf(c, Eval(c.src, k, e, env, mem), k, b + |Code(e, b, c.t)|, st))
    decreases k, 2, e, 1
  {
    hide Meets, SlotsOf, CodeAt, Linked, Step, Cfg, MakeArray, Reverse;
    hide Code, CodeList, Covers, CoversAll, WellFormed, WellFormedList, CodeStmts, WellFormedStmts;
    ArrayNode(c, e, b, ret);
    var goal := GoalOf(c, Eval(c.src, k, e, env, mem), k, b + |Code(e, b, c.t)|, st);
    var ce := CodeList(e.elems, b, c.t);
    ListCorrect(c, k, e.elems, b, ret, st, env, mem);
    var o := EvalList(c.src, k, e.elems, env, mem);
    if o.Done? {
      ListLength(c.src, k, e.elems, env, mem);
      RunMkArray(c, k, b + |ce|, o.value, st, o.env, o.mem);
      Chain(c.p, Cfg(c, b, st, env, mem), Cfg(c, b + |ce|, st + Reverse(o.value), o.env, o.mem), goal);
    }
  }

  lemma {:induction false} CallCorrect(c: Ctx, k: nat, e: Expr, b: nat, ret: bool, st: seq<Val>, env: Env, mem: Mem)
    requires e.Call? && Ready(c) && Covers(c.t, e) && WellFormed(c.src.funs, e, ret)
    requires CodeAt(c.p.code, b, Code(e, b, c.t))
    ensures Meets(c.p, Cfg(c, b, st, env, mem),
                  GoalOf(c, Eval(c.src, k, e, env, mem), k, b + |Code(e, b, c.t)|, st))
    decreases k, 2, e, 1
  {
    hide Meets, SlotsOf, CodeAt, Linked, Step, Cfg, Reverse, EvalCall, Constant;
    hide Code, CodeList, Covers, CoversAll, WellFormed, WellFormedList, CodeStmts, WellFormedStmts;
    CallNode(c, e, b, ret);
    var goal := GoalOf(c, Eval(c.src, k, e, env, mem), k, b + |Code(e, b, c.t)|, st);
    var ca := CodeList(e.args, b, c.t);
    var n := e.args.Length();
    ListCorrect(c, k, e.args, b, ret, st, env, mem);
    var o := EvalList(c.src, k, e.args, env, mem);
    if o.Done? {
      ListLength(c.src, k, e.args, env, mem);
      var st1 := st + Reverse(o.value);
      var at := b + |ca|;
      RunPush(c, at, n, st1, o.env, o.mem);
      RunConstant(c, at + 1, e.f, st1 + [Num(n)], o.env, o.mem);
      EnterCorrect(c, k, at + 3, e.f, o.value, st, o.env, o.mem);
      Chain(c.p, Cfg(c, at + 1, st1 + [Num(n)], o.env, o.mem),
            Cfg(c, at + 3, st1 + [Num(n)] + [Str(e.f)], o.env, o.mem), goal);
      Chain(c.p, Cfg(c, at, st1, o.env, o.mem), Cfg(c, at + 1, st1 + [Num(n)], o.env, o.mem), goal);
      Chain(c.p, Cfg(c, b, st, env, mem), Cfg(c, at, st1, o.env, o.mem), goal);
    }
  }

  lemma FunctionAt(c: Ctx, name: string)
    requires Ready(c)
    ensures c.p.native == c.src.native
    ensures FindFunc(c.src.funs, name).None? ==> name !in c.p.funs
    ensures FindFunc(c.src.funs, name).Some? ==>
              var f := FindFunc(c.src.funs, name).value;
              && name in c.p.funs && f.name == name && FuncAt(c.p, f, c.p.funs[name], c.t.scheme)
              && Distinct(f.params) && WellFormedStmts(c.src.funs, f.body, true)
  {
    hide FuncAt, WellFormedStmts, Distinct;
    var o := FindFunc(c.src.funs, name);
  }

  /** The call proper: CALL, the body in a fresh activation, and the return to the caller. */
  lemma {:induction false} EnterCorrect(c: Ctx, k: nat, at: nat, name: string, vs: seq<Val>,
                                        st: seq<Val>, env: Env, mem: Mem)
    requires Ready(c) && CodeAt(c.p.code, at, [Do(CALL)])
    requires FindFunc(c.src.funs, name).Some? ==> |vs| <= |FindFunc(c.src.funs, name).value.params|
    ensures Meets(c.p, Cfg(c, at, st + Reverse(vs) + [Num(|vs|)] + [Str(name)], env, mem),
                  GoalOf(c, EvalCall(c.src, k, name, vs, env, mem), k, at + 1, st))
    decreases k, 1
  {
    hide Meets, SlotsOf, CodeAt, Linked, Step, Cfg, Reverse, FuncAt, Bind;
    FunctionAt(c, name);
    var s := Cfg(c, at, st + Reverse(vs) + [Num(|vs|)] + [Str(name)], env, mem);
    match FindFunc(c.src.funs, name)
    case None => RunNative(c, k, at, name, vs, st, env, mem);
    case Some(f) =>
      StepCallDefined(c, at, f, vs, st, env, mem);
      var s' := Cfg(Callee(c, f, at, env), c.p.funs[name], st, Bind(f.params, vs), mem);
      if k == 0 {
        assert Meets(c.p, s, Runs(0)) by { Immediately(c.p, s); }
      } else {
        BodyCorrect(c, k - 1, at, f, vs, st, env, mem);
        var o := EvalStmts(c.src, k - 1, f.body, Bind(f.params, vs), mem);
        var g := GoalOf(c, FromBody(o, env), k - 1, at + 1, st);
        ChainStep(c.p, s, s', g);
      }
  }

  lemma Immediately(p: Image, s: State)
    ensures Meets(p, s, Runs(0))
  {
    hide Step;
  }

  /** The body of a called function, from its entry to the caller's next instruction. */
  /** The code of a function's body, and the context it runs in. */
  lemma BodyParts(c: Ctx, f: Func, at: nat, env: Env, entry: nat)
    requires Ready(c) && FuncAt(c.p, f, entry, c.t.scheme) && Distinct(FuncVars(f))
    ensures var c' := Callee(c, f, at, env);
            var body := CodeStmts(f.body, entry, c'.t);
            && Ready(c') && CoversAll(c'.t, f.body) && CodeAt(c.p.code, entry, body)
            && CodeAt(c.p.code, entry + |body|, [Push(0)]) && CodeAt(c.p.code, entry + |body| + 1, [Do(RET)])
  {
    hide CodeAt, Linked, CoversAll, CodeStmts, FuncVars;
    var body := CodeStmts(f.body, entry, Tables(FuncVars(f), c.p.consts, c.t.scheme));
    assert body + [Push(0), Do(RET)] == body + [Push(0)] + [Do(RET)];
    SplitAt(c.p.code, entry, body + [Push(0)], [Do(RET)]);
    SplitAt(c.p.code, entry, body, [Push(0)]);
  }

  lemma {:induction false} BodyCorrect(c: Ctx, k: nat, at: nat, f: Func, vs: seq<Val>, st: seq<Val>, env: Env, mem: Mem)
    requires Ready(c) && FindFunc(c.src.funs, f.name) == Some(f) && |vs| <= |f.params|
    requires f.name in c.p.funs && FuncAt(c.p, f, c.p.funs[f.name], c.t.scheme)
    requires Distinct(f.params) && WellFormedStmts(c.src.funs, f.body, true)
    ensures Meets(c.p, Cfg(Callee(c, f, at, env), c.p.funs[f.name], st, Bind(f.params, vs), mem),
                  GoalOf(c, FromBody(EvalStmts(c.src, k, f.body, Bind(f.params, vs), mem), env), k, at + 1, st))
    decreases k, 3
  {
    hide Meets, SlotsOf, CodeAt, Linked, Step, Bind, FuncVars, FuncAt, CodeStmts, CoversAll, EvalStmts, WellFormedStmts;
    ArgumentsBecomeSlots(f, vs);
    var c' := Callee(c, f, at, env);
    var entry := c.p.funs[f.name];
    var body := CodeStmts(f.body, entry, c'.t);
    BodyParts(c, f, at, env, entry);
    var env0 := Bind(f.params, vs);
    StmtsCorrect(c', k, f.body, entry, true, st, env0, mem);
    var o := EvalStmts(c.src, k, f.body, env0, mem);
    if o.Done? {
      var end := entry + |body|;
      var goal := Comes(Next(State(at + 1, st + [Num(0)], c'.callers, o.mem)));
      RunOff(c', end, st, o.env, o.mem);
      Chain(c.p, Cfg(c', entry, st, env0, mem), Cfg(c', end, st, o.env, o.mem), goal);
    }
  }

  /** Falling off the end of a function returns 0. */
  lemma RunOff(c: Ctx, end: nat, st: seq<Val>, env: Env, mem: Mem)
    requires CodeAt(c.p.code, end, [Push(0)]) && CodeAt(c.p.code, end + 1, [Do(RET)])
    ensures Reaches(c.p, Cfg(c, end, st, env, mem), State(c.ret + 1, st + [Num(0)], c.callers, mem))
  {
    hide Cfg, Meets, CodeAt, Step;
    RunPush(c, end, 0, st, env, mem);
    RunRet(c, end + 1, st + [Num(0)], env, mem);
    Chain(c.p, Cfg(c, end, st, env, mem), Cfg(c, end + 1, st + [Num(0)], env, mem),
          Comes(Next(State(c.ret + 1, st + [Num(0)], c.callers, mem))));
  }

  /** `if` delivers 0 whichever branch ran. */
  function Zero(o: Outcome<seq<Val>>): Outcome<Val> {
    var (_, env, mem) :- o;
    Done(Num(0), env, mem)
  }

  /** From `at` the machine goes to `end` and delivers 0, whatever the variables and the store hold. */
  ghost predicate Leaves(c: Ctx, at: nat, end: nat, st: seq<Val>) {
    forall env, mem :: Reaches(c.p, Cfg(c, at, st, env, mem), Cfg(c, end, st + [Num(0)], env, mem))
  }

  lemma BranchesLeave(c: Ctx, b: nat, cc: seq<Instr>, ct: seq<Instr>, cf: seq<Instr>, st: seq<Val>)
    requires CodeAt(c.p.code, b, IfCode(b, cc, ct, cf, c.t.scheme)) && Balanced(ct) && Balanced(cf)
    ensures Leaves(c, ThenAt(b, cc, c.t.scheme) + |ct|, b + |IfCode(b, cc, ct, cf, c.t.scheme)|, st)
    ensures Leaves(c, ElseAt(b, cc, ct, c.t.scheme) + |cf|, b + |IfCode(b, cc, ct, cf, c.t.scheme)|, st)
  {
    hide Reaches, CodeAt, Balanced, IfCode, Cfg;
    forall env, mem { RunThenEnd(c, b, cc, ct, cf, st, env, mem); }
    forall env, mem { RunElseEnd(c, b, cc, ct, cf, st, env, mem); }
  }

  /** A branch of an `if`, from its first cell to the node's end. */
  lemma {:induction false} BranchCorrect(c: Ctx, k: nat, es: Exprs, b: nat, ret: bool, st: seq<Val>, env: Env, mem: Mem,
                                         end: nat)
    requires Ready(c) && CoversAll(c.t, es) && WellFormedStmts(c.src.funs, es, ret)
    requires CodeAt(c.p.code, b, CodeStmts(es, b, c.t))
    requires Leaves(c, b + |CodeStmts(es, b, c.t)|, end, st)
    ensures Meets(c.p, Cfg(c, b, st, env, mem), GoalOf(c, Zero(EvalStmts(c.src, k, es, env, mem)), k, end, st))
    decreases k, 2, es, 2
  {
    hide Meets, SlotsOf, CodeAt, Linked, Step, Cfg, EvalStmts, CodeStmts;
    StmtsCorrect(c, k, es, b, ret, st, env, mem);
    var o := EvalStmts(c.src, k, es, env, mem);
    if o.Done? {
      Chain(c.p, Cfg(c, b, st, env, mem), Cfg(c, b + |CodeStmts(es, b, c.t)|, st, o.env, o.mem),
            GoalOf(c, Zero(o), k, end, st));
    }
  }

  /** From the instruction that tests the condition of an `if`. */
  lemma {:induction false} TestCorrect(c: Ctx, k: nat, e: Expr, b: nat, ret: bool, v: Val, st: seq<Val>, env: Env,
                                       mem: Mem)
    requires e.If? && Ready(c) && Covers(c.t, e) && WellFormed(c.src.funs, e, ret)
    requires CodeAt(c.p.code, b, Code(e, b, c.t))
    ensures Meets(c.p, Cfg(c, b + |Code(e.cond, b, c.t)|, st + [v], env, mem),
                  GoalOf(c, Zero(EvalStmts(c.src, k, if ToBool(v, mem) then e.thn else e.els, env, mem)), k,
                         b + |Code(e, b, c.t)|, st))
    decreases k, 2, e, 0
  {
    hide Meets, SlotsOf, CodeAt, Linked, Step, Cfg, IfCode, ToBool, Balanced, GoalOf, EvalStmts, Leaves;
    hide Code, CodeStmts, Covers, CoversAll, WellFormed, WellFormedStmts, Zero, ThenAt, ElseAt;
    IfNode(c, e, b, ret);
    var end := b + |Code(e, b, c.t)|;
    var cc := Code(e.cond, b, c.t);
    var b1 := ThenAt(b, cc, c.t.scheme);
    var ct := CodeStmts(e.thn, b1, c.t);
    var b2 := ElseAt(b, cc, ct, c.t.scheme);
    var cf := CodeStmts(e.els, b2, c.t);
    BranchesLeave(c, b, cc, ct, cf, st);
    RunBranch(c, b, cc, ct, cf, v, st, env, mem);
    var es, b' := if ToBool(v, mem) then e.thn else e.els, if ToBool(v, mem) then b1 else b2;
    BranchCorrect(c, k, es, b', ret, st, env, mem, end);
    Chain(c.p, Cfg(c, b + |cc|, st + [v], env, mem), Cfg(c, b', st, env, mem),
          GoalOf(c, Zero(EvalStmts(c.src, k, es, env, mem)), k, end, st));
  }

  lemma {:induction false} IfCorrect(c: Ctx, k: nat, e: Expr, b: nat, ret: bool, st: seq<Val>, env: Env, mem: Mem)
    requires e.If? && Ready(c) && Covers(c.t, e) && WellFormed(c.src.funs, e, ret)
    requires CodeAt(c.p.code, b, Code(e, b, c.t))
    ensures Meets(c.p, Cfg(c, b, st, env, mem),
                  GoalOf(c, Eval(c.src, k, e, env, mem), k, b + |Code(e, b, c.t)|, st))
    decreases k, 2, e, 1
  {
    hide Meets, SlotsOf, CodeAt, Linked, Step, Cfg, IfCode, ToBool, EvalStmts, Balanced;
    hide Code, CodeStmts, Covers, CoversAll, WellFormed, WellFormedStmts;
    IfNode(c, e, b, ret);
    var cc := Code(e.cond, b, c.t);
    ExprCorrect(c, k, e.cond, b, ret, st, env, mem);
    var o := Eval(c.src, k, e.cond, env, mem);
    if o.Done? {
      TestCorrect(c, k, e, b, ret, o.value, st, o.env, o.mem);
      Chain(c.p, Cfg(c, b, st, env, mem), Cfg(c, b + |cc|, st + [o.value], o.env, o.mem),
            GoalOf(c, Eval(c.src, k, e, env, mem), k, b + |Code(e, b, c.t)|, st));
    }
  }

  lemma {:induction false} WhileCorrect(c: Ctx, k: nat, e: Expr, b: nat, ret: bool, st: seq<Val>, env: Env, mem: Mem)
    requires e.While? && Ready(c) && Covers(c.t, e) && WellFormed(c.src.funs, e, ret)
    requires CodeAt(c.p.code, b, Code(e, b, c.t))
    ensures Meets(c.p, Cfg(c, b, st, env, mem),
                  GoalOf(c, Eval(c.src, k, e, env, mem), k, b + |Code(e, b, c.t)|, st))
    decreases k, 2, e, 2
  {
    hide Meets, SlotsOf, CodeAt, Linked, Step, Cfg, WhileCode, Eval, GoalOf, Balanced;
    hide Code, CodeStmts, Covers, CoversAll, WellFormed, WellFormedStmts;
    WhileNode(c, e, b, ret);
    var b0 := b + LoopGap(c.t.scheme);
    var cc := Code(e.cond, b0, c.t);
    RunLoopEntry(c, b, cc, CodeStmts(e.body, BodyAt(b, cc, c.t.scheme), c.t), st, env, mem);
    LoopCorrect(c, k, e, b, ret, st, env, mem);
    Chain(c.p, Cfg(c, b, st, env, mem), Cfg(InLoop(c, b), b0, st, env, mem),
          GoalOf(c, Eval(c.src, k, e, env, mem), k, b + |Code(e, b, c.t)|, st));
  }

  /** What a loop does once its condition has yielded true. */
  function Iterate(p: Program, k: nat, e: Expr, env: Env, mem: Mem): Outcome<Val>
    requires e.While?
  {
    var (_, env1, mem1) :- EvalStmts(p, k, e.body, env, mem);
    if k == 0 then Timeout else Eval(p, k - 1, e, env1, mem1)
  }

  /** Fuel shows only in the goal of a run that goes on. */
  lemma GoalFuel(c: Ctx, o: Outcome<Val>, k: nat, k': nat, end: nat, st: seq<Val>)
    ensures o.Timeout? ==> GoalOf(c, o, k, end, st) == Runs(k)
    ensures !o.Timeout? ==> GoalOf(c, o, k, end, st) == GoalOf(c, o, k', end, st)
    ensures GoalOf(c, o, k, end, st).Runs? <==> o.Timeout?
  {
  }

  /** The loop stack does not matter to an outcome that leaves the loop. */
  lemma LoopAbort(c: Ctx, b: nat, o: Outcome<seq<Val>>, k: nat, st: seq<Val>)
    requires !o.Done?
    ensures Abort(InLoop(c, b), o, k, st) == Abort(c, o.PropagateFailure<Val>(), k, st)
  {
  }

  /** From the body of a loop: one pass, then the loop again. */
  lemma {:induction false} IterationCorrect(c: Ctx, k: nat, e: Expr, b: nat, ret: bool, st: seq<Val>, env: Env,
                                            mem: Mem)
    requires e.While? && Ready(c) && Covers(c.t, e) && WellFormed(c.src.funs, e, ret)
    requires CodeAt(c.p.code, b, Code(e, b, c.t))
    ensures var cc := Code(e.cond, b + LoopGap(c.t.scheme), c.t);
            Meets(c.p, Cfg(InLoop(c, b), BodyAt(b, cc, c.t.scheme), st, env, mem),
                  GoalOf(c, Iterate(c.src, k, e, env, mem), k, b + |Code(e, b, c.t)|, st))
    decreases k, 2, e, 0
  {
    hide Meets, SlotsOf, CodeAt, Linked, Step, Cfg, WhileCode, Eval, EvalStmts, Abort, Balanced;
    hide Code, CodeStmts, Covers, CoversAll, WellFormed, WellFormedStmts;
    WhileNode(c, e, b, ret);
    var goal := GoalOf(c, Iterate(c.src, k, e, env, mem), k, b + |Code(e, b, c.t)|, st);
    var c' := InLoop(c, b);
    var cc := Code(e.cond, b + LoopGap(c.t.scheme), c.t);
    var b1 := BodyAt(b, cc, c.t.scheme);
    var body := CodeStmts(e.body, b1, c.t);
    StmtsCorrect(c', k, e.body, b1, ret, st, env, mem);
    var o := EvalStmts(c.src, k, e.body, env, mem);
    if o.Done? {
      var back := Cfg(c', b1 + |body|, st, o.env, o.mem);
      var o' := Iterate(c.src, k, e, env, mem);
      GoalFuel(c, o', k, if k == 0 then 0 else k - 1, b + |Code(e, b, c.t)|, st);
      if k == 0 {
        Immediately(c.p, back);
      } else {
        GoalFuel(c, o', k - 1, k, b + |Code(e, b, c.t)|, st);
        LoopCorrect(c, k - 1, e, b, ret, st, o.env, o.mem);
        RunLoopBack(c, b, cc, body, st, o.env, o.mem,
                    GoalOf(c, Eval(c.src, k - 1, e, o.env, o.mem), k - 1, b + |Code(e, b, c.t)|, st));
      }
      Chain(c.p, Cfg(c', b1, st, env, mem), back, goal);
    } else {
      LoopAbort(c, b, o, k, st);
    }
  }

  /** From the condition of a loop, any number of iterations. */
  lemma {:induction false} LoopCorrect(c: Ctx, k: nat, e: Expr, b: nat, ret: bool, st: seq<Val>, env: Env, mem: Mem)
    requires e.While? && Ready(c) && Covers(c.t, e) && WellFormed(c.src.funs, e, ret)
    requires CodeAt(c.p.code, b, Code(e, b, c.t))
    ensures Meets(c.p, Cfg(InLoop(c, b), b + LoopGap(c.t.scheme), st, env, mem),
                  GoalOf(c, Eval(c.src, k, e, env, mem), k, b + |Code(e, b, c.t)|, st))
    decreases k, 2, e, 1
  {
    hide Meets, SlotsOf, CodeAt, Linked, Step, Cfg, WhileCode, ToBool, Balanced, EvalStmts;
    hide Code, CodeStmts, Covers, CoversAll, WellFormed, WellFormedStmts;
    WhileNode(c, e, b, ret);
    var goal := GoalOf(c, Eval(c.src, k, e, env, mem), k, b + |Code(e, b, c.t)|, st);
    var c' := InLoop(c, b);
    var b0 := b + LoopGap(c.t.scheme);
    var cc := Code(e.cond, b0, c.t);
    var b1 := BodyAt(b, cc, c.t.scheme);
    var body := CodeStmts(e.body, b1, c.t);
    ExprCorrect(c', k, e.cond, b0, ret, st, env, mem);
    var o := Eval(c.src, k, e.cond, env, mem);
    if o.Done? {
      var test := Cfg(c', b0 + |cc|, st + [o.value], o.env, o.mem);
      if !ToBool(o.value, o.mem) {
        RunLoopExit(c, b, cc, body, o.value, st, o.env, o.mem);
      } else {
        RunLoopBody(c, b, cc, body, o.value, st, o.env, o.mem);
        IterationCorrect(c, k, e, b, ret, st, o.env, o.mem);
        Chain(c.p, test, Cfg(c', b1, st, o.env, o.mem), goal);
      }
      Chain(c.p, Cfg(c', b0, st, env, mem), test, goal);
    }
  }

  lemma {:induction false} ReturnCorrect(c: Ctx, k: nat, e: Expr, b: nat, ret: bool, st: seq<Val>, env: Env, mem: Mem)
    requires e.Return? && Ready(c) && Covers(c.t, e) && WellFormed(c.src.funs, e, ret)
    requires CodeAt(c.p.code, b, Code(e, b, c.t))
    ensures Meets(c.p, Cfg(c, b, st, env, mem),
                  GoalOf(c, Eval(c.src, k, e, env, mem), k, b + |Code(e, b, c.t)|, st))
    decreases k, 2, e, 1
  {
    hide Meets, SlotsOf, CodeAt, Linked, Step, Cfg;
    hide Code, CodeList, Covers, CoversAll, WellFormed, WellFormedList, CodeStmts, WellFormedStmts;
    ReturnNode(c, e, b, ret);
    var goal := GoalOf(c, Eval(c.src, k, e, env, mem), k, b + |Code(e, b, c.t)|, st);
    var ca := Code(e.e, b, c.t);
    ExprCorrect(c, k, e.e, b, ret, st, env, mem);
    var o := Eval(c.src, k, e.e, env, mem);
    if o.Done? {
      RunRet(c, b + |ca|, st + [o.value], o.env, o.mem);
      Chain(c.p, Cfg(c, b, st, env, mem), Cfg(c, b + |ca|, st + [o.value], o.env, o.mem), goal);
    }
  }

  lemma {:induction false} ListLength(p: Program, k: nat, es: Exprs, env: Env, mem: Mem)
    ensures EvalList(p, k, es, env, mem).Done? ==> |EvalList(p, k, es, env, mem).value| == es.Length()
    decreases es
  {
    hide Eval;
    if es.Snoc? {
      var o := Eval(p, k, es.last, env, mem);
      if o.Done? { ListLength(p, k, es.init, o.env, o.mem); }
    }
  }

  lemma {:induction false} ListCorrect(c: Ctx, k: nat, es: Exprs, b: nat, ret: bool, st: seq<Val>, env: Env, mem: Mem)
    requires Ready(c) && CoversAll(c.t, es) && WellFormedList(c.src.funs, es, ret)
    requires CodeAt(c.p.code, b, CodeList(es, b, c.t))
    ensures Meets(c.p, Cfg(c, b, st, env, mem),
                  ListGoal(c, EvalList(c.src, k, es, env, mem), k, b + |CodeList(es, b, c.t)|, st))
    decreases k, 2, es, 1
  {
    hide Meets, SlotsOf, CodeAt, Linked, Step, Cfg, Eval, Code;
    var goal := ListGoal(c, EvalList(c.src, k, es, env, mem), k, b + |CodeList(es, b, c.t)|, st);
    if es.Nil? {
      assert st + [] == st;
      NoStep(c.p, Cfg(c, b, st, env, mem));
    } else {
      var cl := Code(es.last, b, c.t);
      assert CodeList(es, b, c.t) == cl + CodeList(es.init, b + |cl|, c.t);
      assert Covers(c.t, es.last) && CoversAll(c.t, es.init);
      assert WellFormed(c.src.funs, es.last, ret) && WellFormedList(c.src.funs, es.init, false);
      hide CodeList, Covers, CoversAll, WellFormed, WellFormedList;
      SplitAt(c.p.code, b, cl, CodeList(es.init, b + |cl|, c.t));
      ExprCorrect(c, k, es.last, b, ret, st, env, mem);
      var o := Eval(c.src, k, es.last, env, mem);
      if o.Done? {
        var st1 := st + [o.value];
        ListCorrect(c, k, es.init, b + |cl|, false, st1, o.env, o.mem);
        NoReturnList(c.src, k, es.init, o.env, o.mem);
        var o1 := EvalList(c.src, k, es.init, o.env, o.mem);
        if o1.Done? {
          ReverseSnoc(o1.value, o.value);
          assert st1 + Reverse(o1.value) == st + ([o.value] + Reverse(o1.value));
        }
        Chain(c.p, Cfg(c, b, st, env, mem), Cfg(c, b + |cl|, st1, o.env, o.mem), goal);
      }
    }
  }

  lemma {:induction false} StmtsCorrect(c: Ctx, k: nat, es: Exprs, b: nat, ret: bool, st: seq<Val>, env: Env, mem: Mem)
    requires Ready(c) && CoversAll(c.t, es) && WellFormedStmts(c.src.funs, es, ret)
    requires CodeAt(c.p.code, b, CodeStmts(es, b, c.t))
    ensures Meets(c.p, Cfg(c, b, st, env, mem),
                  StmtsGoal(c, EvalStmts(c.src, k, es, env, mem), k, b + |CodeStmts(es, b, c.t)|, st))
    decreases k, 2, es, 1
  {
    hide Meets, SlotsOf, CodeAt, Linked, Step, Cfg, Eval, Code;
    var goal := StmtsGoal(c, EvalStmts(c.src, k, es, env, mem), k, b + |CodeStmts(es, b, c.t)|, st);
    if es.Nil? {
      NoStep(c.p, Cfg(c, b, st, env, mem));
    } else {
      var ci := CodeStmts(es.init, b, c.t);
      var cl := Code(es.last, b + |ci|, c.t);
      hide CodeStmts, Covers, CoversAll, WellFormed, WellFormedStmts;
      StmtsNode(c, es, b, ret);
      StmtsCorrect(c, k, es.init, b, ret, st, env, mem);
      var o := EvalStmts(c.src, k, es.init, env, mem);
      if o.Done? {
        ExprCorrect(c, k, es.last, b + |ci|, ret, st, o.env, o.mem);
        var o1 := Eval(c.src, k, es.last, o.env, o.mem);
        if o1.Done? {
          RunDiscard(c, b + |ci| + |cl|, o1.value, st, o1.env, o1.mem);
          Chain(c.p, Cfg(c, b + |ci|, st, o.env, o.mem),
                Cfg(c, b + |ci| + |cl|, st + [o1.value], o1.env, o1.mem), goal);
        }
        Chain(c.p, Cfg(c, b, st, env, mem), Cfg(c, b + |ci|, st, o.env, o.mem), goal);
      }
    }
  }
}
