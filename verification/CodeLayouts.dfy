/** The layouts of compiled programs: every cell has one, they agree along all control flow, and so every
    state of every run follows them. */
module CodeLayouts {
  import opened Values
  import opened Bytecode
  import opened Source
  import opened Machine
  import opened Codegen
  import opened Simulation
  import opened BracketMatching
  import opened ControlFlow
  import opened CompilerCorrectness
  import opened Linking
  import opened Layouts
  import Stability

  // ----- the layouts of generated code -----

  /** The layout at `pc` inside the code of node `e` at `b`, which starts with `y`. */
  function At(e: Expr, b: nat, y: Layout, t: Tables, pc: int): Layout
    decreases e
  {
    match e
    case Number(_) => y
    case Text(s) => if pc == b then y else y.Know(Num(Find(t.consts, s)))
    case Var(x) => if pc == b then y else y.Know(Num(Find(t.vars, x)))
    case Bin(_, l, r) =>
      var b1 := b + |Code(r, b, t)|;
      var b2 := b1 + |Code(l, b1, t)|;
      if pc < b1 then At(r, b, y, t, pc) else if pc < b2 then At(l, b1, y.Up(1), t, pc) else y.Up(2)
    case Neg(a) => if pc < b + |Code(a, b, t)| then At(a, b, y, t, pc) else y.Up(1)
    case Assign(x, a) =>
      var b1 := b + |Code(a, b, t)|;
      var slot := Num(Find(t.vars, x));
      if pc < b1 then At(a, b, y, t, pc)
      else if pc == b1 then y.Up(1) else if pc == b1 + 1 then y.Up(1).Know(slot)
      else if pc == b1 + 2 then y else y.Know(slot)
    case Index(x, i) =>
      var b1 := b + |Code(i, b, t)|;
      if pc < b1 then At(i, b, y, t, pc)
      else if pc == b1 then y.Up(1) else if pc == b1 + 1 then y.Up(1).Know(Num(Find(t.vars, x))) else y.Up(2)
    case IndexAssign(x, i, a) =>
      var b1 := b + |Code(a, b, t)|;
      var b2 := b1 + |Code(i, b1, t)|;
      if pc < b1 then At(a, b, y, t, pc) else if pc < b2 then At(i, b1, y.Up(1), t, pc)
      else if pc == b2 then y.Up(2) else if pc == b2 + 1 then y.Up(2).Know(Num(Find(t.vars, x))) else y.Up(3)
    case Array(es) =>
      var b1 := b + |CodeList(es, b, t)|;
      var n := es.Length();
      if pc < b1 then AtList(es, b, y, t, pc) else if pc == b1 then y.Up(n) else y.Up(n).Know(Num(n))
    case Call(f, args) =>
      var b1 := b + |CodeList(args, b, t)|;
      var n := args.Length();
      var z := y.Up(n).Know(Num(n));
      if pc < b1 then AtList(args, b, y, t, pc)
      else if pc == b1 then y.Up(n) else if pc == b1 + 1 then z
      else if pc == b1 + 2 then z.Know(Num(Find(t.consts, f))) else z.Know(Str(f))
    case If(c, th, el) =>
      var cc := Code(c, b, t);
      var b1 := ThenAt(b, cc, t.scheme);
      var ct := CodeStmts(th, b1, t);
      var b2 := ElseAt(b, cc, ct, t.scheme);
      var e2 := b2 + |CodeStmts(el, b2, t)|;
      if pc < b + |cc| then At(c, b, y, t, pc)
      else if pc < b1 then AtTest(y, b2, b + |cc|, pc)
      else if pc < b1 + |ct| then AtStmts(th, b1, y, t, pc)
      else if pc < b2 then AtJump(y, e2, b1 + |ct|, pc)
      else if pc < e2 then AtStmts(el, b2, y, t, pc)
      else y
    case While(c, body) =>
      var b0 := b + LoopGap(t.scheme);
      var z := Inner(y, b, t.scheme);
      var cc := Code(c, b0, t);
      var b1 := BodyAt(b, cc, t.scheme);
      var e1 := b1 + |CodeStmts(body, b1, t)|;
      if pc < b0 then y
      else if pc < b0 + |cc| then At(c, b0, z, t, pc)
      else if pc < b1 then AtTest(z, e1 + 2, b0 + |cc|, pc)
      else if pc < e1 then AtStmts(body, b1, z, t, pc)
      else if pc == e1 then z
      else if t.scheme == Jumps then AtJump(y, b, e1, pc) else y
    case Return(a) => if pc < b + |Code(a, b, t)| then At(a, b, y, t, pc) else y.Up(1)
  }

  /** The jump or bracket behind a condition at `at`. */
  function AtTest(y: Layout, target: int, at: int, pc: int): Layout {
    if pc == at then y.Up(1) else y.Up(1).Know(Num(target))
  }

  /** The two cells of a jump at `at`, and what follows them. */
  function AtJump(y: Layout, target: int, at: int, pc: int): Layout {
    if pc == at + 1 then y.Know(Num(target)) else y
  }

  /** Inside a loop the structured lowering has entered it on the loop stack. */
  function Inner(y: Layout, b: nat, scheme: Scheme): Layout {
    if scheme == Jumps then y else y.(loops := y.loops + [b])
  }

  function AtList(es: Exprs, b: nat, y: Layout, t: Tables, pc: int): Layout
    decreases es
  {
    if es.Nil? then y
    else
      var b1 := b + |Code(es.last, b, t)|;
      if pc < b1 then At(es.last, b, y, t, pc) else AtList(es.init, b1, y.Up(1), t, pc)
  }

  function AtStmts(es: Exprs, b: nat, y: Layout, t: Tables, pc: int): Layout
    decreases es
  {
    if es.Nil? then y
    else
      var b1 := b + |CodeStmts(es.init, b, t)|;
      if pc < b1 then AtStmts(es.init, b, y, t, pc)
      else if pc < b1 + |Code(es.last, b1, t)| then At(es.last, b1, y, t, pc)
      else y.Up(1)
  }

  /** A node's first cell has the layout the node starts with. */
  lemma {:induction false} First(e: Expr, b: nat, y: Layout, t: Tables)
    requires y.known == []
    ensures At(e, b, y, t, b) == y && |Code(e, b, t)| > 0
    decreases e
  {
    Stability.CodeNonEmpty(e, b, t);
    match e
    case Bin(_, _, r) => First(r, b, y, t);
    case Neg(a) => First(a, b, y, t);
    case Assign(_, a) => First(a, b, y, t);
    case Index(_, i) => First(i, b, y, t);
    case IndexAssign(_, _, a) => First(a, b, y, t);
    case Array(es) => FirstOfList(es, b, y, t);
    case Call(_, args) => FirstOfList(args, b, y, t);
    case If(c, _, _) => First(c, b, y, t);
    case While(c, _) => First(c, b, y, t);
    case Return(a) => First(a, b, y, t);
    case _ =>
  }

  lemma {:induction false} FirstOfList(es: Exprs, b: nat, y: Layout, t: Tables)
    requires y.known == []
    ensures |CodeList(es, b, t)| > 0 ==> AtList(es, b, y, t, b) == y
    ensures |CodeList(es, b, t)| == 0 ==> es.Length() == 0
    decreases es
  {
    if es.Snoc? { First(es.last, b, y, t); }
  }

  lemma {:induction false} FirstOfStmts(es: Exprs, b: nat, y: Layout, t: Tables)
    requires y.known == []
    ensures |CodeStmts(es, b, t)| > 0 ==> AtStmts(es, b, y, t, b) == y
    decreases es
  {
    if es.Snoc? {
      FirstOfStmts(es.init, b, y, t);
      First(es.last, b + |CodeStmts(es.init, b, t)|, y, t);
    }
  }

  // ----- every cell of a node agrees with its neighbours -----

  ghost predicate Flows(p: Image, lay: seq<Layout>, lo: nat, hi: nat) {
    hi <= |p.code| && |lay| == |p.code| + 1 && forall pc: nat :: lo <= pc < hi ==> Flow(p, lay, pc)
  }

  lemma Join(p: Image, lay: seq<Layout>, a: nat, b: nat, c: nat)
    requires Flows(p, lay, a, b) && Flows(p, lay, b, c)
    ensures Flows(p, lay, a, c)
  {
    hide Flow;
  }

  lemma Join3(p: Image, lay: seq<Layout>, a: nat, b: nat, c: nat, d: nat)
    requires Flows(p, lay, a, b) && Flows(p, lay, b, c) && Flows(p, lay, c, d)
    ensures Flows(p, lay, a, d)
  {
    hide Flow;
  }

  /** What stays fixed while a program is laid out. */
  ghost predicate Laid(c: Ctx, lay: seq<Layout>) {
    && |lay| == |c.p.code| + 1 && c.p.consts == c.t.consts
    && forall f :: f in c.p.funs ==> c.p.funs[f] < |lay| && lay[c.p.funs[f]] == BODY_START
  }

  /** A `return` stands only where nothing is pending, inside a function. */
  predicate Start(y: Layout, ret: bool) {
    y.known == [] && (ret ==> y.h == 0 && y.inFun)
  }

  /** The cells of a node have the node's layouts, and the cell behind it one operand more. */
  ghost predicate NodeAt(lay: seq<Layout>, e: Expr, b: nat, y: Layout, t: Tables) {
    var end := b + |Code(e, b, t)|;
    && end < |lay| && lay[end] == y.Up(1)
    && forall pc: nat :: b <= pc < end ==> lay[pc] == At(e, b, y, t, pc)
  }

  ghost predicate ListAt(lay: seq<Layout>, es: Exprs, b: nat, y: Layout, t: Tables) {
    var end := b + |CodeList(es, b, t)|;
    && end < |lay| && lay[end] == y.Up(es.Length())
    && forall pc: nat :: b <= pc < end ==> lay[pc] == AtList(es, b, y, t, pc)
  }

  ghost predicate StmtsAt(lay: seq<Layout>, es: Exprs, b: nat, y: Layout, t: Tables) {
    var end := b + |CodeStmts(es, b, t)|;
    && end < |lay| && lay[end] == y
    && forall pc: nat :: b <= pc < end ==> lay[pc] == AtStmts(es, b, y, t, pc)
  }

  // Short stretches of code.

  lemma PushFlow(p: Image, lay: seq<Layout>, at: nat, n: int, y: Layout)
    requires CodeAt(p.code, at, [Push(n)]) && |lay| == |p.code| + 1 && lay[at] == y && Into(lay, at + 1, y.Know(Num(n)))
    ensures Flows(p, lay, at, at + 1)
  {
    Cell(p.code, at, [Push(n)], 0);
  }

  lemma OpFlows(p: Image, lay: seq<Layout>, at: nat, op: Opcode)
    requires CodeAt(p.code, at, [Do(op)]) && |lay| == |p.code| + 1 && OpFlow(p, lay, at, op)
    ensures Flows(p, lay, at, at + 1)
  {
    hide OpFlow;
    Cell(p.code, at, [Do(op)], 0);
  }

  /** A pushed number and the opcode that takes it. */
  lemma PairFlows(p: Image, lay: seq<Layout>, at: nat, k: nat, op: Opcode, y: Layout)
    requires CodeAt(p.code, at, [Push(k), Do(op)]) && |lay| == |p.code| + 1
    requires lay[at] == y && lay[at + 1] == y.Know(Num(k)) && OpFlow(p, lay, at + 1, op)
    ensures Flows(p, lay, at, at + 2)
  {
    hide OpFlow, CodeAt, Flows;
    assert [Push(k), Do(op)] == [Push(k)] + [Do(op)];
    SplitAt(p.code, at, [Push(k)], [Do(op)]);
    PushFlow(p, lay, at, k, y);
    OpFlows(p, lay, at + 1, op);
    Join(p, lay, at, at + 1, at + 2);
  }

  lemma InCode(code: seq<Instr>, b: nat, c: seq<Instr>)
    requires CodeAt(code, b, c)
    ensures b + |c| <= |code|
  {
  }

  lemma GetFlows(c: Ctx, lay: seq<Layout>, at: nat, x: string, y: Layout)
    requires CodeAt(c.p.code, at, GetVar(x, c.t)) && |lay| == |c.p.code| + 1
    requires lay[at] == y && lay[at + 1] == y.Know(Num(Find(c.t.vars, x))) && lay[at + 2] == y.Up(1)
    ensures Flows(c.p, lay, at, at + 2)
  {
    hide CodeAt, Find;
    InCode(c.p.code, at, GetVar(x, c.t));
    PairFlows(c.p, lay, at, Find(c.t.vars, x), GETVAR, y);
  }

  lemma SetFlows(c: Ctx, lay: seq<Layout>, at: nat, x: string, y: Layout)
    requires CodeAt(c.p.code, at, SetVar(x, c.t)) && |lay| == |c.p.code| + 1 && y.h >= 1
    requires lay[at] == y && lay[at + 1] == y.Know(Num(Find(c.t.vars, x))) && lay[at + 2] == y.Down(1)
    ensures Flows(c.p, lay, at, at + 2)
  {
    hide CodeAt, Find;
    InCode(c.p.code, at, SetVar(x, c.t));
    PairFlows(c.p, lay, at, Find(c.t.vars, x), SETVAR, y);
  }

  lemma ConstFlows(c: Ctx, lay: seq<Layout>, at: nat, s: string, y: Layout)
    requires CodeAt(c.p.code, at, Constant(s, c.t)) && |lay| == |c.p.code| + 1
    requires s in c.t.consts && c.p.consts == c.t.consts
    requires lay[at] == y && lay[at + 1] == y.Know(Num(Find(c.t.consts, s))) && Into(lay, at + 2, y.Know(Str(s)))
    ensures Flows(c.p, lay, at, at + 2)
  {
    hide CodeAt, Find;
    var k := Find(c.t.consts, s);
    assert y.Know(Num(k)).known[..|y.known|] == y.known;
    PairFlows(c.p, lay, at, k, CONSTANT, y);
  }

  lemma JumpFlows(p: Image, lay: seq<Layout>, at: nat, k: nat, y: Layout)
    requires CodeAt(p.code, at, [Push(k), Do(JUMP)]) && |lay| == |p.code| + 1 && k < |lay| && y.known == []
    requires lay[at] == y && lay[at + 1] == y.Know(Num(k)) && lay[k] == y
    ensures Flows(p, lay, at, at + 2)
  {
    hide CodeAt;
    PairFlows(p, lay, at, k, JUMP, y);
  }

  lemma BranchFlows(p: Image, lay: seq<Layout>, at: nat, k: nat, y: Layout)
    requires CodeAt(p.code, at, [Push(k), Do(JUMPF)]) && |lay| == |p.code| + 1 && k < |lay| && y.known == []
    requires lay[at] == y.Up(1) && lay[at + 1] == y.Up(1).Know(Num(k)) && lay[k] == y && lay[at + 2] == y
    ensures Flows(p, lay, at, at + 2)
  {
    hide CodeAt;
    InCode(p.code, at, [Push(k), Do(JUMPF)]);
    PairFlows(p, lay, at, k, JUMPF, y.Up(1));
  }

  // ----- nodes -----

  /** All cells of a node agree with their neighbours, under both lowerings. */
  lemma {:induction false} NodeFlows(c: Ctx, lay: seq<Layout>, e: Expr, b: nat, ret: bool, y: Layout)
    requires Laid(c, lay) && Covers(c.t, e) && WellFormed(c.src.funs, e, ret) && Start(y, ret)
    requires CodeAt(c.p.code, b, Code(e, b, c.t)) && NodeAt(lay, e, b, y, c.t)
    ensures Flows(c.p, lay, b, b + |Code(e, b, c.t)|)
    decreases e, 1
  {
    hide CodeAt, Flows, Laid, Find;
    match e
    case Number(n) => LaidLength(c, lay); PushFlow(c.p, lay, b, n, y);
    case Text(s) => LaidLength(c, lay); ConstFlows(c, lay, b, s, y);
    case Var(x) => LaidLength(c, lay); GetFlows(c, lay, b, x, y);
    case Bin(_, _, _) => BinFlows(c, lay, e, b, ret, y);
    case Neg(_) => NegFlows(c, lay, e, b, ret, y);
    case Assign(_, _) => AssignFlows(c, lay, e, b, ret, y);
    case Index(_, _) => IndexFlows(c, lay, e, b, ret, y);
    case IndexAssign(_, _, _) => IndexAssignFlows(c, lay, e, b, ret, y);
    case Array(_) => ArrayFlows(c, lay, e, b, ret, y);
    case Call(_, _) => CallFlows(c, lay, e, b, ret, y);
    case If(_, _, _) => IfFlows(c, lay, e, b, ret, y);
    case While(_, _) => WhileFlows(c, lay, e, b, ret, y);
    case Return(_) => ReturnFlows(c, lay, e, b, ret, y);
  }

  lemma LaidLength(c: Ctx, lay: seq<Layout>)
    requires Laid(c, lay)
    ensures |lay| == |c.p.code| + 1 && c.p.consts == c.t.consts
  {
  }

  lemma {:induction false} BinFlows(c: Ctx, lay: seq<Layout>, e: Expr, b: nat, ret: bool, y: Layout)
    requires e.Bin?
    requires Laid(c, lay) && Covers(c.t, e) && WellFormed(c.src.funs, e, ret) && Start(y, ret)
    requires CodeAt(c.p.code, b, Code(e, b, c.t)) && NodeAt(lay, e, b, y, c.t)
    ensures Flows(c.p, lay, b, b + |Code(e, b, c.t)|)
    decreases e, 0
  {
    hide Code, CodeList, CodeStmts, Covers, CoversAll, WellFormed, WellFormedList;
    hide WellFormedStmts, CodeAt, Flows, Laid, NodeAt, ListAt, StmtsAt, Find;
    BinNode(c, e, b, ret);
    BinAt(lay, e, b, y, c.t);
    var b1 := b + |Code(e.right, b, c.t)|;
    var b2 := b1 + |Code(e.left, b1, c.t)|;
    NodeFlows(c, lay, e.right, b, ret, y);
    NodeFlows(c, lay, e.left, b1, false, y.Up(1));
    LaidLength(c, lay);
    OpFlows(c.p, lay, b2, OpFor(e.op));
    Join3(c.p, lay, b, b1, b2, b2 + 1);
  }

  lemma BinAt(lay: seq<Layout>, e: Expr, b: nat, y: Layout, t: Tables)
    requires e.Bin? && NodeAt(lay, e, b, y, t)
    ensures var b1 := b + |Code(e.right, b, t)|;
            var b2 := b1 + |Code(e.left, b1, t)|;
            && NodeAt(lay, e.right, b, y, t) && NodeAt(lay, e.left, b1, y.Up(1), t)
            && b2 + 1 < |lay| && lay[b2] == y.Up(2) && lay[b2 + 1] == y.Up(1)
  {
    var b1 := b + |Code(e.right, b, t)|;
    First(e.left, b1, y.Up(1), t);
  }

  lemma NegAt(lay: seq<Layout>, e: Expr, b: nat, y: Layout, t: Tables)
    requires (e.Neg? || e.Return?) && NodeAt(lay, e, b, y, t)
    ensures var b1 := b + |Code(e.e, b, t)|;
            NodeAt(lay, e.e, b, y, t) && b1 + 1 < |lay| && lay[b1] == y.Up(1) && lay[b1 + 1] == y.Up(1)
  {
  }

  lemma {:induction false} NegFlows(c: Ctx, lay: seq<Layout>, e: Expr, b: nat, ret: bool, y: Layout)
    requires e.Neg?
    requires Laid(c, lay) && Covers(c.t, e) && WellFormed(c.src.funs, e, ret) && Start(y, ret)
    requires CodeAt(c.p.code, b, Code(e, b, c.t)) && NodeAt(lay, e, b, y, c.t)
    ensures Flows(c.p, lay, b, b + |Code(e, b, c.t)|)
    decreases e, 0
  {
    hide Code, CodeList, CodeStmts, Covers, CoversAll, WellFormed, WellFormedList;
    hide WellFormedStmts, CodeAt, Flows, Laid, NodeAt, ListAt, StmtsAt, Find;
    NegNode(c, e, b, ret);
    NegAt(lay, e, b, y, c.t);
    var b1 := b + |Code(e.e, b, c.t)|;
    NodeFlows(c, lay, e.e, b, ret, y);
    LaidLength(c, lay);
    OpFlows(c.p, lay, b1, NEGATE);
    Join(c.p, lay, b, b1, b1 + 1);
  }

  lemma ReturnAllowed(funs: seq<Func>, e: Expr, ret: bool)
    requires e.Return? && WellFormed(funs, e, ret)
    ensures ret
  {
  }

  lemma {:induction false} ReturnFlows(c: Ctx, lay: seq<Layout>, e: Expr, b: nat, ret: bool, y: Layout)
    requires e.Return?
    requires Laid(c, lay) && Covers(c.t, e) && WellFormed(c.src.funs, e, ret) && Start(y, ret)
    requires CodeAt(c.p.code, b, Code(e, b, c.t)) && NodeAt(lay, e, b, y, c.t)
    ensures Flows(c.p, lay, b, b + |Code(e, b, c.t)|)
    decreases e, 0
  {
    hide Code, CodeList, CodeStmts, Covers, CoversAll, WellFormed, WellFormedList;
    hide WellFormedStmts, CodeAt, Flows, Laid, NodeAt, ListAt, StmtsAt, Find;
    ReturnNode(c, e, b, ret);
    ReturnAllowed(c.src.funs, e, ret);
    NegAt(lay, e, b, y, c.t);
    var b1 := b + |Code(e.e, b, c.t)|;
    NodeFlows(c, lay, e.e, b, ret, y);
    LaidLength(c, lay);
    OpFlows(c.p, lay, b1, RET);
    Join(c.p, lay, b, b1, b1 + 1);
  }

  lemma AssignAt(lay: seq<Layout>, e: Expr, b: nat, y: Layout, t: Tables)
    requires e.Assign? && NodeAt(lay, e, b, y, t)
    ensures var b1 := b + |Code(e.e, b, t)|;
            var slot := Num(Find(t.vars, e.x));
            && NodeAt(lay, e.e, b, y, t) && b1 + 4 < |lay| && lay[b1] == y.Up(1) && lay[b1 + 1] == y.Up(1).Know(slot)
            && lay[b1 + 2] == y && lay[b1 + 3] == y.Know(slot) && lay[b1 + 4] == y.Up(1)
  {
    hide Find;
  }

  lemma {:induction false} AssignFlows(c: Ctx, lay: seq<Layout>, e: Expr, b: nat, ret: bool, y: Layout)
    requires e.Assign?
    requires Laid(c, lay) && Covers(c.t, e) && WellFormed(c.src.funs, e, ret) && Start(y, ret)
    requires CodeAt(c.p.code, b, Code(e, b, c.t)) && NodeAt(lay, e, b, y, c.t)
    ensures Flows(c.p, lay, b, b + |Code(e, b, c.t)|)
    decreases e, 0
  {
    hide Code, CodeList, CodeStmts, Covers, CoversAll, WellFormed, WellFormedList;
    hide WellFormedStmts, CodeAt, Flows, Laid, NodeAt, ListAt, StmtsAt, Find;
    AssignNode(c, e, b, ret);
    AssignAt(lay, e, b, y, c.t);
    var b1 := b + |Code(e.e, b, c.t)|;
    NodeFlows(c, lay, e.e, b, ret, y);
    LaidLength(c, lay);
    SetFlows(c, lay, b1, e.x, y.Up(1));
    GetFlows(c, lay, b1 + 2, e.x, y);
    Join3(c.p, lay, b, b1, b1 + 2, b1 + 4);
  }

  lemma IndexAt(lay: seq<Layout>, e: Expr, b: nat, y: Layout, t: Tables)
    requires e.Index? && NodeAt(lay, e, b, y, t)
    ensures var b1 := b + |Code(e.i, b, t)|;
            && NodeAt(lay, e.i, b, y, t) && b1 + 3 < |lay| && lay[b1] == y.Up(1)
            && lay[b1 + 1] == y.Up(1).Know(Num(Find(t.vars, e.x))) && lay[b1 + 2] == y.Up(2) && lay[b1 + 3] == y.Up(1)
  {
    hide Find;
  }

  lemma {:induction false} IndexFlows(c: Ctx, lay: seq<Layout>, e: Expr, b: nat, ret: bool, y: Layout)
    requires e.Index?
    requires Laid(c, lay) && Covers(c.t, e) && WellFormed(c.src.funs, e, ret) && Start(y, ret)
    requires CodeAt(c.p.code, b, Code(e, b, c.t)) && NodeAt(lay, e, b, y, c.t)
    ensures Flows(c.p, lay, b, b + |Code(e, b, c.t)|)
    decreases e, 0
  {
    hide Code, CodeList, CodeStmts, Covers, CoversAll, WellFormed, WellFormedList;
    hide WellFormedStmts, CodeAt, Flows, Laid, NodeAt, ListAt, StmtsAt, Find;
    IndexNode(c, e, b, ret);
    IndexAt(lay, e, b, y, c.t);
    var b1 := b + |Code(e.i, b, c.t)|;
    NodeFlows(c, lay, e.i, b, ret, y);
    LaidLength(c, lay);
    GetFlows(c, lay, b1, e.x, y.Up(1));
    OpFlows(c.p, lay, b1 + 2, INDEX1);
    Join3(c.p, lay, b, b1, b1 + 2, b1 + 3);
  }

  lemma {:induction false} IndexAssignFlows(c: Ctx, lay: seq<Layout>, e: Expr, b: nat, ret: bool, y: Layout)
    requires e.IndexAssign?
    requires Laid(c, lay) && Covers(c.t, e) && WellFormed(c.src.funs, e, ret) && Start(y, ret)
    requires CodeAt(c.p.code, b, Code(e, b, c.t)) && NodeAt(lay, e, b, y, c.t)
    ensures Flows(c.p, lay, b, b + |Code(e, b, c.t)|)
    decreases e, 0
  {
    hide Code, CodeList, CodeStmts, Covers, CoversAll, WellFormed, WellFormedList;
    hide WellFormedStmts, CodeAt, Flows, Laid, NodeAt, ListAt, StmtsAt, Find;
    IndexAssignNode(c, e, b, ret);
    IndexAssignAt(lay, e, b, y, c.t);
    var b1 := b + |Code(e.e, b, c.t)|;
    var b2 := b1 + |Code(e.i, b1, c.t)|;
    NodeFlows(c, lay, e.e, b, ret, y);
    NodeFlows(c, lay, e.i, b1, false, y.Up(1));
    LaidLength(c, lay);
    GetFlows(c, lay, b2, e.x, y.Up(2));
    OpFlows(c.p, lay, b2 + 2, INDEXAS);
    Join3(c.p, lay, b, b1, b2, b2 + 2);
    Join(c.p, lay, b, b2 + 2, b2 + 3);
  }

  lemma AtIndexAssign(e: Expr, b: nat, y: Layout, t: Tables, pc: int)
    requires e.IndexAssign?
    ensures var b1 := b + |Code(e.e, b, t)|;
            var b2 := b1 + |Code(e.i, b1, t)|;
            && b + |Code(e, b, t)| == b2 + 3
            && At(e, b, y, t, pc) ==
               if pc < b1 then At(e.e, b, y, t, pc) else if pc < b2 then At(e.i, b1, y.Up(1), t, pc)
               else if pc == b2 then y.Up(2) else if pc == b2 + 1 then y.Up(2).Know(Num(Find(t.vars, e.x))) else y.Up(3)
  {
    hide Find;
  }

  lemma IndexAssignAt(lay: seq<Layout>, e: Expr, b: nat, y: Layout, t: Tables)
    requires e.IndexAssign? && NodeAt(lay, e, b, y, t)
    ensures var b1 := b + |Code(e.e, b, t)|;
            var b2 := b1 + |Code(e.i, b1, t)|;
            && NodeAt(lay, e.e, b, y, t) && NodeAt(lay, e.i, b1, y.Up(1), t)
            && b2 + 3 < |lay| && lay[b2] == y.Up(2) && lay[b2 + 1] == y.Up(2).Know(Num(Find(t.vars, e.x)))
            && lay[b2 + 2] == y.Up(3) && lay[b2 + 3] == y.Up(1)
  {
    hide Code, At, Find;
    var b1 := b + |Code(e.e, b, t)|;
    var b2 := b1 + |Code(e.i, b1, t)|;
    AtIndexAssign(e, b, y, t, b);
    forall pc: nat | b <= pc < b2 + 3
      ensures lay[pc] == if pc < b1 then At(e.e, b, y, t, pc) else if pc < b2 then At(e.i, b1, y.Up(1), t, pc)
                         else if pc == b2 then y.Up(2)
                         else if pc == b2 + 1 then y.Up(2).Know(Num(Find(t.vars, e.x))) else y.Up(3)
    {
      AtIndexAssign(e, b, y, t, pc);
    }
    First(e.i, b1, y.Up(1), t);
  }

  lemma ArrayAt(lay: seq<Layout>, e: Expr, b: nat, y: Layout, t: Tables)
    requires e.Array? && NodeAt(lay, e, b, y, t)
    ensures var b1 := b + |CodeList(e.elems, b, t)|;
            var n := e.elems.Length();
            && ListAt(lay, e.elems, b, y, t) && b1 + 2 < |lay|
            && lay[b1] == y.Up(n) && lay[b1 + 1] == y.Up(n).Know(Num(n)) && lay[b1 + 2] == y.Up(1)
  {
    hide CodeList, AtList;
  }

  lemma {:induction false} ArrayFlows(c: Ctx, lay: seq<Layout>, e: Expr, b: nat, ret: bool, y: Layout)
    requires e.Array?
    requires Laid(c, lay) && Covers(c.t, e) && WellFormed(c.src.funs, e, ret) && Start(y, ret)
    requires CodeAt(c.p.code, b, Code(e, b, c.t)) && NodeAt(lay, e, b, y, c.t)
    ensures Flows(c.p, lay, b, b + |Code(e, b, c.t)|)
    decreases e, 0
  {
    hide Code, CodeList, CodeStmts, Covers, CoversAll, WellFormed, WellFormedList;
    hide WellFormedStmts, CodeAt, Flows, Laid, NodeAt, ListAt, StmtsAt, Find;
    ArrayNode(c, e, b, ret);
    ArrayAt(lay, e, b, y, c.t);
    var b1 := b + |CodeList(e.elems, b, c.t)|;
    var n := e.elems.Length();
    ListFlows(c, lay, e.elems, b, ret, y);
    LaidLength(c, lay);
    PairFlows(c.p, lay, b1, n, MKARRAY, y.Up(n));
    Join(c.p, lay, b, b1, b1 + 2);
  }

  lemma CallAt(lay: seq<Layout>, e: Expr, b: nat, y: Layout, t: Tables)
    requires e.Call? && NodeAt(lay, e, b, y, t)
    ensures var b1 := b + |CodeList(e.args, b, t)|;
            var n := e.args.Length();
            var z := y.Up(n).Know(Num(n));
            && ListAt(lay, e.args, b, y, t) && b1 + 4 < |lay| && lay[b1] == y.Up(n) && lay[b1 + 1] == z
            && lay[b1 + 2] == z.Know(Num(Find(t.consts, e.f))) && lay[b1 + 3] == z.Know(Str(e.f))
            && lay[b1 + 4] == y.Up(1)
  {
    hide CodeList, AtList, Find;
  }

  lemma EntryAt(c: Ctx, lay: seq<Layout>, f: string)
    requires Laid(c, lay) && f in c.p.funs
    ensures Into(lay, c.p.funs[f], BODY_START)
  {
  }

  lemma {:induction false} CallFlows(c: Ctx, lay: seq<Layout>, e: Expr, b: nat, ret: bool, y: Layout)
    requires e.Call?
    requires Laid(c, lay) && Covers(c.t, e) && WellFormed(c.src.funs, e, ret) && Start(y, ret)
    requires CodeAt(c.p.code, b, Code(e, b, c.t)) && NodeAt(lay, e, b, y, c.t)
    ensures Flows(c.p, lay, b, b + |Code(e, b, c.t)|)
    decreases e, 0
  {
    hide Code, CodeList, CodeStmts, Covers, CoversAll, WellFormed, WellFormedList;
    hide WellFormedStmts, CodeAt, Flows, Laid, NodeAt, ListAt, StmtsAt, Find;
    CallNode(c, e, b, ret);
    CallAt(lay, e, b, y, c.t);
    if e.f in c.p.funs { EntryAt(c, lay, e.f); }
    var b1 := b + |CodeList(e.args, b, c.t)|;
    var n := e.args.Length();
    var z := y.Up(n).Know(Num(n));
    ListFlows(c, lay, e.args, b, ret, y);
    LaidLength(c, lay);
    PushFlow(c.p, lay, b1, n, y.Up(n));
    ConstFlows(c, lay, b1 + 1, e.f, z);
    assert CallFlow(c.p, lay, b1 + 3);
    OpFlows(c.p, lay, b1 + 3, CALL);
    Join3(c.p, lay, b, b1, b1 + 1, b1 + 3);
    Join(c.p, lay, b, b1 + 3, b1 + 4);
  }

  lemma {:induction false} ListFlows(c: Ctx, lay: seq<Layout>, es: Exprs, b: nat, ret: bool, y: Layout)
    requires Laid(c, lay) && CoversAll(c.t, es) && WellFormedList(c.src.funs, es, ret) && Start(y, ret)
    requires CodeAt(c.p.code, b, CodeList(es, b, c.t)) && ListAt(lay, es, b, y, c.t)
    ensures Flows(c.p, lay, b, b + |CodeList(es, b, c.t)|)
    decreases es
  {
    hide Code, CodeList, Covers, CoversAll, WellFormed, WellFormedList, CodeAt, Flows, Laid, NodeAt, ListAt;
    if es.Nil? {
      NoList(c, lay, es, b, y);
    } else {
      ListNode(c, es, b, ret);
      ListPartsAt(lay, es, b, y, c.t);
      var b1 := b + |Code(es.last, b, c.t)|;
      NodeFlows(c, lay, es.last, b, ret, y);
      ListFlows(c, lay, es.init, b1, false, y.Up(1));
      Join(c.p, lay, b, b1, b1 + |CodeList(es.init, b1, c.t)|);
    }
  }

  lemma ListNode(c: Ctx, es: Exprs, b: nat, ret: bool)
    requires es.Snoc? && CoversAll(c.t, es) && WellFormedList(c.src.funs, es, ret)
    requires CodeAt(c.p.code, b, CodeList(es, b, c.t))
    ensures var cl := Code(es.last, b, c.t);
            && CodeAt(c.p.code, b, cl) && CodeAt(c.p.code, b + |cl|, CodeList(es.init, b + |cl|, c.t))
            && |CodeList(es, b, c.t)| == |cl| + |CodeList(es.init, b + |cl|, c.t)|
    ensures CoversAll(c.t, es.init) && Covers(c.t, es.last)
    ensures WellFormedList(c.src.funs, es.init, false) && WellFormed(c.src.funs, es.last, ret)
  {
    hide CodeAt, Code, Covers, WellFormed;
    var cl := Code(es.last, b, c.t);
    SplitAt(c.p.code, b, cl, CodeList(es.init, b + |cl|, c.t));
  }

  lemma NoList(c: Ctx, lay: seq<Layout>, es: Exprs, b: nat, y: Layout)
    requires es.Nil? && Laid(c, lay) && ListAt(lay, es, b, y, c.t)
    ensures Flows(c.p, lay, b, b + |CodeList(es, b, c.t)|)
  {
  }

  lemma NoStmts(c: Ctx, lay: seq<Layout>, es: Exprs, b: nat, y: Layout)
    requires es.Nil? && Laid(c, lay) && StmtsAt(lay, es, b, y, c.t)
    ensures Flows(c.p, lay, b, b + |CodeStmts(es, b, c.t)|)
  {
  }

  lemma ListPartsAt(lay: seq<Layout>, es: Exprs, b: nat, y: Layout, t: Tables)
    requires es.Snoc? && ListAt(lay, es, b, y, t)
    ensures var b1 := b + |Code(es.last, b, t)|;
            NodeAt(lay, es.last, b, y, t) && ListAt(lay, es.init, b1, y.Up(1), t)
  {
    hide Code, At;
    var b1 := b + |Code(es.last, b, t)|;
    FirstOfList(es.init, b1, y.Up(1), t);
    assert y.Up(es.Length()) == y.Up(1).Up(es.init.Length());
  }

  lemma {:induction false} StmtsFlows(c: Ctx, lay: seq<Layout>, es: Exprs, b: nat, ret: bool, y: Layout)
    requires Laid(c, lay) && CoversAll(c.t, es) && WellFormedStmts(c.src.funs, es, ret) && Start(y, ret)
    requires CodeAt(c.p.code, b, CodeStmts(es, b, c.t)) && StmtsAt(lay, es, b, y, c.t)
    ensures Flows(c.p, lay, b, b + |CodeStmts(es, b, c.t)|)
    decreases es
  {
    hide Code, CodeStmts, Covers, CoversAll, WellFormed, WellFormedStmts, CodeAt, Flows, Laid, NodeAt, StmtsAt;
    if es.Nil? {
      NoStmts(c, lay, es, b, y);
    } else {
      StmtsNode(c, es, b, ret);
      StmtsPartsAt(lay, es, b, y, c.t);
      var b1 := b + |CodeStmts(es.init, b, c.t)|;
      var b2 := b1 + |Code(es.last, b1, c.t)|;
      StmtsFlows(c, lay, es.init, b, ret, y);
      NodeFlows(c, lay, es.last, b1, ret, y);
      LaidLength(c, lay);
      OpFlows(c.p, lay, b2, DISCARD);
      Join3(c.p, lay, b, b1, b2, b2 + 1);
    }
  }

  lemma StmtsPartsAt(lay: seq<Layout>, es: Exprs, b: nat, y: Layout, t: Tables)
    requires es.Snoc? && StmtsAt(lay, es, b, y, t) && y.known == []
    ensures var b1 := b + |CodeStmts(es.init, b, t)|;
            var b2 := b1 + |Code(es.last, b1, t)|;
            && StmtsAt(lay, es.init, b, y, t) && NodeAt(lay, es.last, b1, y, t)
            && b2 + 1 < |lay| && lay[b2] == y.Up(1) && lay[b2 + 1] == y
  {
    var b1 := b + |CodeStmts(es.init, b, t)|;
    First(es.last, b1, y, t);
  }

  lemma {:induction false} IfFlows(c: Ctx, lay: seq<Layout>, e: Expr, b: nat, ret: bool, y: Layout)
    requires e.If?
    requires Laid(c, lay) && Covers(c.t, e) && WellFormed(c.src.funs, e, ret) && Start(y, ret)
    requires CodeAt(c.p.code, b, Code(e, b, c.t)) && NodeAt(lay, e, b, y, c.t)
    ensures Flows(c.p, lay, b, b + |Code(e, b, c.t)|)
    decreases e, 0
  {
    hide Code, CodeStmts, IfCode, WhileCode, Covers, CoversAll, WellFormed;
    hide WellFormedStmts, CodeAt, Laid, NodeAt, StmtsAt, Flows, Balanced;
    hide ThenAt, ElseAt, IfSeamsAt, AtTest, AtJump;
    IfNode(c, e, b, ret);
    IfPartsLaid(lay, e, b, y, c.t);
    IfSeamsLaid(lay, e, b, y, c.t);
    var cc := Code(e.cond, b, c.t);
    var b1 := ThenAt(b, cc, c.t.scheme);
    var ct := CodeStmts(e.thn, b1, c.t);
    var b2 := ElseAt(b, cc, ct, c.t.scheme);
    var cf := CodeStmts(e.els, b2, c.t);
    NodeFlows(c, lay, e.cond, b, ret, y);
    StmtsFlows(c, lay, e.thn, b1, ret, y);
    StmtsFlows(c, lay, e.els, b2, ret, y);
    LaidLength(c, lay);
    IfSeams(c.p, lay, b, cc, ct, cf, c.t.scheme, y);
    Join3(c.p, lay, b, b + |cc|, b1, b1 + |ct|);
    Join3(c.p, lay, b, b1 + |ct|, b2, b2 + |cf|);
    Join(c.p, lay, b, b2 + |cf|, b + |IfCode(b, cc, ct, cf, c.t.scheme)|);
  }

  /** The layouts of an `if` between and behind its parts. */
  ghost predicate IfSeamsAt(lay: seq<Layout>, b: nat, cc: seq<Instr>, ct: seq<Instr>, cf: seq<Instr>,
                            scheme: Scheme, y: Layout) {
    var b1, b2 := ThenAt(b, cc, scheme), ElseAt(b, cc, ct, scheme);
    var e0, e1, e2 := b + |cc|, b1 + |ct|, b2 + |cf|;
    var end := b + |IfCode(b, cc, ct, cf, scheme)|;
    && e0 < b1 <= e1 < b2 <= e2 < end < |lay|
    && (forall pc: nat :: e0 <= pc < b1 ==> lay[pc] == AtTest(y, b2, e0, pc))
    && (forall pc: nat :: e1 <= pc < b2 ==> lay[pc] == AtJump(y, e2, e1, pc))
    && (forall pc: nat :: e2 <= pc < end ==> lay[pc] == y)
    && lay[b1] == y && lay[b2] == y && lay[end] == y.Up(1)
  }

  lemma IfInside(lay: seq<Layout>, e: Expr, b: nat, y: Layout, t: Tables)
    requires e.If? && NodeAt(lay, e, b, y, t)
    ensures var end := b + |Code(e, b, t)|;
            && end < |lay| && lay[end] == y.Up(1)
            && forall pc: nat :: b <= pc < end ==> InIf(e, b, y, t, pc, lay[pc])
  {
    hide Code, At, AtIf, InIf;
    forall pc: nat | b <= pc < b + |Code(e, b, t)| ensures InIf(e, b, y, t, pc, lay[pc]) {
      AtIfIs(e, b, y, t, pc);
      AtIfRanges(e, b, y, t, pc);
    }
  }

  /** Where the two branches start. */
  lemma BranchStarts(lay: seq<Layout>, e: Expr, b: nat, y: Layout, t: Tables)
    requires e.If? && NodeAt(lay, e, b, y, t) && y.known == []
    ensures var cc := Code(e.cond, b, t);
            var b1 := ThenAt(b, cc, t.scheme);
            var b2 := ElseAt(b, cc, CodeStmts(e.thn, b1, t), t.scheme);
            b1 < |lay| && b2 < |lay| && lay[b1] == y && lay[b2] == y
  {
    hide Code, CodeStmts, IfCode, ThenAt, ElseAt, AtTest, AtJump, At, AtStmts, AtIf;
    var cc := Code(e.cond, b, t);
    var b1 := ThenAt(b, cc, t.scheme);
    var ct := CodeStmts(e.thn, b1, t);
    var b2 := ElseAt(b, cc, ct, t.scheme);
    var cf := CodeStmts(e.els, b2, t);
    IfInside(lay, e, b, y, t);
    IfCodeIs(e, b, t);
    IfRanges(b, cc, ct, cf, t.scheme);
    FirstOfStmts(e.thn, b1, y, t);
    FirstOfStmts(e.els, b2, y, t);
    JumpCells(y);
  }

  lemma IfPartsLaid(lay: seq<Layout>, e: Expr, b: nat, y: Layout, t: Tables)
    requires e.If? && NodeAt(lay, e, b, y, t) && y.known == []
    ensures var cc := Code(e.cond, b, t);
            var b1 := ThenAt(b, cc, t.scheme);
            var ct := CodeStmts(e.thn, b1, t);
            var b2 := ElseAt(b, cc, ct, t.scheme);
            var cf := CodeStmts(e.els, b2, t);
            NodeAt(lay, e.cond, b, y, t) && StmtsAt(lay, e.thn, b1, y, t) && StmtsAt(lay, e.els, b2, y, t)
  {
    hide Code, CodeStmts, IfCode, ThenAt, ElseAt, AtTest, AtJump, At, AtStmts, AtIf;
    var cc := Code(e.cond, b, t);
    var b1 := ThenAt(b, cc, t.scheme);
    var ct := CodeStmts(e.thn, b1, t);
    var b2 := ElseAt(b, cc, ct, t.scheme);
    var cf := CodeStmts(e.els, b2, t);
    IfInside(lay, e, b, y, t);
    IfCodeIs(e, b, t);
    IfRanges(b, cc, ct, cf, t.scheme);
    JumpCells(y);
  }

  lemma IfSeamsLaid(lay: seq<Layout>, e: Expr, b: nat, y: Layout, t: Tables)
    requires e.If? && NodeAt(lay, e, b, y, t) && y.known == []
    ensures var cc := Code(e.cond, b, t);
            var b1 := ThenAt(b, cc, t.scheme);
            var ct := CodeStmts(e.thn, b1, t);
            var b2 := ElseAt(b, cc, ct, t.scheme);
            var cf := CodeStmts(e.els, b2, t);
            IfSeamsAt(lay, b, cc, ct, cf, t.scheme, y)
  {
    hide Code, CodeStmts, IfCode, ThenAt, ElseAt, AtTest, AtJump, At, AtStmts, AtIf;
    var cc := Code(e.cond, b, t);
    var b1 := ThenAt(b, cc, t.scheme);
    var ct := CodeStmts(e.thn, b1, t);
    var b2 := ElseAt(b, cc, ct, t.scheme);
    var cf := CodeStmts(e.els, b2, t);
    IfInside(lay, e, b, y, t);
    IfCodeIs(e, b, t);
    IfRanges(b, cc, ct, cf, t.scheme);
    BranchStarts(lay, e, b, y, t);
  }

  /** `z` is the layout at `pc`, in the six stretches of an `if`. */
  predicate InIf(e: Expr, b: nat, y: Layout, t: Tables, pc: int, z: Layout)
    requires e.If?
  {
    var cc := Code(e.cond, b, t);
    var b1 := ThenAt(b, cc, t.scheme);
    var ct := CodeStmts(e.thn, b1, t);
    var b2 := ElseAt(b, cc, ct, t.scheme);
    var e2 := b2 + |CodeStmts(e.els, b2, t)|;
    && (pc < b + |cc| ==> z == At(e.cond, b, y, t, pc))
    && (b + |cc| <= pc < b1 ==> z == AtTest(y, b2, b + |cc|, pc))
    && (b1 <= pc < b1 + |ct| ==> z == AtStmts(e.thn, b1, y, t, pc))
    && (b1 + |ct| <= pc < b2 ==> z == AtJump(y, e2, b1 + |ct|, pc))
    && (b2 <= pc < e2 ==> z == AtStmts(e.els, b2, y, t, pc))
    && (e2 <= pc ==> z == y)
  }

  lemma AtIfRanges(e: Expr, b: nat, y: Layout, t: Tables, pc: int)
    requires e.If?
    ensures InIf(e, b, y, t, pc, AtIf(e, b, y, t, pc))
  {
    hide Code, CodeStmts, At, AtStmts, AtTest, AtJump;
  }

  function AtIf(e: Expr, b: nat, y: Layout, t: Tables, pc: int): Layout
    requires e.If?
  {
    var cc := Code(e.cond, b, t);
    var b1 := ThenAt(b, cc, t.scheme);
    var ct := CodeStmts(e.thn, b1, t);
    var b2 := ElseAt(b, cc, ct, t.scheme);
    var e2 := b2 + |CodeStmts(e.els, b2, t)|;
    if pc < b + |cc| then At(e.cond, b, y, t, pc)
    else if pc < b1 then AtTest(y, b2, b + |cc|, pc)
    else if pc < b1 + |ct| then AtStmts(e.thn, b1, y, t, pc)
    else if pc < b2 then AtJump(y, e2, b1 + |ct|, pc)
    else if pc < e2 then AtStmts(e.els, b2, y, t, pc)
    else y
  }

  lemma AtIfIs(e: Expr, b: nat, y: Layout, t: Tables, pc: int)
    requires e.If?
    ensures At(e, b, y, t, pc) == AtIf(e, b, y, t, pc)
  {
    hide AtTest, AtJump;
  }

  lemma IfRanges(b: nat, cc: seq<Instr>, ct: seq<Instr>, cf: seq<Instr>, scheme: Scheme)
    ensures var b1, b2 := ThenAt(b, cc, scheme), ElseAt(b, cc, ct, scheme);
            b + |cc| < b1 && b1 + |ct| < b2 && b2 + |cf| < b + |IfCode(b, cc, ct, cf, scheme)|
  {
  }

  /** The first cell of a jump keeps its layout. */
  lemma JumpCells(y: Layout)
    ensures forall target, at :: AtJump(y, target, at, at) == y && AtTest(y, target, at, at) == y.Up(1)
  {
  }

  lemma IfJumpSeams(p: Image, lay: seq<Layout>, b: nat, cc: seq<Instr>, ct: seq<Instr>, cf: seq<Instr>, y: Layout)
    requires |lay| == |p.code| + 1 && CodeAt(p.code, b, IfCode(b, cc, ct, cf, Jumps)) && Balanced(ct) && Balanced(cf)
    requires IfSeamsAt(lay, b, cc, ct, cf, Jumps, y) && y.known == []
    ensures var b1, b2 := ThenAt(b, cc, Jumps), ElseAt(b, cc, ct, Jumps);
            && Flows(p, lay, b + |cc|, b1) && Flows(p, lay, b1 + |ct|, b2)
            && Flows(p, lay, b2 + |cf|, b + |IfCode(b, cc, ct, cf, Jumps)|)
  {
    hide CodeAt, Flows, Balanced, Scan;
    var b1, b2 := ThenAt(b, cc, Jumps), ElseAt(b, cc, ct, Jumps);
    IfJumps(p.code, b, cc, ct, cf);
    BranchFlows(p, lay, b + |cc|, b2, y);
    JumpFlows(p, lay, b1 + |ct|, b2 + |cf|, y);
    PushFlow(p, lay, b2 + |cf|, 0, y);
  }

  lemma IfBracketSeams(p: Image, lay: seq<Layout>, b: nat, cc: seq<Instr>, ct: seq<Instr>, cf: seq<Instr>, y: Layout)
    requires |lay| == |p.code| + 1 && CodeAt(p.code, b, IfCode(b, cc, ct, cf, Brackets)) && Balanced(ct) && Balanced(cf)
    requires IfSeamsAt(lay, b, cc, ct, cf, Brackets, y) && y.known == []
    ensures var b1, b2 := ThenAt(b, cc, Brackets), ElseAt(b, cc, ct, Brackets);
            && Flows(p, lay, b + |cc|, b1) && Flows(p, lay, b1 + |ct|, b2)
            && Flows(p, lay, b2 + |cf|, b + |IfCode(b, cc, ct, cf, Brackets)|)
  {
    hide CodeAt, Flows, Balanced, Scan;
    var b1, b2 := ThenAt(b, cc, Brackets), ElseAt(b, cc, ct, Brackets);
    IfBrackets(p.code, b, cc, ct, cf);
    CondScans(p.code, b + |cc|, ct, cf);
    OpFlows(p, lay, b + |cc|, CONDBEGIN);
    OpFlows(p, lay, b1 + |ct|, CONDELSE);
    OpFlows(p, lay, b2 + |cf|, CONDEND);
    PushFlow(p, lay, b2 + |cf| + 1, 0, y);
    Join(p, lay, b2 + |cf|, b2 + |cf| + 1, b2 + |cf| + 2);
  }

  lemma IfSeams(p: Image, lay: seq<Layout>, b: nat, cc: seq<Instr>, ct: seq<Instr>, cf: seq<Instr>, scheme: Scheme,
                y: Layout)
    requires |lay| == |p.code| + 1 && CodeAt(p.code, b, IfCode(b, cc, ct, cf, scheme)) && Balanced(ct) && Balanced(cf)
    requires IfSeamsAt(lay, b, cc, ct, cf, scheme, y) && y.known == []
    ensures var b1, b2 := ThenAt(b, cc, scheme), ElseAt(b, cc, ct, scheme);
            && Flows(p, lay, b + |cc|, b1) && Flows(p, lay, b1 + |ct|, b2)
            && Flows(p, lay, b2 + |cf|, b + |IfCode(b, cc, ct, cf, scheme)|)
  {
    if scheme == Jumps { IfJumpSeams(p, lay, b, cc, ct, cf, y); } else { IfBracketSeams(p, lay, b, cc, ct, cf, y); }
  }

  lemma {:induction false} WhileFlows(c: Ctx, lay: seq<Layout>, e: Expr, b: nat, ret: bool, y: Layout)
    requires e.While?
    requires Laid(c, lay) && Covers(c.t, e) && WellFormed(c.src.funs, e, ret) && Start(y, ret)
    requires CodeAt(c.p.code, b, Code(e, b, c.t)) && NodeAt(lay, e, b, y, c.t)
    ensures Flows(c.p, lay, b, b + |Code(e, b, c.t)|)
    decreases e, 0
  {
    hide Code, CodeStmts, IfCode, WhileCode, Covers, CoversAll, WellFormed;
    hide WellFormedStmts, CodeAt, Laid, NodeAt, StmtsAt, Flows, Balanced;
    hide BodyAt, WhileSeamsAt, AtTest, AtJump;
    WhileNode(c, e, b, ret);
    WhileAt(lay, e, b, y, c.t);
    var b0 := b + LoopGap(c.t.scheme);
    var z := Inner(y, b, c.t.scheme);
    var cc := Code(e.cond, b0, c.t);
    var b1 := BodyAt(b, cc, c.t.scheme);
    var body := CodeStmts(e.body, b1, c.t);
    NodeFlows(c, lay, e.cond, b0, ret, z);
    StmtsFlows(c, lay, e.body, b1, ret, z);
    LaidLength(c, lay);
    WhileSeams(c.p, lay, b, cc, body, c.t.scheme, y);
    Join3(c.p, lay, b, b0, b0 + |cc|, b1);
    Join3(c.p, lay, b, b1, b1 + |body|, b + |WhileCode(b, cc, body, c.t.scheme)|);
  }

  ghost predicate WhileSeamsAt(lay: seq<Layout>, b: nat, cc: seq<Instr>, body: seq<Instr>, scheme: Scheme, y: Layout) {
    var z := Inner(y, b, scheme);
    var b0, b1 := b + LoopGap(scheme), BodyAt(b, cc, scheme);
    var e0, e1 := b0 + |cc|, b1 + |body|;
    var end := b + |WhileCode(b, cc, body, scheme)|;
    && e0 < b1 <= e1 < end < |lay| && lay[b] == y && lay[b0] == z && lay[b1] == z && lay[end] == y.Up(1)
    && (forall pc: nat :: e0 <= pc < b1 ==> lay[pc] == AtTest(z, e1 + 2, e0, pc))
    && (forall pc: nat :: e1 <= pc < end ==>
          lay[pc] == if pc == e1 then z else if scheme == Jumps then AtJump(y, b, e1, pc) else y)
  }

  lemma WhileAt(lay: seq<Layout>, e: Expr, b: nat, y: Layout, t: Tables)
    requires e.While? && NodeAt(lay, e, b, y, t) && y.known == []
    ensures var b0 := b + LoopGap(t.scheme);
            var z := Inner(y, b, t.scheme);
            var cc := Code(e.cond, b0, t);
            var b1 := BodyAt(b, cc, t.scheme);
            var body := CodeStmts(e.body, b1, t);
            && NodeAt(lay, e.cond, b0, z, t) && StmtsAt(lay, e.body, b1, z, t)
            && WhileSeamsAt(lay, b, cc, body, t.scheme, y)
  {
    hide Code, CodeStmts, WhileCode, BodyAt, AtTest, AtJump, At, AtStmts, Inner;
    var b0 := b + LoopGap(t.scheme);
    var z := Inner(y, b, t.scheme);
    var cc := Code(e.cond, b0, t);
    var b1 := BodyAt(b, cc, t.scheme);
    WhileRanges(b, cc, CodeStmts(e.body, b1, t), t.scheme, y);
    WhileCodeIs(e, b, t);
    forall pc: nat | b <= pc < b + |Code(e, b, t)| ensures lay[pc] == AtWhile(e, b, y, t, pc) {
      AtWhileIs(e, b, y, t, pc);
    }
    First(e.cond, b0, z, t);
    FirstOfStmts(e.body, b1, z, t);
    JumpCells(z);
  }

  function AtWhile(e: Expr, b: nat, y: Layout, t: Tables, pc: int): Layout
    requires e.While?
  {
    var b0 := b + LoopGap(t.scheme);
    var z := Inner(y, b, t.scheme);
    var cc := Code(e.cond, b0, t);
    var b1 := BodyAt(b, cc, t.scheme);
    var e1 := b1 + |CodeStmts(e.body, b1, t)|;
    if pc < b0 then y
    else if pc < b0 + |cc| then At(e.cond, b0, z, t, pc)
    else if pc < b1 then AtTest(z, e1 + 2, b0 + |cc|, pc)
    else if pc < e1 then AtStmts(e.body, b1, z, t, pc)
    else if pc == e1 then z
    else if t.scheme == Jumps then AtJump(y, b, e1, pc) else y
  }

  lemma AtWhileIs(e: Expr, b: nat, y: Layout, t: Tables, pc: int)
    requires e.While?
    ensures At(e, b, y, t, pc) == AtWhile(e, b, y, t, pc)
  {
    hide AtTest, AtJump;
  }

  lemma WhileCodeIs(e: Expr, b: nat, t: Tables)
    requires e.While?
    ensures var cc := Code(e.cond, b + LoopGap(t.scheme), t);
            Code(e, b, t) == WhileCode(b, cc, CodeStmts(e.body, BodyAt(b, cc, t.scheme), t), t.scheme)
  {
    hide WhileCode;
  }

  lemma WhileRanges(b: nat, cc: seq<Instr>, body: seq<Instr>, scheme: Scheme, y: Layout)
    ensures var b0, b1 := b + LoopGap(scheme), BodyAt(b, cc, scheme);
            b0 + |cc| < b1 && b1 + |body| < b + |WhileCode(b, cc, body, scheme)|
    ensures b + LoopGap(scheme) == b ==> Inner(y, b, scheme) == y
    ensures y.known == [] ==> Inner(y, b, scheme).known == []
    ensures Inner(y, b, scheme).Up(0).h == y.h
  {
  }

  lemma WhileJumpSeams(p: Image, lay: seq<Layout>, b: nat, cc: seq<Instr>, body: seq<Instr>, y: Layout)
    requires |lay| == |p.code| + 1 && CodeAt(p.code, b, WhileCode(b, cc, body, Jumps)) && Balanced(body)
    requires WhileSeamsAt(lay, b, cc, body, Jumps, y) && y.known == []
    ensures var b0, b1 := b + LoopGap(Jumps), BodyAt(b, cc, Jumps);
            && Flows(p, lay, b, b0) && Flows(p, lay, b0 + |cc|, b1)
            && Flows(p, lay, b1 + |body|, b + |WhileCode(b, cc, body, Jumps)|)
  {
    hide CodeAt, Flows, Balanced, Scan;
    var e1 := BodyAt(b, cc, Jumps) + |body|;
    WhileJumps(p.code, b, cc, body);
    BranchFlows(p, lay, b + |cc|, e1 + 2, y);
    JumpFlows(p, lay, e1, b, y);
    PushFlow(p, lay, e1 + 2, 0, y);
    Join(p, lay, e1, e1 + 2, e1 + 3);
    NoCells(p, lay, b);
  }

  lemma WhileBracketSeams(p: Image, lay: seq<Layout>, b: nat, cc: seq<Instr>, body: seq<Instr>, y: Layout)
    requires |lay| == |p.code| + 1 && CodeAt(p.code, b, WhileCode(b, cc, body, Brackets)) && Balanced(body)
    requires WhileSeamsAt(lay, b, cc, body, Brackets, y) && y.known == []
    ensures var b0, b1 := b + LoopGap(Brackets), BodyAt(b, cc, Brackets);
            && Flows(p, lay, b, b0) && Flows(p, lay, b0 + |cc|, b1)
            && Flows(p, lay, b1 + |body|, b + |WhileCode(b, cc, body, Brackets)|)
  {
    hide CodeAt, Flows, Balanced, Scan;
    var e1 := BodyAt(b, cc, Brackets) + |body|;
    WhileBrackets(p.code, b, cc, body);
    LoopScan(p.code, b + 1 + |cc|, body);
    OpFlows(p, lay, b, LOOPBEGIN);
    OpFlows(p, lay, b + 1 + |cc|, LOOPBODY);
    OpFlows(p, lay, e1, LOOPEND);
    PushFlow(p, lay, e1 + 1, 0, y);
    Join(p, lay, e1, e1 + 1, e1 + 2);
  }

  lemma WhileSeams(p: Image, lay: seq<Layout>, b: nat, cc: seq<Instr>, body: seq<Instr>, scheme: Scheme, y: Layout)
    requires |lay| == |p.code| + 1 && CodeAt(p.code, b, WhileCode(b, cc, body, scheme)) && Balanced(body)
    requires WhileSeamsAt(lay, b, cc, body, scheme, y) && y.known == []
    ensures var b0, b1 := b + LoopGap(scheme), BodyAt(b, cc, scheme);
            && Flows(p, lay, b, b0) && Flows(p, lay, b0 + |cc|, b1)
            && Flows(p, lay, b1 + |body|, b + |WhileCode(b, cc, body, scheme)|)
  {
    if scheme == Jumps { WhileJumpSeams(p, lay, b, cc, body, y); } else { WhileBracketSeams(p, lay, b, cc, body, y); }
  }

  lemma NoCells(p: Image, lay: seq<Layout>, b: nat)
    requires |lay| == |p.code| + 1 && b <= |p.code|
    ensures Flows(p, lay, b, b)
  {
  }

  // ----- programs -----

  /** A definition at `b`: main code jumps over the body, which is laid out as a function. */
  function FuncLayout(f: Func, b: nat, consts: seq<string>, scheme: Scheme, pc: int): Layout {
    var t := Tables(FuncVars(f), consts, scheme);
    var e1 := b + 2 + |CodeStmts(f.body, b + 2, t)|;
    if pc < b + 2 then AtJump(MAIN_START, e1 + 2, b, pc)
    else if pc < e1 then AtStmts(f.body, b + 2, BODY_START, t, pc)
    else if pc == e1 then BODY_START else if pc == e1 + 1 then BODY_START.Up(1) else MAIN_START
  }

  function FuncsLayout(fs: seq<Func>, consts: seq<string>, scheme: Scheme, pc: int): Layout {
    if fs == [] then MAIN_START
    else
      var init, f := fs[..|fs| - 1], fs[|fs| - 1];
      var b := |FuncsCode(init, consts, scheme)|;
      if pc < b then FuncsLayout(init, consts, scheme, pc)
      else if pc < b + |FuncCode(f, b, consts, scheme)| then FuncLayout(f, b, consts, scheme, pc)
      else MAIN_START.Up(1)
  }

  /** The layout of every cell of a compiled program, and of its end. */
  function ProgramLayout(src: Program, scheme: Scheme): seq<Layout> {
    var consts := ProgramConsts(src);
    var b := |FuncsCode(src.funs, consts, scheme)|;
    var n := |ProgramCode(src, scheme)|;
    seq(n + 1, pc requires 0 <= pc <= n =>
      if pc < b then FuncsLayout(src.funs, consts, scheme, pc)
      else if pc < n then AtStmts(src.main, b, MAIN_START, MainTables(src, scheme), pc)
      else MAIN_START)
  }

  /** The first `hi` cells are laid out as the definitions `fs`. */
  ghost predicate FuncsAt(lay: seq<Layout>, fs: seq<Func>, consts: seq<string>, scheme: Scheme) {
    var hi := |FuncsCode(fs, consts, scheme)|;
    && hi < |lay| && lay[hi] == MAIN_START
    && forall pc: nat :: pc < hi ==> lay[pc] == FuncsLayout(fs, consts, scheme, pc)
  }

  ghost predicate FuncLaid(lay: seq<Layout>, f: Func, b: nat, consts: seq<string>, scheme: Scheme) {
    var end := b + |FuncCode(f, b, consts, scheme)|;
    && end < |lay| && lay[end] == MAIN_START.Up(1)
    && forall pc: nat :: b <= pc < end ==> lay[pc] == FuncLayout(f, b, consts, scheme, pc)
  }

  lemma FuncsPartsAt(lay: seq<Layout>, fs: seq<Func>, consts: seq<string>, scheme: Scheme)
    requires fs != [] && FuncsAt(lay, fs, consts, scheme)
    ensures var init, f := fs[..|fs| - 1], fs[|fs| - 1];
            var b := |FuncsCode(init, consts, scheme)|;
            FuncsAt(lay, init, consts, scheme) && FuncLaid(lay, f, b, consts, scheme)
  {
    hide CodeStmts, AtStmts, FuncVars;
  }

  lemma FuncPartsAt(lay: seq<Layout>, f: Func, b: nat, consts: seq<string>, scheme: Scheme)
    requires FuncLaid(lay, f, b, consts, scheme)
    ensures var t := Tables(FuncVars(f), consts, scheme);
            var e1 := b + 2 + |CodeStmts(f.body, b + 2, t)|;
            && e1 + 3 == b + |FuncCode(f, b, consts, scheme)| < |lay| && StmtsAt(lay, f.body, b + 2, BODY_START, t)
            && lay[b] == MAIN_START && lay[b + 1] == MAIN_START.Know(Num(e1 + 2)) && lay[b + 2] == BODY_START
            && lay[e1] == BODY_START && lay[e1 + 1] == BODY_START.Up(1) && lay[e1 + 2] == MAIN_START
            && lay[e1 + 3] == MAIN_START.Up(1)
  {
    hide CodeStmts, AtStmts, FuncVars;
    var t := Tables(FuncVars(f), consts, scheme);
    FirstOfStmts(f.body, b + 2, BODY_START, t);
  }

  /** Every entry in the function table is the start of a body. */
  lemma {:induction false} EntriesLaid(lay: seq<Layout>, fs: seq<Func>, consts: seq<string>, scheme: Scheme,
                                       name: string)
    requires FuncsAt(lay, fs, consts, scheme) && name in Entries(fs, consts, scheme)
    ensures var entry := Entries(fs, consts, scheme)[name]; entry < |lay| && lay[entry] == BODY_START
    decreases |fs|
  {
    hide FuncsAt, FuncLaid, FuncCode;
    FuncsPartsAt(lay, fs, consts, scheme);
    var init, f := fs[..|fs| - 1], fs[|fs| - 1];
    if f.name == name {
      FuncPartsAt(lay, f, |FuncsCode(init, consts, scheme)|, consts, scheme);
    } else {
      EntriesLaid(lay, init, consts, scheme, name);
    }
  }

  lemma FuncFlows(c: Ctx, lay: seq<Layout>, f: Func, b: nat)
    requires Laid(c, lay) && c.t.vars == FuncVars(f)
    requires CoversAll(c.t, f.body) && WellFormedStmts(c.src.funs, f.body, true)
    requires CodeAt(c.p.code, b, FuncCode(f, b, c.p.consts, c.t.scheme))
    requires FuncLaid(lay, f, b, c.p.consts, c.t.scheme)
    ensures Flows(c.p, lay, b, b + |FuncCode(f, b, c.p.consts, c.t.scheme)|)
  {
    hide CodeAt, CodeStmts, FuncVars, FuncCode, FuncLaid, Laid, StmtsAt, Flows, CoversAll, WellFormedStmts;
    LaidLength(c, lay);
    FuncCodeParts(c.p.code, f, b, c.p.consts, c.t.scheme);
    FuncPartsAt(lay, f, b, c.p.consts, c.t.scheme);
    assert c.t == Tables(FuncVars(f), c.p.consts, c.t.scheme);
    var body := CodeStmts(f.body, b + 2, c.t);
    var e1 := b + 2 + |body|;
    JumpFlows(c.p, lay, b, e1 + 2, MAIN_START);
    SplitAt(c.p.code, b + 2, body, [Push(0), Do(RET)]);
    StmtsFlows(c, lay, f.body, b + 2, true, BODY_START);
    assert [Push(0), Do(RET)] == [Push(0)] + [Do(RET)];
    SplitAt(c.p.code, e1, [Push(0)], [Do(RET)]);
    PushFlow(c.p, lay, e1, 0, BODY_START);
    OpFlows(c.p, lay, e1 + 1, RET);
    PushFlow(c.p, lay, e1 + 2, 0, MAIN_START);
    Join3(c.p, lay, b, b + 2, e1, e1 + 1);
    Join3(c.p, lay, b, e1 + 1, e1 + 2, e1 + 3);
  }

  ghost predicate BodiesWell(all: seq<Func>, fs: seq<Func>) {
    forall f :: f in fs ==> WellFormedStmts(all, f.body, true)
  }

  lemma BodiesParts(all: seq<Func>, fs: seq<Func>)
    requires fs != [] && BodiesWell(all, fs)
    ensures BodiesWell(all, fs[..|fs| - 1]) && WellFormedStmts(all, fs[|fs| - 1].body, true)
  {
    hide WellFormedStmts;
  }

  lemma ConstsParts(fs: seq<Func>, all: seq<string>)
    requires fs != [] && ConstsAfterFuncs(fs, []) <= all
    ensures var cs := ConstsAfterFuncs(fs[..|fs| - 1], []);
            cs <= all && ConstsAfterStmts(fs[|fs| - 1].body, cs) <= all
  {
    hide ConstsAfterStmts;
    ConstsGrowStmts(fs[|fs| - 1].body, ConstsAfterFuncs(fs[..|fs| - 1], []));
  }

  ghost predicate EntriesAt(p: Image, lay: seq<Layout>) {
    forall name :: name in p.funs ==> p.funs[name] < |lay| && lay[p.funs[name]] == BODY_START
  }

  lemma LaidFor(c: Ctx, lay: seq<Layout>)
    requires |lay| == |c.p.code| + 1 && EntriesAt(c.p, lay) && c.p.consts == c.t.consts
    ensures Laid(c, lay)
  {
  }

  lemma {:induction false} FuncsFlows(c: Ctx, lay: seq<Layout>, fs: seq<Func>)
    requires |lay| == |c.p.code| + 1 && EntriesAt(c.p, lay)
    requires CodeAt(c.p.code, 0, FuncsCode(fs, c.p.consts, c.t.scheme)) && FuncsAt(lay, fs, c.p.consts, c.t.scheme)
    requires ConstsAfterFuncs(fs, []) <= c.p.consts && BodiesWell(c.src.funs, fs)
    ensures Flows(c.p, lay, 0, |FuncsCode(fs, c.p.consts, c.t.scheme)|)
    decreases |fs|
  {
    hide CodeAt, FuncCode, FuncsAt, FuncLaid, Flows, WellFormedStmts, FuncVars, CoversAll, ConstsAfterStmts;
    hide BodiesWell, EntriesAt, Laid, FuncsCode, ConstsAfterFuncs;
    if fs == [] {
      NoFuncs(c.p, lay, c.t.scheme);
    } else {
      var init, f := fs[..|fs| - 1], fs[|fs| - 1];
      var b := |FuncsCode(init, c.p.consts, c.t.scheme)|;
      FuncsCodeParts(c.p.code, fs, c.p.consts, c.t.scheme);
      FuncsPartsAt(lay, fs, c.p.consts, c.t.scheme);
      ConstsParts(fs, c.p.consts);
      BodiesParts(c.src.funs, fs);
      FuncsFlows(c, lay, init);
      DefinitionFlows(c, lay, fs, f, b);
    }
  }

  lemma NoFuncs(p: Image, lay: seq<Layout>, scheme: Scheme)
    requires |lay| == |p.code| + 1
    ensures Flows(p, lay, 0, |FuncsCode([], p.consts, scheme)|)
  {
    NoCells(p, lay, 0);
  }

  /** The last of some definitions, and the cell that drops its value. */
  lemma DefinitionFlows(c: Ctx, lay: seq<Layout>, fs: seq<Func>, f: Func, b: nat)
    requires fs != [] && f == fs[|fs| - 1] && b == |FuncsCode(fs[..|fs| - 1], c.p.consts, c.t.scheme)|
    requires |lay| == |c.p.code| + 1 && EntriesAt(c.p, lay) && WellFormedStmts(c.src.funs, f.body, true)
    requires CodeAt(c.p.code, 0, FuncsCode(fs, c.p.consts, c.t.scheme)) && FuncsAt(lay, fs, c.p.consts, c.t.scheme)
    requires ConstsAfterStmts(f.body, ConstsAfterFuncs(fs[..|fs| - 1], [])) <= c.p.consts
    requires Flows(c.p, lay, 0, b)
    ensures Flows(c.p, lay, 0, |FuncsCode(fs, c.p.consts, c.t.scheme)|)
  {
    hide CodeAt, FuncCode, FuncsAt, FuncLaid, Flows, WellFormedStmts, FuncVars, CoversAll, ConstsAfterStmts;
    hide EntriesAt, Laid, FuncsCode, ConstsAfterFuncs;
    var d := b + |FuncCode(f, b, c.p.consts, c.t.scheme)|;
    var cf := c.(t := Tables(FuncVars(f), c.p.consts, c.t.scheme));
    FuncsCodeParts(c.p.code, fs, c.p.consts, c.t.scheme);
    FuncsPartsAt(lay, fs, c.p.consts, c.t.scheme);
    FuncsEnd(lay, fs, c.p.consts, c.t.scheme);
    LaidFor(cf, lay);
    FuncCovered(f, ConstsAfterFuncs(fs[..|fs| - 1], []), cf.t);
    FuncFlows(cf, lay, f, b);
    OpFlows(c.p, lay, d, DISCARD);
    Join3(c.p, lay, 0, b, d, d + 1);
  }

  lemma FuncsEnd(lay: seq<Layout>, fs: seq<Func>, consts: seq<string>, scheme: Scheme)
    requires fs != [] && FuncsAt(lay, fs, consts, scheme)
    ensures var b := |FuncsCode(fs[..|fs| - 1], consts, scheme)|;
            var d := b + |FuncCode(fs[|fs| - 1], b, consts, scheme)|;
            d + 1 < |lay| && lay[d] == MAIN_START.Up(1) && lay[d + 1] == MAIN_START
  {
    hide FuncCode;
  }

  lemma FuncCovered(f: Func, cs: seq<string>, t: Tables)
    requires t.vars == FuncVars(f) && ConstsAfterStmts(f.body, cs) <= t.consts
    ensures CoversAll(t, f.body)
  {
    TablesCoverStmts(f.body, ParamVars(f.params), cs, t);
  }

  /** The layouts of a compiled program fit together. */
  lemma ProgramFlows(src: Program, scheme: Scheme, remote: Remote)
    requires WellFormedProgram(src)
    ensures var p, lay := Compiled(src, scheme, remote), ProgramLayout(src, scheme);
            |lay| == |p.code| + 1 && lay[0] == MAIN_START && lay[|p.code|] == MAIN_START && Flows(p, lay, 0, |p.code|)
  {
    hide CodeAt, FuncCode, FuncsAt, Flows, CodeStmts, FuncVars, WellFormedStmts, CoversAll, FuncsCode, StmtsAt;
    var c := MainCtx(src, scheme, remote);
    var p, lay := c.p, ProgramLayout(src, scheme);
    var b := |FuncsCode(src.funs, p.consts, scheme)|;
    CompiledParts(src, scheme, remote);
    ProgramAt(src, scheme);
    forall name | name in p.funs ensures p.funs[name] < |lay| && lay[p.funs[name]] == BODY_START {
      EntriesLaid(lay, src.funs, p.consts, scheme, name);
    }
    FuncsFlows(c, lay, src.funs);
    MainCovered(src, scheme);
    StmtsFlows(c, lay, src.main, b, false, MAIN_START);
    Join(p, lay, 0, b, |p.code|);
  }

  lemma MainCovered(src: Program, scheme: Scheme)
    ensures CoversAll(MainTables(src, scheme), src.main)
  {
    TablesCoverStmts(src.main, VarsAfterFuncs(src.funs), ConstsAfterFuncs(src.funs, []), MainTables(src, scheme));
  }

  lemma ProgramAt(src: Program, scheme: Scheme)
    ensures var lay, consts := ProgramLayout(src, scheme), ProgramConsts(src);
            var b := |FuncsCode(src.funs, consts, scheme)|;
            && |lay| == |ProgramCode(src, scheme)| + 1 && lay[|lay| - 1] == MAIN_START && lay[0] == MAIN_START
            && FuncsAt(lay, src.funs, consts, scheme) && StmtsAt(lay, src.main, b, MAIN_START, MainTables(src, scheme))
  {
    hide FuncsCode, CodeStmts, FuncsLayout, AtStmts, MainTables, ProgramConsts;
    var consts := ProgramConsts(src);
    var b := |FuncsCode(src.funs, consts, scheme)|;
    FirstOfStmts(src.main, b, MAIN_START, MainTables(src, scheme));
    FirstOfFuncs(src.funs, consts, scheme);
  }

  lemma {:induction false} FirstOfFuncs(fs: seq<Func>, consts: seq<string>, scheme: Scheme)
    ensures |FuncsCode(fs, consts, scheme)| > 0 ==> FuncsLayout(fs, consts, scheme, 0) == MAIN_START
    decreases |fs|
  {
    if fs != [] { FirstOfFuncs(fs[..|fs| - 1], consts, scheme); }
  }

  /** In every state any run reaches, under both lowerings, the operand stack is made up of exactly what
      the layouts of the active cells say, constants included; every frame's loop stack holds exactly the
      loops its cell is in, so its top is the LOOPBEGIN of the innermost one; only main code runs in the
      first frame and only functions in others.  So no assertion fails, and main ends with no operand,
      one frame and no loop. */
  lemma StatesFollowLayouts(src: Program, scheme: Scheme, remote: Remote, mem: Mem, n: nat)
    requires WellFormedProgram(src)
    ensures match StepN(Compiled(src, scheme, remote), Initial(mem), n)
            case Next(s) => InStep(ProgramLayout(src, scheme), s)
            case Ended(s) => s.stack == [] && |s.frames| == 1 && s.frames[0].loops == []
            case Fault => false
            case Outside => false
            case _ => true
  {
    hide Flow, ProgramLayout, Compiled;
    var p, lay := Compiled(src, scheme, remote), ProgramLayout(src, scheme);
    ProgramFlows(src, scheme, remote);
    RunKeeps(p, lay, Initial(mem), n);
  }
}
