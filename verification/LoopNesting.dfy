/** The loop stack of a frame: in every state a run reaches it holds the brackets that are open at the frame's
    cell, so its top is the innermost loop around it. */
module LoopNesting {
  import opened Values
  import opened Bytecode
  import opened Source
  import opened Machine
  import opened Codegen
  import opened Simulation
  import opened BracketMatching
  import opened ControlFlow
  import opened CompilerCorrectness
  import opened Linking
  import opened Layouts
  import opened CodeLayouts

  // ----- brackets read from the start of the code -----

  /** The LOOPBEGINs before `pc` that no LOOPEND before `pc` has closed, outermost first. */
  function OpenLoops(code: seq<Instr>, pc: nat): (ls: seq<int>)
    requires pc <= |code|
    ensures forall i :: 0 <= i < |ls| ==> 0 <= ls[i] < pc && code[ls[i]] == Do(LOOPBEGIN)
    ensures forall i, j :: 0 <= i < j < |ls| ==> ls[i] < ls[j]
  {
    if pc == 0 then []
    else
      var ls := OpenLoops(code, pc - 1);
      if code[pc - 1] == Do(LOOPBEGIN) then ls + [pc - 1]
      else if code[pc - 1] == Do(LOOPEND) && ls != [] then ls[..|ls| - 1]
      else ls
  }

  /** The machine's own scan from the LOOPBEGIN at `l` finds its LOOPEND at `pc` or later. */
  predicate Encloses(code: seq<Instr>, l: int, pc: nat) {
    0 <= l < pc <= |code| && code[l] == Do(LOOPBEGIN) && pc <= Scan(code, l, 1, TO_LOOPEND)
  }

  /** The scan after one more cell. */
  function ScanOne(code: seq<Instr>, q: nat, count: nat): nat
    requires q + 1 < |code|
  {
    if code[q + 1] == Do(LOOPBEGIN) then Scan(code, q + 1, count + 1, TO_LOOPEND)
    else if code[q + 1] == Do(LOOPEND) then if count <= 1 then q + 1 else Scan(code, q + 1, count - 1, TO_LOOPEND)
    else Scan(code, q + 1, count, TO_LOOPEND)
  }

  lemma ScanStep(code: seq<Instr>, q: nat, count: nat)
    requires q + 1 < |code|
    ensures Scan(code, q, count, TO_LOOPEND) == ScanOne(code, q, count)
  {
  }

  lemma OpenStep(code: seq<Instr>, pc: nat)
    requires pc < |code|
    ensures var ls := OpenLoops(code, pc);
            OpenLoops(code, pc + 1) ==
            if code[pc] == Do(LOOPBEGIN) then ls + [pc]
            else if code[pc] == Do(LOOPEND) && ls != [] then ls[..|ls| - 1] else ls
  {
  }

  /** While the bracket at `l` is open, its scan counts the brackets opened since. */
  lemma {:induction false} TracksOpen(code: seq<Instr>, l: nat, pc: nat, i: nat)
    requires l < pc <= |code| && i < |OpenLoops(code, pc)| && OpenLoops(code, pc)[i] == l
    ensures Scan(code, l, 1, TO_LOOPEND) == Scan(code, pc - 1, |OpenLoops(code, pc)| - i, TO_LOOPEND)
    decreases pc
  {
    hide OpenLoops, Scan;
    var ls := OpenLoops(code, pc - 1);
    OpenStep(code, pc - 1);
    if l < pc - 1 {
      assert i < |ls| && ls[i] == l;
      TracksOpen(code, l, pc - 1, i);
      ScanStep(code, pc - 2, |ls| - i);
    }
  }

  /** Once it is closed, the scan has ended. */
  lemma {:induction false} TracksClosed(code: seq<Instr>, l: nat, pc: nat)
    requires l < pc <= |code| && code[l] == Do(LOOPBEGIN) && l !in OpenLoops(code, pc)
    ensures Scan(code, l, 1, TO_LOOPEND) < pc
    decreases pc
  {
    hide OpenLoops, Scan;
    var ls := OpenLoops(code, pc - 1);
    OpenStep(code, pc - 1);
    assert (ls + [l])[|ls|] == l;
    if l == pc - 1 {
      assert false;
    } else if l in ls {
      var i :| 0 <= i < |ls| && ls[i] == l;
      StillOpen(ls, OpenLoops(code, pc), i, l);
      TracksOpen(code, l, pc - 1, i);
      ScanStep(code, pc - 2, |ls| - i);
    } else {
      TracksClosed(code, l, pc - 1);
    }
  }

  /** Only the last bracket can be closed. */
  lemma StillOpen(ls: seq<int>, more: seq<int>, i: nat, l: int)
    requires i < |ls| && ls[i] == l && (ls <= more || more == ls[..|ls| - 1])
    ensures l in more || (i == |ls| - 1 && more == ls[..|ls| - 1])
  {
    if ls <= more || i < |ls| - 1 { assert more[i] == l; }
  }

  lemma {:induction false} ScanAhead(code: seq<Instr>, pc: nat, count: nat, br: Bracket)
    requires pc < |code|
    ensures Scan(code, pc, count, br) > pc
    decreases |code| - pc
  {
    if pc + 1 < |code| {
      ScanAhead(code, pc + 1, count + 1, br);
      ScanAhead(code, pc + 1, count, br);
      if count > 0 { ScanAhead(code, pc + 1, count - 1, br); }
    }
  }

  /** The open loops are exactly the enclosing ones, in any code. */
  lemma {:induction false} OpenIsEnclosing(code: seq<Instr>, l: int, pc: nat)
    requires pc <= |code|
    ensures l in OpenLoops(code, pc) <==> Encloses(code, l, pc)
  {
    var ls := OpenLoops(code, pc);
    hide OpenLoops, Scan;
    if 0 <= l < pc && code[l] == Do(LOOPBEGIN) {
      if l in ls {
        var i :| 0 <= i < |ls| && ls[i] == l;
        TracksOpen(code, l, pc, i);
        ScanAhead(code, pc - 1, |ls| - i, TO_LOOPEND);
      } else {
        TracksClosed(code, l, pc);
      }
    }
  }

  /** The layouts of these cells have the open brackets. */
  ghost predicate Follows(code: seq<Instr>, lay: seq<Layout>, lo: nat, hi: nat) {
    hi <= |code| && hi < |lay| && forall pc: nat :: lo <= pc < hi ==> lay[pc].loops == OpenLoops(code, pc)
  }

  /** These cells do, if the first one does, and leave the brackets as they were. */
  ghost predicate Passes(code: seq<Instr>, lay: seq<Layout>, lo: nat, hi: nat, ls: seq<int>) {
    lo <= hi && Follows(code, lay, lo, hi) && OpenLoops(code, hi) == ls
  }

  lemma Behind(code: seq<Instr>, lay: seq<Layout>, a: nat, b: nat, c: nat, ls: seq<int>)
    requires Passes(code, lay, a, b, ls) && Passes(code, lay, b, c, ls)
    ensures Passes(code, lay, a, c, ls)
  {
    hide OpenLoops;
  }

  predicate NoLoopBracket(i: Instr) {
    i != Do(LOOPBEGIN) && i != Do(LOOPEND)
  }

  lemma Passed(code: seq<Instr>, lay: seq<Layout>, at: nat, ls: seq<int>)
    requires at < |code| && at + 1 < |lay| && NoLoopBracket(code[at]) && lay[at].loops == ls == OpenLoops(code, at)
    ensures Passes(code, lay, at, at + 1, ls)
  {
  }

  /** One or two cells without loop brackets. */
  lemma Stretch1(code: seq<Instr>, lay: seq<Layout>, at: nat, i: Instr, ls: seq<int>)
    requires CodeAt(code, at, [i]) && NoLoopBracket(i) && at + 1 < |lay|
    requires lay[at].loops == ls == OpenLoops(code, at)
    ensures Passes(code, lay, at, at + 1, ls)
  {
    hide OpenLoops, CodeAt;
    Cell(code, at, [i], 0);
    Passed(code, lay, at, ls);
  }

  lemma Stretch2(code: seq<Instr>, lay: seq<Layout>, at: nat, i: Instr, j: Instr, ls: seq<int>)
    requires CodeAt(code, at, [i, j]) && NoLoopBracket(i) && NoLoopBracket(j) && at + 2 < |lay|
    requires lay[at].loops == lay[at + 1].loops == ls == OpenLoops(code, at)
    ensures Passes(code, lay, at, at + 2, ls)
  {
    hide OpenLoops, CodeAt;
    Cell(code, at, [i, j], 0);
    Cell(code, at, [i, j], 1);
    Passed(code, lay, at, ls);
    Passed(code, lay, at + 1, ls);
    Behind(code, lay, at, at + 1, at + 2, ls);
  }

  /** A loop in brackets. */
  lemma {:induction false} Wrapped(code: seq<Instr>, lay: seq<Layout>, b: nat, e: nat, ls: seq<int>)
    requires b < e < |code| && e + 1 < |lay| && code[b] == Do(LOOPBEGIN) && code[e] == Do(LOOPEND)
    requires lay[b].loops == ls == OpenLoops(code, b) && lay[e].loops == ls + [b]
    requires Passes(code, lay, b + 1, e, ls + [b])
    ensures Passes(code, lay, b, e + 1, ls)
  {
    assert (ls + [b])[..|ls|] == ls;
  }

  lemma Entered(code: seq<Instr>, b: nat, ls: seq<int>)
    requires b < |code| && code[b] == Do(LOOPBEGIN) && OpenLoops(code, b) == ls
    ensures OpenLoops(code, b + 1) == ls + [b]
  {
  }

  lemma PassEnd(code: seq<Instr>, lay: seq<Layout>, lo: nat, hi: nat, ls: seq<int>)
    requires Passes(code, lay, lo, hi, ls)
    ensures hi <= |code| && OpenLoops(code, hi) == ls
  {
  }

  lemma EmptyListPasses(code: seq<Instr>, lay: seq<Layout>, es: Exprs, b: nat, y: Layout, t: Tables)
    requires es.Nil? && ListAt(lay, es, b, y, t) && b <= |code| && OpenLoops(code, b) == y.loops
    ensures Passes(code, lay, b, b + |CodeList(es, b, t)|, y.loops)
  {
    hide OpenLoops;
  }

  lemma EmptyStmtsPasses(code: seq<Instr>, lay: seq<Layout>, es: Exprs, b: nat, y: Layout, t: Tables)
    requires es.Nil? && StmtsAt(lay, es, b, y, t) && b <= |code| && OpenLoops(code, b) == y.loops
    ensures Passes(code, lay, b, b + |CodeStmts(es, b, t)|, y.loops)
  {
    hide OpenLoops;
  }

  // ----- nodes -----

  /** All cells of a node have the brackets open around them, under both lowerings. */
  lemma {:induction false} NodePasses(c: Ctx, lay: seq<Layout>, e: Expr, b: nat, ret: bool, y: Layout)
    requires Covers(c.t, e) && WellFormed(c.src.funs, e, ret) && y.known == []
    requires CodeAt(c.p.code, b, Code(e, b, c.t)) && NodeAt(lay, e, b, y, c.t)
    requires b <= |c.p.code| && OpenLoops(c.p.code, b) == y.loops
    ensures Passes(c.p.code, lay, b, b + |Code(e, b, c.t)|, y.loops)
    decreases e, 1
  {
    hide CodeAt, Passes, Find, OpenLoops;
    match e
    case Number(n) => Stretch1(c.p.code, lay, b, Push(n), y.loops);
    case Text(s) => Stretch2(c.p.code, lay, b, Push(Find(c.t.consts, s)), Do(CONSTANT), y.loops);
    case Var(x) => Stretch2(c.p.code, lay, b, Push(Find(c.t.vars, x)), Do(GETVAR), y.loops);
    case Bin(_, _, _) => BinPasses(c, lay, e, b, ret, y);
    case Neg(_) => NegPasses(c, lay, e, b, ret, y);
    case Assign(_, _) => AssignPasses(c, lay, e, b, ret, y);
    case Index(_, _) => IndexPasses(c, lay, e, b, ret, y);
    case IndexAssign(_, _, _) => IndexAssignPasses(c, lay, e, b, ret, y);
    case Array(_) => ArrayPasses(c, lay, e, b, ret, y);
    case Call(_, _) => CallPasses(c, lay, e, b, ret, y);
    case If(_, _, _) => IfPasses(c, lay, e, b, ret, y);
    case While(_, _) => WhilePasses(c, lay, e, b, ret, y);
    case Return(_) => NegPasses(c, lay, e, b, ret, y);
  }

  lemma {:induction false} BinPasses(c: Ctx, lay: seq<Layout>, e: Expr, b: nat, ret: bool, y: Layout)
    requires e.Bin?
    requires Covers(c.t, e) && WellFormed(c.src.funs, e, ret) && y.known == []
    requires CodeAt(c.p.code, b, Code(e, b, c.t)) && NodeAt(lay, e, b, y, c.t)
    requires b <= |c.p.code| && OpenLoops(c.p.code, b) == y.loops
    ensures Passes(c.p.code, lay, b, b + |Code(e, b, c.t)|, y.loops)
    decreases e, 0
  {
    hide Code, CodeList, CodeStmts, Covers, CoversAll, WellFormed, WellFormedList;
    hide WellFormedStmts, CodeAt, NodeAt, ListAt, StmtsAt, Find, Passes, OpenLoops;
    BinNode(c, e, b, ret);
    BinAt(lay, e, b, y, c.t);
    var b1 := b + |Code(e.right, b, c.t)|;
    var b2 := b1 + |Code(e.left, b1, c.t)|;
    NodePasses(c, lay, e.right, b, ret, y);
    PassEnd(c.p.code, lay, b, b1, y.loops);
    NodePasses(c, lay, e.left, b1, false, y.Up(1));
    PassEnd(c.p.code, lay, b1, b2, y.loops);
    Stretch1(c.p.code, lay, b2, Do(OpFor(e.op)), y.loops);
    Behind(c.p.code, lay, b, b1, b2, y.loops);
    Behind(c.p.code, lay, b, b2, b2 + 1, y.loops);
  }

  lemma {:induction false} NegPasses(c: Ctx, lay: seq<Layout>, e: Expr, b: nat, ret: bool, y: Layout)
    requires e.Neg? || e.Return?
    requires Covers(c.t, e) && WellFormed(c.src.funs, e, ret) && y.known == []
    requires CodeAt(c.p.code, b, Code(e, b, c.t)) && NodeAt(lay, e, b, y, c.t)
    requires b <= |c.p.code| && OpenLoops(c.p.code, b) == y.loops
    ensures Passes(c.p.code, lay, b, b + |Code(e, b, c.t)|, y.loops)
    decreases e, 0
  {
    hide Code, CodeList, CodeStmts, Covers, CoversAll, WellFormed, WellFormedList;
    hide WellFormedStmts, CodeAt, NodeAt, ListAt, StmtsAt, Find, Passes, OpenLoops;
    if e.Neg? { NegNode(c, e, b, ret); } else { ReturnNode(c, e, b, ret); }
    NegAt(lay, e, b, y, c.t);
    var b1 := b + |Code(e.e, b, c.t)|;
    NodePasses(c, lay, e.e, b, ret, y);
    PassEnd(c.p.code, lay, b, b1, y.loops);
    Stretch1(c.p.code, lay, b1, Do(if e.Neg? then NEGATE else RET), y.loops);
    Behind(c.p.code, lay, b, b1, b1 + 1, y.loops);
  }

  lemma {:induction false} AssignPasses(c: Ctx, lay: seq<Layout>, e: Expr, b: nat, ret: bool, y: Layout)
    requires e.Assign?
    requires Covers(c.t, e) && WellFormed(c.src.funs, e, ret) && y.known == []
    requires CodeAt(c.p.code, b, Code(e, b, c.t)) && NodeAt(lay, e, b, y, c.t)
    requires b <= |c.p.code| && OpenLoops(c.p.code, b) == y.loops
    ensures Passes(c.p.code, lay, b, b + |Code(e, b, c.t)|, y.loops)
    decreases e, 0
  {
    hide Code, CodeList, CodeStmts, Covers, CoversAll, WellFormed, WellFormedList;
    hide WellFormedStmts, CodeAt, NodeAt, ListAt, StmtsAt, Find, Passes, OpenLoops;
    AssignNode(c, e, b, ret);
    AssignAt(lay, e, b, y, c.t);
    var b1 := b + |Code(e.e, b, c.t)|;
    NodePasses(c, lay, e.e, b, ret, y);
    PassEnd(c.p.code, lay, b, b1, y.loops);
    Stretch2(c.p.code, lay, b1, Push(Find(c.t.vars, e.x)), Do(SETVAR), y.loops);
    PassEnd(c.p.code, lay, b1, b1 + 2, y.loops);
    Stretch2(c.p.code, lay, b1 + 2, Push(Find(c.t.vars, e.x)), Do(GETVAR), y.loops);
    Behind(c.p.code, lay, b, b1, b1 + 2, y.loops);
    Behind(c.p.code, lay, b, b1 + 2, b1 + 4, y.loops);
  }

  lemma {:induction false} IndexPasses(c: Ctx, lay: seq<Layout>, e: Expr, b: nat, ret: bool, y: Layout)
    requires e.Index?
    requires Covers(c.t, e) && WellFormed(c.src.funs, e, ret) && y.known == []
    requires CodeAt(c.p.code, b, Code(e, b, c.t)) && NodeAt(lay, e, b, y, c.t)
    requires b <= |c.p.code| && OpenLoops(c.p.code, b) == y.loops
    ensures Passes(c.p.code, lay, b, b + |Code(e, b, c.t)|, y.loops)
    decreases e, 0
  {
    hide Code, CodeList, CodeStmts, Covers, CoversAll, WellFormed, WellFormedList;
    hide WellFormedStmts, CodeAt, NodeAt, ListAt, StmtsAt, Find, Passes, OpenLoops;
    IndexNode(c, e, b, ret);
    IndexAt(lay, e, b, y, c.t);
    var b1 := b + |Code(e.i, b, c.t)|;
    NodePasses(c, lay, e.i, b, ret, y);
    PassEnd(c.p.code, lay, b, b1, y.loops);
    Stretch2(c.p.code, lay, b1, Push(Find(c.t.vars, e.x)), Do(GETVAR), y.loops);
    PassEnd(c.p.code, lay, b1, b1 + 2, y.loops);
    Stretch1(c.p.code, lay, b1 + 2, Do(INDEX1), y.loops);
    Behind(c.p.code, lay, b, b1, b1 + 2, y.loops);
    Behind(c.p.code, lay, b, b1 + 2, b1 + 3, y.loops);
  }

  lemma {:induction false} IndexAssignPasses(c: Ctx, lay: seq<Layout>, e: Expr, b: nat, ret: bool, y: Layout)
    requires e.IndexAssign?
    requires Covers(c.t, e) && WellFormed(c.src.funs, e, ret) && y.known == []
    requires CodeAt(c.p.code, b, Code(e, b, c.t)) && NodeAt(lay, e, b, y, c.t)
    requires b <= |c.p.code| && OpenLoops(c.p.code, b) == y.loops
    ensures Passes(c.p.code, lay, b, b + |Code(e, b, c.t)|, y.loops)
    decreases e, 0
  {
    hide Code, CodeList, CodeStmts, Covers, CoversAll, WellFormed, WellFormedList;
    hide WellFormedStmts, CodeAt, NodeAt, ListAt, StmtsAt, Find, Passes, OpenLoops;
    IndexAssignNode(c, e, b, ret);
    IndexAssignAt(lay, e, b, y, c.t);
    var b1 := b + |Code(e.e, b, c.t)|;
    var b2 := b1 + |Code(e.i, b1, c.t)|;
    NodePasses(c, lay, e.e, b, ret, y);
    PassEnd(c.p.code, lay, b, b1, y.loops);
    NodePasses(c, lay, e.i, b1, false, y.Up(1));
    PassEnd(c.p.code, lay, b1, b2, y.loops);
    Stretch2(c.p.code, lay, b2, Push(Find(c.t.vars, e.x)), Do(GETVAR), y.loops);
    PassEnd(c.p.code, lay, b2, b2 + 2, y.loops);
    Stretch1(c.p.code, lay, b2 + 2, Do(INDEXAS), y.loops);
    Behind(c.p.code, lay, b, b1, b2, y.loops);
    Behind(c.p.code, lay, b, b2, b2 + 2, y.loops);
    Behind(c.p.code, lay, b, b2 + 2, b2 + 3, y.loops);
  }

  lemma {:induction false} ArrayPasses(c: Ctx, lay: seq<Layout>, e: Expr, b: nat, ret: bool, y: Layout)
    requires e.Array?
    requires Covers(c.t, e) && WellFormed(c.src.funs, e, ret) && y.known == []
    requires CodeAt(c.p.code, b, Code(e, b, c.t)) && NodeAt(lay, e, b, y, c.t)
    requires b <= |c.p.code| && OpenLoops(c.p.code, b) == y.loops
    ensures Passes(c.p.code, lay, b, b + |Code(e, b, c.t)|, y.loops)
    decreases e, 0
  {
    hide Code, CodeList, CodeStmts, Covers, CoversAll, WellFormed, WellFormedList;
    hide WellFormedStmts, CodeAt, NodeAt, ListAt, StmtsAt, Find, Passes, OpenLoops;
    ArrayNode(c, e, b, ret);
    ArrayAt(lay, e, b, y, c.t);
    var b1 := b + |CodeList(e.elems, b, c.t)|;
    ListPasses(c, lay, e.elems, b, ret, y);
    PassEnd(c.p.code, lay, b, b1, y.loops);
    Stretch2(c.p.code, lay, b1, Push(e.elems.Length()), Do(MKARRAY), y.loops);
    Behind(c.p.code, lay, b, b1, b1 + 2, y.loops);
  }

  lemma {:induction false} CallPasses(c: Ctx, lay: seq<Layout>, e: Expr, b: nat, ret: bool, y: Layout)
    requires e.Call?
    requires Covers(c.t, e) && WellFormed(c.src.funs, e, ret) && y.known == []
    requires CodeAt(c.p.code, b, Code(e, b, c.t)) && NodeAt(lay, e, b, y, c.t)
    requires b <= |c.p.code| && OpenLoops(c.p.code, b) == y.loops
    ensures Passes(c.p.code, lay, b, b + |Code(e, b, c.t)|, y.loops)
    decreases e, 0
  {
    hide Code, CodeList, CodeStmts, Covers, CoversAll, WellFormed, WellFormedList;
    hide WellFormedStmts, CodeAt, NodeAt, ListAt, StmtsAt, Find, Passes, OpenLoops;
    CallNode(c, e, b, ret);
    CallAt(lay, e, b, y, c.t);
    var b1 := b + |CodeList(e.args, b, c.t)|;
    ListPasses(c, lay, e.args, b, ret, y);
    PassEnd(c.p.code, lay, b, b1, y.loops);
    Stretch1(c.p.code, lay, b1, Push(e.args.Length()), y.loops);
    PassEnd(c.p.code, lay, b1, b1 + 1, y.loops);
    Stretch2(c.p.code, lay, b1 + 1, Push(Find(c.t.consts, e.f)), Do(CONSTANT), y.loops);
    PassEnd(c.p.code, lay, b1 + 1, b1 + 3, y.loops);
    Stretch1(c.p.code, lay, b1 + 3, Do(CALL), y.loops);
    Behind(c.p.code, lay, b, b1, b1 + 1, y.loops);
    Behind(c.p.code, lay, b, b1 + 1, b1 + 3, y.loops);
    Behind(c.p.code, lay, b, b1 + 3, b1 + 4, y.loops);
  }

  lemma {:induction false} ListPasses(c: Ctx, lay: seq<Layout>, es: Exprs, b: nat, ret: bool, y: Layout)
    requires CoversAll(c.t, es) && WellFormedList(c.src.funs, es, ret) && y.known == []
    requires CodeAt(c.p.code, b, CodeList(es, b, c.t)) && ListAt(lay, es, b, y, c.t)
    requires b <= |c.p.code| && OpenLoops(c.p.code, b) == y.loops
    ensures Passes(c.p.code, lay, b, b + |CodeList(es, b, c.t)|, y.loops)
    decreases es
  {
    hide Code, CodeList, Covers, CoversAll, WellFormed, WellFormedList, CodeAt, NodeAt, ListAt, Passes, OpenLoops;
    if es.Nil? {
      EmptyListPasses(c.p.code, lay, es, b, y, c.t);
    } else {
      ListNode(c, es, b, ret);
      ListPartsAt(lay, es, b, y, c.t);
      var b1 := b + |Code(es.last, b, c.t)|;
      NodePasses(c, lay, es.last, b, ret, y);
      PassEnd(c.p.code, lay, b, b1, y.loops);
      ListPasses(c, lay, es.init, b1, false, y.Up(1));
      Behind(c.p.code, lay, b, b1, b1 + |CodeList(es.init, b1, c.t)|, y.loops);
    }
  }

  lemma {:induction false} StmtsPasses(c: Ctx, lay: seq<Layout>, es: Exprs, b: nat, ret: bool, y: Layout)
    requires CoversAll(c.t, es) && WellFormedStmts(c.src.funs, es, ret) && y.known == []
    requires CodeAt(c.p.code, b, CodeStmts(es, b, c.t)) && StmtsAt(lay, es, b, y, c.t)
    requires b <= |c.p.code| && OpenLoops(c.p.code, b) == y.loops
    ensures Passes(c.p.code, lay, b, b + |CodeStmts(es, b, c.t)|, y.loops)
    decreases es
  {
    hide Code, CodeStmts, Covers, CoversAll, WellFormed, WellFormedStmts, CodeAt, NodeAt, StmtsAt, Passes, OpenLoops;
    if es.Nil? {
      EmptyStmtsPasses(c.p.code, lay, es, b, y, c.t);
    } else {
      StmtsNode(c, es, b, ret);
      StmtsPartsAt(lay, es, b, y, c.t);
      var b1 := b + |CodeStmts(es.init, b, c.t)|;
      var b2 := b1 + |Code(es.last, b1, c.t)|;
      StmtsPasses(c, lay, es.init, b, ret, y);
      PassEnd(c.p.code, lay, b, b1, y.loops);
      NodePasses(c, lay, es.last, b1, ret, y);
      PassEnd(c.p.code, lay, b1, b2, y.loops);
      Stretch1(c.p.code, lay, b2, Do(DISCARD), y.loops);
      Behind(c.p.code, lay, b, b1, b2, y.loops);
      Behind(c.p.code, lay, b, b2, b2 + 1, y.loops);
    }
  }

  // ----- the parts of `if` and `while` -----

  lemma {:induction false} IfPasses(c: Ctx, lay: seq<Layout>, e: Expr, b: nat, ret: bool, y: Layout)
    requires e.If?
    requires Covers(c.t, e) && WellFormed(c.src.funs, e, ret) && y.known == []
    requires CodeAt(c.p.code, b, Code(e, b, c.t)) && NodeAt(lay, e, b, y, c.t)
    requires b <= |c.p.code| && OpenLoops(c.p.code, b) == y.loops
    ensures Passes(c.p.code, lay, b, b + |Code(e, b, c.t)|, y.loops)
    decreases e, 0
  {
    hide Code, CodeStmts, IfCode, WhileCode, Covers, CoversAll, WellFormed, Passes, OpenLoops;
    hide WellFormedStmts, CodeAt, NodeAt, StmtsAt, Balanced;
    hide ThenAt, ElseAt, IfSeamsAt, AtTest, AtJump;
    IfNode(c, e, b, ret);
    IfPartsLaid(lay, e, b, y, c.t);
    IfSeamsLaid(lay, e, b, y, c.t);
    var cc := Code(e.cond, b, c.t);
    var b1 := ThenAt(b, cc, c.t.scheme);
    var ct := CodeStmts(e.thn, b1, c.t);
    var b2 := ElseAt(b, cc, ct, c.t.scheme);
    var cf := CodeStmts(e.els, b2, c.t);
    var end := b + |IfCode(b, cc, ct, cf, c.t.scheme)|;
    NodePasses(c, lay, e.cond, b, ret, y);
    PassEnd(c.p.code, lay, b, b + |cc|, y.loops);
    TestPasses(c.p.code, lay, b, cc, ct, cf, c.t.scheme, y);
    PassEnd(c.p.code, lay, b + |cc|, b1, y.loops);
    StmtsPasses(c, lay, e.thn, b1, ret, y);
    PassEnd(c.p.code, lay, b1, b1 + |ct|, y.loops);
    ThenPasses(c.p.code, lay, b, cc, ct, cf, c.t.scheme, y);
    PassEnd(c.p.code, lay, b1 + |ct|, b2, y.loops);
    StmtsPasses(c, lay, e.els, b2, ret, y);
    PassEnd(c.p.code, lay, b2, b2 + |cf|, y.loops);
    EndPasses(c.p.code, lay, b, cc, ct, cf, c.t.scheme, y);
    Behind(c.p.code, lay, b, b + |cc|, b1, y.loops);
    Behind(c.p.code, lay, b, b1, b1 + |ct|, y.loops);
    Behind(c.p.code, lay, b, b1 + |ct|, b2, y.loops);
    Behind(c.p.code, lay, b, b2, b2 + |cf|, y.loops);
    Behind(c.p.code, lay, b, b2 + |cf|, end, y.loops);
  }

  /** The layouts of test and jump cells have the loops of their node. */
  lemma SeamLoops(y: Layout)
    ensures forall target, at, pc :: AtTest(y, target, at, pc).loops == y.loops
    ensures forall target, at, pc :: AtJump(y, target, at, pc).loops == y.loops
  {
  }

  lemma TestPasses(code: seq<Instr>, lay: seq<Layout>, b: nat, cc: seq<Instr>, ct: seq<Instr>, cf: seq<Instr>,
                   scheme: Scheme, y: Layout)
    requires CodeAt(code, b, IfCode(b, cc, ct, cf, scheme)) && IfSeamsAt(lay, b, cc, ct, cf, scheme, y)
    requires b + |cc| <= |code| && OpenLoops(code, b + |cc|) == y.loops
    ensures Passes(code, lay, b + |cc|, ThenAt(b, cc, scheme), y.loops)
  {
    hide CodeAt, Passes, OpenLoops, AtTest, AtJump;
    SeamLoops(y);
    if scheme == Jumps {
      IfJumps(code, b, cc, ct, cf);
      Stretch2(code, lay, b + |cc|, Push(ElseAt(b, cc, ct, Jumps)), Do(JUMPF), y.loops);
    } else {
      IfBrackets(code, b, cc, ct, cf);
      Stretch1(code, lay, b + |cc|, Do(CONDBEGIN), y.loops);
    }
  }

  lemma ThenPasses(code: seq<Instr>, lay: seq<Layout>, b: nat, cc: seq<Instr>, ct: seq<Instr>, cf: seq<Instr>,
                   scheme: Scheme, y: Layout)
    requires CodeAt(code, b, IfCode(b, cc, ct, cf, scheme)) && IfSeamsAt(lay, b, cc, ct, cf, scheme, y)
    requires var e1 := ThenAt(b, cc, scheme) + |ct|; e1 <= |code| && OpenLoops(code, e1) == y.loops
    ensures Passes(code, lay, ThenAt(b, cc, scheme) + |ct|, ElseAt(b, cc, ct, scheme), y.loops)
  {
    hide CodeAt, Passes, OpenLoops, AtTest, AtJump;
    SeamLoops(y);
    var e1 := ThenAt(b, cc, scheme) + |ct|;
    if scheme == Jumps {
      IfJumps(code, b, cc, ct, cf);
      Stretch2(code, lay, e1, Push(ElseAt(b, cc, ct, Jumps) + |cf|), Do(JUMP), y.loops);
    } else {
      IfBrackets(code, b, cc, ct, cf);
      Stretch1(code, lay, e1, Do(CONDELSE), y.loops);
    }
  }

  lemma EndPasses(code: seq<Instr>, lay: seq<Layout>, b: nat, cc: seq<Instr>, ct: seq<Instr>, cf: seq<Instr>,
                  scheme: Scheme, y: Layout)
    requires CodeAt(code, b, IfCode(b, cc, ct, cf, scheme)) && IfSeamsAt(lay, b, cc, ct, cf, scheme, y)
    requires var e2 := ElseAt(b, cc, ct, scheme) + |cf|; e2 <= |code| && OpenLoops(code, e2) == y.loops
    ensures Passes(code, lay, ElseAt(b, cc, ct, scheme) + |cf|, b + |IfCode(b, cc, ct, cf, scheme)|, y.loops)
  {
    hide CodeAt, Passes, OpenLoops, AtTest, AtJump;
    var e2 := ElseAt(b, cc, ct, scheme) + |cf|;
    if scheme == Jumps {
      IfJumps(code, b, cc, ct, cf);
      Stretch1(code, lay, e2, Push(0), y.loops);
    } else {
      IfBrackets(code, b, cc, ct, cf);
      Stretch1(code, lay, e2, Do(CONDEND), y.loops);
      PassEnd(code, lay, e2, e2 + 1, y.loops);
      Stretch1(code, lay, e2 + 1, Push(0), y.loops);
      Behind(code, lay, e2, e2 + 1, e2 + 2, y.loops);
    }
  }

  lemma {:induction false} WhilePasses(c: Ctx, lay: seq<Layout>, e: Expr, b: nat, ret: bool, y: Layout)
    requires e.While?
    requires Covers(c.t, e) && WellFormed(c.src.funs, e, ret) && y.known == []
    requires CodeAt(c.p.code, b, Code(e, b, c.t)) && NodeAt(lay, e, b, y, c.t)
    requires b <= |c.p.code| && OpenLoops(c.p.code, b) == y.loops
    ensures Passes(c.p.code, lay, b, b + |Code(e, b, c.t)|, y.loops)
    decreases e, 0
  {
    hide Code, CodeStmts, IfCode, WhileCode, Covers, CoversAll, WellFormed, Passes, OpenLoops;
    hide WellFormedStmts, CodeAt, NodeAt, StmtsAt, Balanced;
    hide BodyAt, WhileSeamsAt, AtTest, AtJump;
    WhileNode(c, e, b, ret);
    WhileAt(lay, e, b, y, c.t);
    var b0 := b + LoopGap(c.t.scheme);
    var z := Inner(y, b, c.t.scheme);
    var cc := Code(e.cond, b0, c.t);
    var b1 := BodyAt(b, cc, c.t.scheme);
    var body := CodeStmts(e.body, b1, c.t);
    LoopEntered(c.p.code, lay, b, cc, body, c.t.scheme, y);
    NodePasses(c, lay, e.cond, b0, ret, z);
    PassEnd(c.p.code, lay, b0, b0 + |cc|, z.loops);
    LoopTestPasses(c.p.code, lay, b, cc, body, c.t.scheme, y);
    PassEnd(c.p.code, lay, b0 + |cc|, b1, z.loops);
    StmtsPasses(c, lay, e.body, b1, ret, z);
    Behind(c.p.code, lay, b0, b0 + |cc|, b1, z.loops);
    Behind(c.p.code, lay, b0, b1, b1 + |body|, z.loops);
    LoopPasses(c.p.code, lay, b, cc, body, c.t.scheme, y);
  }

  lemma LoopEntered(code: seq<Instr>, lay: seq<Layout>, b: nat, cc: seq<Instr>, body: seq<Instr>, scheme: Scheme,
                    y: Layout)
    requires CodeAt(code, b, WhileCode(b, cc, body, scheme)) && y.known == []
    requires b <= |code| && OpenLoops(code, b) == y.loops
    ensures Inner(y, b, scheme).known == []
    ensures var b0 := b + LoopGap(scheme); b0 <= |code| && OpenLoops(code, b0) == Inner(y, b, scheme).loops
  {
    hide CodeAt, OpenLoops;
    if scheme == Brackets {
      WhileBrackets(code, b, cc, body);
      Cell(code, b, [Do(LOOPBEGIN)], 0);
      Entered(code, b, y.loops);
    }
  }

  lemma LoopTestPasses(code: seq<Instr>, lay: seq<Layout>, b: nat, cc: seq<Instr>, body: seq<Instr>, scheme: Scheme,
                       y: Layout)
    requires CodeAt(code, b, WhileCode(b, cc, body, scheme)) && WhileSeamsAt(lay, b, cc, body, scheme, y)
    requires var e0 := b + LoopGap(scheme) + |cc|; e0 <= |code| && OpenLoops(code, e0) == Inner(y, b, scheme).loops
    ensures Passes(code, lay, b + LoopGap(scheme) + |cc|, BodyAt(b, cc, scheme), Inner(y, b, scheme).loops)
  {
    hide CodeAt, Passes, OpenLoops, AtTest, AtJump;
    var z := Inner(y, b, scheme);
    SeamLoops(z);
    if scheme == Jumps {
      WhileJumps(code, b, cc, body);
      Stretch2(code, lay, b + |cc|, Push(b + |cc| + |body| + 4), Do(JUMPF), z.loops);
    } else {
      WhileBrackets(code, b, cc, body);
      Stretch1(code, lay, b + 1 + |cc|, Do(LOOPBODY), z.loops);
    }
  }

  lemma {:induction false} LoopPasses(code: seq<Instr>, lay: seq<Layout>, b: nat, cc: seq<Instr>, body: seq<Instr>,
                                      scheme: Scheme, y: Layout)
    requires CodeAt(code, b, WhileCode(b, cc, body, scheme)) && WhileSeamsAt(lay, b, cc, body, scheme, y)
    requires b <= |code| && OpenLoops(code, b) == y.loops
    requires Passes(code, lay, b + LoopGap(scheme), BodyAt(b, cc, scheme) + |body|, Inner(y, b, scheme).loops)
    ensures Passes(code, lay, b, b + |WhileCode(b, cc, body, scheme)|, y.loops)
  {
    hide CodeAt, Passes, OpenLoops, AtTest, AtJump;
    SeamLoops(y);
    var e1 := BodyAt(b, cc, scheme) + |body|;
    PassEnd(code, lay, b + LoopGap(scheme), e1, Inner(y, b, scheme).loops);
    if scheme == Jumps {
      WhileJumps(code, b, cc, body);
      Stretch2(code, lay, e1, Push(b), Do(JUMP), y.loops);
      PassEnd(code, lay, e1, e1 + 2, y.loops);
      Stretch1(code, lay, e1 + 2, Push(0), y.loops);
      Behind(code, lay, b, e1, e1 + 2, y.loops);
      Behind(code, lay, b, e1 + 2, e1 + 3, y.loops);
    } else {
      WhileBrackets(code, b, cc, body);
      Cell(code, b, [Do(LOOPBEGIN)], 0);
      Cell(code, e1, [Do(LOOPEND)], 0);
      Wrapped(code, lay, b, e1, y.loops);
      PassEnd(code, lay, b, e1 + 1, y.loops);
      Stretch1(code, lay, e1 + 1, Push(0), y.loops);
      Behind(code, lay, b, e1 + 1, e1 + 2, y.loops);
    }
  }

  // ----- programs -----

  lemma {:induction false} FuncPasses(c: Ctx, lay: seq<Layout>, f: Func, b: nat)
    requires c.t.vars == FuncVars(f) && c.t.consts == c.p.consts
    requires CoversAll(c.t, f.body) && WellFormedStmts(c.src.funs, f.body, true)
    requires CodeAt(c.p.code, b, FuncCode(f, b, c.p.consts, c.t.scheme))
    requires FuncLaid(lay, f, b, c.p.consts, c.t.scheme)
    requires b <= |c.p.code| && OpenLoops(c.p.code, b) == []
    ensures Passes(c.p.code, lay, b, b + |FuncCode(f, b, c.p.consts, c.t.scheme)|, [])
  {
    hide CodeAt, CodeStmts, FuncVars, FuncCode, FuncLaid, StmtsAt, CoversAll, WellFormedStmts, Passes, OpenLoops;
    FuncCodeParts(c.p.code, f, b, c.p.consts, c.t.scheme);
    FuncPartsAt(lay, f, b, c.p.consts, c.t.scheme);
    assert c.t == Tables(FuncVars(f), c.p.consts, c.t.scheme);
    var body := CodeStmts(f.body, b + 2, c.t);
    var e1 := b + 2 + |body|;
    Stretch2(c.p.code, lay, b, Push(e1 + 2), Do(JUMP), []);
    PassEnd(c.p.code, lay, b, b + 2, []);
    SplitAt(c.p.code, b + 2, body, [Push(0), Do(RET)]);
    StmtsPasses(c, lay, f.body, b + 2, true, BODY_START);
    PassEnd(c.p.code, lay, b + 2, e1, []);
    Stretch2(c.p.code, lay, e1, Push(0), Do(RET), []);
    PassEnd(c.p.code, lay, e1, e1 + 2, []);
    Stretch1(c.p.code, lay, e1 + 2, Push(0), []);
    Behind(c.p.code, lay, b, b + 2, e1, []);
    Behind(c.p.code, lay, b, e1, e1 + 2, []);
    Behind(c.p.code, lay, b, e1 + 2, e1 + 3, []);
  }

  lemma {:induction false} FuncsPass(c: Ctx, lay: seq<Layout>, fs: seq<Func>)
    requires CodeAt(c.p.code, 0, FuncsCode(fs, c.p.consts, c.t.scheme)) && FuncsAt(lay, fs, c.p.consts, c.t.scheme)
    requires ConstsAfterFuncs(fs, []) <= c.p.consts && BodiesWell(c.src.funs, fs)
    ensures Passes(c.p.code, lay, 0, |FuncsCode(fs, c.p.consts, c.t.scheme)|, [])
    decreases |fs|
  {
    hide CodeAt, FuncCode, FuncsAt, FuncLaid, WellFormedStmts, FuncVars, CoversAll, ConstsAfterStmts;
    hide BodiesWell, FuncsCode, ConstsAfterFuncs, Passes, OpenLoops;
    if fs == [] {
      NoFuncsPass(c.p, lay, c.t.scheme);
    } else {
      var init, f := fs[..|fs| - 1], fs[|fs| - 1];
      var b := |FuncsCode(init, c.p.consts, c.t.scheme)|;
      FuncsCodeParts(c.p.code, fs, c.p.consts, c.t.scheme);
      FuncsPartsAt(lay, fs, c.p.consts, c.t.scheme);
      ConstsParts(fs, c.p.consts);
      BodiesParts(c.src.funs, fs);
      FuncsPass(c, lay, init);
      DefinitionPasses(c, lay, fs, f, b);
    }
  }

  lemma NoFuncsPass(p: Image, lay: seq<Layout>, scheme: Scheme)
    requires FuncsAt(lay, [], p.consts, scheme)
    ensures Passes(p.code, lay, 0, |FuncsCode([], p.consts, scheme)|, [])
  {
  }

  lemma DefinitionPasses(c: Ctx, lay: seq<Layout>, fs: seq<Func>, f: Func, b: nat)
    requires fs != [] && f == fs[|fs| - 1] && b == |FuncsCode(fs[..|fs| - 1], c.p.consts, c.t.scheme)|
    requires WellFormedStmts(c.src.funs, f.body, true)
    requires CodeAt(c.p.code, 0, FuncsCode(fs, c.p.consts, c.t.scheme)) && FuncsAt(lay, fs, c.p.consts, c.t.scheme)
    requires ConstsAfterStmts(f.body, ConstsAfterFuncs(fs[..|fs| - 1], [])) <= c.p.consts
    requires Passes(c.p.code, lay, 0, b, [])
    ensures Passes(c.p.code, lay, 0, |FuncsCode(fs, c.p.consts, c.t.scheme)|, [])
  {
    hide CodeAt, FuncCode, FuncsAt, FuncLaid, WellFormedStmts, FuncVars, CoversAll, ConstsAfterStmts;
    hide FuncsCode, ConstsAfterFuncs, Passes, OpenLoops;
    var d := b + |FuncCode(f, b, c.p.consts, c.t.scheme)|;
    var cf := c.(t := Tables(FuncVars(f), c.p.consts, c.t.scheme));
    FuncsCodeParts(c.p.code, fs, c.p.consts, c.t.scheme);
    FuncsPartsAt(lay, fs, c.p.consts, c.t.scheme);
    FuncsEnd(lay, fs, c.p.consts, c.t.scheme);
    FuncCovered(f, ConstsAfterFuncs(fs[..|fs| - 1], []), cf.t);
    PassEnd(c.p.code, lay, 0, b, []);
    FuncPasses(cf, lay, f, b);
    PassEnd(c.p.code, lay, b, d, []);
    Stretch1(c.p.code, lay, d, Do(DISCARD), []);
    Behind(c.p.code, lay, 0, b, d, []);
    Behind(c.p.code, lay, 0, d, d + 1, []);
  }

  /** Every cell of a compiled program has the brackets open around it, and none is open at the end. */
  lemma ProgramPasses(src: Program, scheme: Scheme, remote: Remote)
    requires WellFormedProgram(src)
    ensures var p := Compiled(src, scheme, remote); Passes(p.code, ProgramLayout(src, scheme), 0, |p.code|, [])
  {
    hide CodeAt, FuncCode, FuncsAt, CodeStmts, FuncVars, WellFormedStmts, CoversAll, FuncsCode, StmtsAt;
    hide OpenLoops, Passes;
    var c := MainCtx(src, scheme, remote);
    var p, lay := c.p, ProgramLayout(src, scheme);
    var b := |FuncsCode(src.funs, p.consts, scheme)|;
    CompiledParts(src, scheme, remote);
    ProgramAt(src, scheme);
    FuncsPass(c, lay, src.funs);
    PassEnd(p.code, lay, 0, b, []);
    MainCovered(src, scheme);
    StmtsPasses(c, lay, src.main, b, false, MAIN_START);
    Behind(p.code, lay, 0, b, |p.code|, []);
  }

  // ----- states -----

  /** Where the `i`-th frame from the bottom stands: the newest at the program counter, a caller at the cell its
      callee returns to. */
  function ActiveCell(s: State, i: nat): int
    requires i < |s.frames|
  {
    if i == |s.frames| - 1 then s.pc else s.frames[i + 1].ret + 1
  }

  lemma FramesFollow(lay: seq<Layout>, s: State, i: nat)
    requires InStep(lay, s) && i < |s.frames|
    ensures var pc := ActiveCell(s, i); 0 <= pc < |lay| && s.frames[i].loops == lay[pc].loops
  {
    if i < |s.frames| - 1 { assert CallerOk(lay, s.frames, i + 1); }
  }

  /** In every state a run reaches, under both lowerings, the loop stack of every frame holds exactly the
      LOOPBEGINs of the loops around the cell the frame stands at, outermost first, so its top is that of the
      innermost one. */
  lemma LoopStacksAreEnclosing(src: Program, scheme: Scheme, remote: Remote, mem: Mem, n: nat, i: nat)
    requires WellFormedProgram(src)
    requires var r := StepN(Compiled(src, scheme, remote), Initial(mem), n); r.Next? && i < |r.s.frames|
    ensures var code := Compiled(src, scheme, remote).code;
            var s := StepN(Compiled(src, scheme, remote), Initial(mem), n).s;
            var pc, loops := ActiveCell(s, i), s.frames[i].loops;
            && 0 <= pc <= |code| && loops == OpenLoops(code, pc)
            && (forall l :: l in loops <==> Encloses(code, l, pc))
            && (forall j, k :: 0 <= j < k < |loops| ==> loops[j] < loops[k])
            && forall k :: 0 <= k < |loops| ==> code[loops[k]] == Do(LOOPBEGIN)
  {
    hide Step, InStep, Follows, OpenLoops, ProgramLayout, Encloses;
    var p, lay := Compiled(src, scheme, remote), ProgramLayout(src, scheme);
    var s := StepN(p, Initial(mem), n).s;
    StatesFollowLayouts(src, scheme, remote, mem, n);
    ProgramPasses(src, scheme, remote);
    ProgramAt(src, scheme);
    FramesFollow(lay, s, i);
    var pc := ActiveCell(s, i);
    CellFollows(p.code, lay, pc);
    forall l ensures l in s.frames[i].loops <==> Encloses(p.code, l, pc) {
      OpenIsEnclosing(p.code, l, pc);
    }
  }

  lemma CellFollows(code: seq<Instr>, lay: seq<Layout>, pc: nat)
    requires Passes(code, lay, 0, |code|, []) && |lay| == |code| + 1 && pc < |lay| && lay[|code|].loops == []
    ensures lay[pc].loops == OpenLoops(code, pc)
  {
    hide OpenLoops;
  }
}
