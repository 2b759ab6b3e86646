/** The code the compiler produces, as a relocatable function of the node, its first address and the
    name tables (sqlinked.y, `compile_ast`).  `Scheme` selects one of the two lowerings of `if` and
    `while` that the compiler source carries. */
module Codegen {
  import opened Values
  import opened Bytecode
  import opened Source

  datatype Scheme = Jumps | Brackets

  /** `vars[i]` is the variable in slot i, `consts[i]` the string with constant index i. */
  datatype Tables = Tables(vars: seq<string>, consts: seq<string>, scheme: Scheme)

  /** The position of a name, or the length of the list. */
  function Find(xs: seq<string>, x: string): (i: nat)
    ensures i <= |xs| && (x in xs <==> i < |xs|)
    ensures i < |xs| ==> xs[i] == x
    ensures forall j :: 0 <= j < i ==> xs[j] != x
  {
    if xs == [] then 0 else if xs[0] == x then 0 else Find(xs[1..], x) + 1
  }

  function Add(xs: seq<string>, x: string): seq<string> {
    if x in xs then xs else xs + [x]
  }

  function AddAll(xs: seq<string>, ys: seq<string>): seq<string>
    decreases |ys|
  {
    if ys == [] then xs else AddAll(Add(xs, ys[0]), ys[1..])
  }

  // ----- growth of the two tables -----

  /** The variable table after compiling a node: names get slots in order of first use. */
  function VarsAfter(e: Expr, vars: seq<string>): seq<string>
    decreases e
  {
    match e
    case Number(_) => vars
    case Text(_) => vars
    case Var(x) => Add(vars, x)
    case Bin(_, l, r) => VarsAfter(l, VarsAfter(r, vars))
    case Neg(a) => VarsAfter(a, vars)
    case Assign(x, a) => Add(VarsAfter(a, vars), x)
    case Index(x, i) => Add(VarsAfter(i, vars), x)
    case IndexAssign(x, i, a) => Add(VarsAfter(i, VarsAfter(a, vars)), x)
    case Array(es) => VarsAfterList(es, vars)
    case Call(_, args) => VarsAfterList(args, vars)
    case If(c, t, f) => VarsAfterStmts(f, VarsAfterStmts(t, VarsAfter(c, vars)))
    case While(c, body) => VarsAfterStmts(body, VarsAfter(c, vars))
    case Return(a) => VarsAfter(a, vars)
  }

  function VarsAfterList(es: Exprs, vars: seq<string>): seq<string>
    decreases es
  {
    if es.Nil? then vars else VarsAfterList(es.init, VarsAfter(es.last, vars))
  }

  function VarsAfterStmts(es: Exprs, vars: seq<string>): seq<string>
    decreases es
  {
    if es.Nil? then vars else VarsAfter(es.last, VarsAfterStmts(es.init, vars))
  }

  function ConstsAfter(e: Expr, cs: seq<string>): seq<string>
    decreases e
  {
    match e
    case Number(_) => cs
    case Text(s) => Add(cs, s)
    case Var(_) => cs
    case Bin(_, l, r) => ConstsAfter(l, ConstsAfter(r, cs))
    case Neg(a) => ConstsAfter(a, cs)
    case Assign(_, a) => ConstsAfter(a, cs)
    case Index(_, i) => ConstsAfter(i, cs)
    case IndexAssign(_, i, a) => ConstsAfter(i, ConstsAfter(a, cs))
    case Array(es) => ConstsAfterList(es, cs)
    case Call(f, args) => Add(ConstsAfterList(args, cs), f)
    case If(c, t, f) => ConstsAfterStmts(f, ConstsAfterStmts(t, ConstsAfter(c, cs)))
    case While(c, body) => ConstsAfterStmts(body, ConstsAfter(c, cs))
    case Return(a) => ConstsAfter(a, cs)
  }

  function ConstsAfterList(es: Exprs, cs: seq<string>): seq<string>
    decreases es
  {
    if es.Nil? then cs else ConstsAfterList(es.init, ConstsAfter(es.last, cs))
  }

  function ConstsAfterStmts(es: Exprs, cs: seq<string>): seq<string>
    decreases es
  {
    if es.Nil? then cs else ConstsAfter(es.last, ConstsAfterStmts(es.init, cs))
  }

  // ----- code -----

  function OpFor(op: BinOp): Opcode {
    match op
    case Plus => ADD
    case Minus => SUB
    case Times => MUL
    case Over => DIVIDE
    case Less => LESS
    case Equal => EQUAL
    case NotEqual => NOTEQUAL
  }

  function GetVar(x: string, t: Tables): seq<Instr> {
    [Push(Find(t.vars, x)), Do(GETVAR)]
  }

  function SetVar(x: string, t: Tables): seq<Instr> {
    [Push(Find(t.vars, x)), Do(SETVAR)]
  }

  function Constant(s: string, t: Tables): seq<Instr> {
    [Push(Find(t.consts, s)), Do(CONSTANT)]
  }

  function IfCode(b: nat, c: seq<Instr>, t: seq<Instr>, f: seq<Instr>, scheme: Scheme): seq<Instr> {
    match scheme
    case Jumps =>
      var els := b + |c| + 2 + |t| + 2;
      c + [Push(els), Do(JUMPF)] + t + [Push(els + |f|), Do(JUMP)] + f + [Push(0)]
    case Brackets =>
      c + [Do(CONDBEGIN)] + t + [Do(CONDELSE)] + f + [Do(CONDEND), Push(0)]
  }

  function WhileCode(b: nat, c: seq<Instr>, body: seq<Instr>, scheme: Scheme): seq<Instr> {
    match scheme
    case Jumps =>
      c + [Push(b + |c| + 2 + |body| + 2), Do(JUMPF)] + body + [Push(b), Do(JUMP)] + [Push(0)]
    case Brackets =>
      [Do(LOOPBEGIN)] + c + [Do(LOOPBODY)] + body + [Do(LOOPEND), Push(0)]
  }

  /** Cells between the condition and the first branch, between the branches, and before a loop's
      condition. */
  function Gap(scheme: Scheme): nat {
    if scheme == Jumps then 2 else 1
  }

  function LoopGap(scheme: Scheme): nat {
    if scheme == Jumps then 0 else 1
  }

  /** Addresses inside the code of an `if` at `b`: first branch, second branch, and the next node. */
  function ThenAt(b: nat, c: seq<Instr>, scheme: Scheme): nat {
    b + |c| + Gap(scheme)
  }

  function ElseAt(b: nat, c: seq<Instr>, t: seq<Instr>, scheme: Scheme): nat {
    ThenAt(b, c, scheme) + |t| + Gap(scheme)
  }

  function BodyAt(b: nat, cc: seq<Instr>, scheme: Scheme): nat {
    b + LoopGap(scheme) + |cc| + Gap(scheme)
  }

  /** The cells of node `e` when its first cell is at address `b`. */
  function Code(e: Expr, b: nat, t: Tables): seq<Instr>
    decreases e
  {
    match e
    case Number(n) => [Push(n)]
    case Text(s) => Constant(s, t)
    case Var(x) => GetVar(x, t)
    case Bin(op, l, r) =>
      var cr := Code(r, b, t);
      cr + Code(l, b + |cr|, t) + [Do(OpFor(op))]
    case Neg(a) => Code(a, b, t) + [Do(NEGATE)]
    case Assign(x, a) => Code(a, b, t) + SetVar(x, t) + GetVar(x, t)
    case Index(x, i) => Code(i, b, t) + GetVar(x, t) + [Do(INDEX1)]
    case IndexAssign(x, i, a) =>
      var ca := Code(a, b, t);
      ca + Code(i, b + |ca|, t) + GetVar(x, t) + [Do(INDEXAS)]
    case Array(es) => CodeList(es, b, t) + [Push(es.Length()), Do(MKARRAY)]
    case Call(f, args) => CodeList(args, b, t) + [Push(args.Length())] + Constant(f, t) + [Do(CALL)]
    case If(c, th, el) =>
      var cc := Code(c, b, t);
      var ct := CodeStmts(th, ThenAt(b, cc, t.scheme), t);
      IfCode(b, cc, ct, CodeStmts(el, ElseAt(b, cc, ct, t.scheme), t), t.scheme)
    case While(c, body) =>
      var cc := Code(c, b + LoopGap(t.scheme), t);
      WhileCode(b, cc, CodeStmts(body, BodyAt(b, cc, t.scheme), t), t.scheme)
    case Return(a) => Code(a, b, t) + [Do(RET)]
  }

  /** Arguments and elements: the last one first. */
  function CodeList(es: Exprs, b: nat, t: Tables): seq<Instr>
    decreases es
  {
    if es.Nil? then []
    else
      var cl := Code(es.last, b, t);
      cl + CodeList(es.init, b + |cl|, t)
  }

  function CodeStmts(es: Exprs, b: nat, t: Tables): seq<Instr>
    decreases es
  {
    if es.Nil? then []
    else
      var ci := CodeStmts(es.init, b, t);
      ci + Code(es.last, b + |ci|, t) + [Do(DISCARD)]
  }

  lemma IfCodeIs(e: Expr, b: nat, t: Tables)
    requires e.If?
    ensures var cc := Code(e.cond, b, t);
            var ct := CodeStmts(e.thn, ThenAt(b, cc, t.scheme), t);
            var cf := CodeStmts(e.els, ElseAt(b, cc, ct, t.scheme), t);
            Code(e, b, t) == IfCode(b, cc, ct, cf, t.scheme)
  {
    hide IfCode;
  }

  // ----- functions and programs -----

  function ParamVars(params: seq<string>): seq<string> {
    if params == [] then [] else Add(ParamVars(params[..|params| - 1]), params[|params| - 1])
  }

  /** The variable table is reset at each definition and starts with the parameters. */
  function FuncVars(f: Func): seq<string> {
    VarsAfterStmts(f.body, ParamVars(f.params))
  }

  /** A jump over the body, the body, the return of 0 for a body that falls off its end, and the value
      0 of the definition itself. */
  function FuncCode(f: Func, b: nat, consts: seq<string>, scheme: Scheme): seq<Instr> {
    var body := CodeStmts(f.body, b + 2, Tables(FuncVars(f), consts, scheme));
    [Push(b + 2 + |body| + 2), Do(JUMP)] + body + [Push(0), Do(RET)] + [Push(0)]
  }

  /** The definitions, each a statement of its own. */
  function FuncsCode(fs: seq<Func>, consts: seq<string>, scheme: Scheme): seq<Instr> {
    if fs == [] then []
    else
      var c := FuncsCode(fs[..|fs| - 1], consts, scheme);
      c + FuncCode(fs[|fs| - 1], |c|, consts, scheme) + [Do(DISCARD)]
  }

  function ConstsAfterFuncs(fs: seq<Func>, cs: seq<string>): seq<string> {
    if fs == [] then cs
    else ConstsAfterStmts(fs[|fs| - 1].body, ConstsAfterFuncs(fs[..|fs| - 1], cs))
  }

  /** The table is not restored after a definition: the main statements continue with the last
      function's variables. */
  function VarsAfterFuncs(fs: seq<Func>): seq<string> {
    if fs == [] then [] else FuncVars(fs[|fs| - 1])
  }

  function Entries(fs: seq<Func>, consts: seq<string>, scheme: Scheme): map<string, nat> {
    if fs == [] then map[]
    else
      var init := fs[..|fs| - 1];
      Entries(init, consts, scheme)[fs[|fs| - 1].name := |FuncsCode(init, consts, scheme)| + 2]
  }

  function ProgramConsts(p: Program): seq<string> {
    ConstsAfterStmts(p.main, ConstsAfterFuncs(p.funs, []))
  }

  function MainTables(p: Program, scheme: Scheme): Tables {
    Tables(VarsAfterStmts(p.main, VarsAfterFuncs(p.funs)), ProgramConsts(p), scheme)
  }

  function ProgramCode(p: Program, scheme: Scheme): seq<Instr> {
    var c := FuncsCode(p.funs, ProgramConsts(p), scheme);
    c + CodeStmts(p.main, |c|, MainTables(p, scheme))
  }

  // ----- repeat and database blocks -----

  /** `repeat (n) { body }`: a counter under the body's operands, counted down by 0 - (1 - n). */
  function RepeatCode(n: nat, body: Exprs, b: nat, t: Tables): seq<Instr> {
    var cb := CodeStmts(body, b + 8, t);
    [Push(n)] + LoopHead(b + 10 + |cb|) + cb + [Push(b + 1), Do(JUMP)] + [Do(DISCARD)]
  }

  function LoopHead(target: nat): seq<Instr> {
    [Do(DUP)] + [Push(target), Do(JUMPF)] + [Push(1)] + [Do(SUB)] + [Push(0)] + [Do(SUB)]
  }

  /** The outer variables' values and names, last variable first. */
  function PushVars(ext: seq<string>, t: Tables): seq<Instr> {
    if ext == [] then [] else PushVars(ext[1..], t) + GetVar(ext[0], t) + Constant(ext[0], t)
  }

  function StoreVars(ext: seq<string>, t: Tables): seq<Instr> {
    if ext == [] then [] else SetVar(ext[0], t) + StoreVars(ext[1..], t)
  }

  function BlockCode(ext: seq<string>, name: string, text: string, t: Tables): seq<Instr> {
    PushVars(ext, t) + [Push(|ext|)] + Constant(name, t) + Constant(text, t) + [Do(DBLOCK)] + StoreVars(ext, t)
  }

  predicate CoversNames(t: Tables, xs: seq<string>) {
    forall x :: x in xs ==> x in t.vars && x in t.consts
  }
}
