/** What the generated text of `if`, `while` and statement lists says: a reader that knows only the commands
    of the text, what these commands do, and the agreement with the block the text was printed from. */
module ControlText {
  import opened Source
  import opened Values
  import opened Grammar
  import opened Printer

  // ----- commands and what they do -----

  datatype Command =
    | Evaluate(e: Expr)
    | Branch(cond: Expr, thn: Commands, els: Commands)
    | Loop(body: Commands)
    | ExitWhenNot(cond: Expr)

  datatype Commands = Empty | Then(init: Commands, last: Command)

  /** Going on with the next command, leaving the innermost loop, or stopping for good. */
  datatype Control = Goes(env: Env, mem: Mem) | Leaves(env: Env, mem: Mem) | Stops(o: Outcome<Val>)

  function FromOutcome<T>(o: Outcome<T>): Control {
    if o.Done? then Goes(o.env, o.mem) else Stops(o.PropagateFailure())
  }

  function Execute(p: Program, k: nat, c: Command, env: Env, mem: Mem): Control
    decreases k, c
  {
    match c
    case Evaluate(e) => FromOutcome(Eval(p, k, e, env, mem))
    case Branch(e, t, f) =>
      var o := Eval(p, k, e, env, mem);
      if !o.Done? then FromOutcome(o)
      else ExecuteAll(p, k, if ToBool(o.value, o.mem) then t else f, o.env, o.mem)
    case Loop(body) =>
      (match ExecuteAll(p, k, body, env, mem)
       case Goes(env1, mem1) => if k == 0 then Stops(Timeout) else Execute(p, k - 1, c, env1, mem1)
       case Leaves(env1, mem1) => Goes(env1, mem1)
       case Stops(o) => Stops(o))
    case ExitWhenNot(e) =>
      var o := Eval(p, k, e, env, mem);
      if o.Done? && !ToBool(o.value, o.mem) then Leaves(o.env, o.mem) else FromOutcome(o)
  }

  function ExecuteAll(p: Program, k: nat, cs: Commands, env: Env, mem: Mem): Control
    decreases k, cs
  {
    match cs
    case Empty => Goes(env, mem)
    case Then(init, last) =>
      match ExecuteAll(p, k, init, env, mem)
      case Goes(env1, mem1) => Execute(p, k, last, env1, mem1)
      case o => o
  }

  // ----- reading commands -----

  datatype Got<T> = Got(v: T, rest: string) | Bad

  predicate IsExprChar(c: char) {
    IsIdChar(c) || IsDigit(c) || c in [' ', '+', '-', '*', '/', '<', '=']
  }

  /** An expression up to a given mark; `==` is no operator of the procedures' language. */
  function ReadExpr(t: string, mark: string): (r: Got<Expr>)
    ensures r.Got? ==> |r.rest| <= |t|
  {
    var n := Run(t, IsExprChar);
    if !(mark <= t[n..]) then Bad
    else
      var toks := Lex(t[..n]);
      if EqTok in toks then Bad
      else match Parse(toks) case Some(e) => Got(e, t[n + |mark|..]) case None => Bad
  }

  /** One command with the semicolon and the end of line behind it. */
  function ReadCommand(t: string): (r: Got<Command>)
    ensures r.Got? ==> |r.rest| <= |t|
    decreases |t|, 1
  {
    if "IF " <= t then ReadBranch(t)
    else if "  LOOP\n" <= t then
      var (body, rest) := ReadCommands(t[7..], Empty);
      if "END LOOP;\n" <= rest then Got(Loop(body), rest[10..]) else Bad
    else if "  EXIT WHEN NOT (" <= t then
      match ReadExpr(t[17..], ");\n")
      case Got(e, rest) => Got(ExitWhenNot(e), rest)
      case Bad => Bad
    else
      match ReadExpr(t, ";\n")
      case Got(e, rest) => Got(Evaluate(e), rest)
      case Bad => Bad
  }

  function ReadBranch(t: string): (r: Got<Command>)
    requires "IF " <= t
    ensures r.Got? ==> |r.rest| <= |t|
    decreases |t|, 0
  {
    match ReadExpr(t[3..], "THEN\n")
    case Bad => Bad
    case Got(e, rest) =>
      var (thn, rest1) := ReadCommands(rest, Empty);
      var (els, rest2) := if "ELSE\n" <= rest1 then ReadCommands(rest1[5..], Empty) else (Empty, rest1);
      if "END IF;\n" <= rest2 then Got(Branch(e, thn, els), rest2[8..]) else Bad
  }

  /** Commands as long as there are any, behind those already read. */
  function ReadCommands(t: string, before: Commands): (r: (Commands, string))
    ensures |r.1| <= |t|
    decreases |t|
  {
    if !("  " <= t) then (before, t)
    else
      match ReadCommand(t[2..])
      case Got(c, rest) => ReadCommands(rest, Then(before, c))
      case Bad => (before, t)
  }

  function ReadBody(t: string): Option<Commands> {
    var (cs, rest) := ReadCommands(t, Empty);
    if rest == "" then Some(cs) else None
  }

  // ----- the commands a block's statements are printed as -----

  function CommandOf(e: Expr): Command
    decreases e
  {
    match e
    case If(c, t, f) => Branch(c, CommandsOf(Empty, t), CommandsOf(Empty, f))
    case While(c, body) => Loop(CommandsOf(Then(Empty, ExitWhenNot(c)), body))
    case _ => Evaluate(e)
  }

  function CommandsOf(before: Commands, es: Exprs): Commands
    decreases es
  {
    if es.Nil? then before else Then(CommandsOf(before, es.init), CommandOf(es.last))
  }

  /** Commands do what the statements do, for any number of iterations. */
  lemma {:induction false} CommandAgrees(p: Program, k: nat, e: Expr, env: Env, mem: Mem)
    ensures Execute(p, k, CommandOf(e), env, mem) == FromOutcome(Eval(p, k, e, env, mem))
    decreases k, e
  {
    match e
    case If(c, t, f) =>
      var o := Eval(p, k, c, env, mem);
      if o.Done? {
        CommandsAgree(p, k, Empty, if ToBool(o.value, o.mem) then t else f, o.env, o.mem);
      }
    case While(c, body) => LoopAgrees(p, k, c, body, env, mem);
    case _ =>
  }

  lemma {:induction false} LoopAgrees(p: Program, k: nat, c: Expr, body: Exprs, env: Env, mem: Mem)
    ensures var e := While(c, body);
            Execute(p, k, CommandOf(e), env, mem) == FromOutcome(Eval(p, k, e, env, mem))
    decreases k, While(c, body), 0
  {
    var start := Then(Empty, ExitWhenNot(c));
    CommandsAgree(p, k, start, body, env, mem);
    StartIs(p, k, c, env, mem);
    var o := Eval(p, k, c, env, mem);
    if o.Done? && ToBool(o.value, o.mem) && k > 0 {
      var o1 := EvalStmts(p, k, body, o.env, o.mem);
      if o1.Done? { CommandAgrees(p, k - 1, While(c, body), o1.env, o1.mem); }
    }
  }

  lemma StartIs(p: Program, k: nat, c: Expr, env: Env, mem: Mem)
    ensures var o := Eval(p, k, c, env, mem);
            ExecuteAll(p, k, Then(Empty, ExitWhenNot(c)), env, mem) ==
            if o.Done? && !ToBool(o.value, o.mem) then Leaves(o.env, o.mem) else FromOutcome(o)
  {
    assert ExecuteAll(p, k, Empty, env, mem) == Goes(env, mem);
  }

  lemma {:induction false} CommandsAgree(p: Program, k: nat, before: Commands, es: Exprs, env: Env, mem: Mem)
    ensures var s := ExecuteAll(p, k, before, env, mem);
            ExecuteAll(p, k, CommandsOf(before, es), env, mem) ==
            if s.Goes? then FromOutcome(EvalStmts(p, k, es, s.env, s.mem)) else s
    decreases k, es
  {
    if es.Snoc? {
      CommandsAgree(p, k, before, es.init, env, mem);
      var s := ExecuteAll(p, k, before, env, mem);
      if s.Goes? {
        var o := EvalStmts(p, k, es.init, s.env, s.mem);
        if o.Done? { CommandAgrees(p, k, es.last, o.env, o.mem); }
      }
    }
  }

  // ----- reading what was printed -----

  /** Statements as the parser builds them: control nests in statement position, and everything else is an
      expression the precedence table produces. */
  predicate Structured(e: Expr)
    decreases e
  {
    match e
    case If(c, t, f) => Canonical(c) && AllStructured(t) && AllStructured(f)
    case While(c, body) => Canonical(c) && AllStructured(body)
    case _ => Canonical(e)
  }

  predicate AllStructured(es: Exprs)
    decreases es
  {
    es.Snoc? ==> AllStructured(es.init) && Structured(es.last)
  }

  /** What the printed text has to be: printable, with names for variables. */
  predicate Ready(e: Expr) {
    Structured(e) && Printable(e) && AllNames(Words(e))
  }

  predicate AllReady(es: Exprs) {
    AllStructured(es) && AllPrintable(es) && AllNames(WordsStmts(es))
  }

  predicate Compares(e: Expr)
    decreases e
  {
    match e
    case If(c, t, f) => HasEqual(c) || AnyCompares(t) || AnyCompares(f)
    case While(c, body) => HasEqual(c) || AnyCompares(body)
    case _ => HasEqual(e)
  }

  predicate AnyCompares(es: Exprs)
    decreases es
  {
    es.Snoc? && (AnyCompares(es.init) || Compares(es.last))
  }

  /** An expression that is printed as what it is. */
  predicate Plain(e: Expr) {
    Canonical(e) && Printable(e) && AllNames(Words(e)) && !HasEqual(e)
  }

  lemma LoopParts(e: Expr)
    requires e.While? && Ready(e) && !Compares(e)
    ensures Plain(e.cond) && AllReady(e.body) && !AnyCompares(e.body)
  {
  }

  lemma BranchParts(e: Expr)
    requires e.If? && Ready(e) && !Compares(e)
    ensures Plain(e.cond) && AllReady(e.thn) && !AnyCompares(e.thn) && AllReady(e.els) && !AnyCompares(e.els)
  {
  }

  predicate ExprText(w: string) {
    forall i :: 0 <= i < |w| ==> IsExprChar(w[i])
  }

  lemma {:induction false} PrintedChars(e: Expr)
    requires Canonical(e) && Printable(e) && AllNames(Words(e))
    ensures ExprText(Print(e))
  {
    hide IsName;
    match e
    case Number(n) => DecimalDigits(n);
    case Var(x) => NameChars(x);
    case Bin(_, l, r) => PrintedChars(l); PrintedChars(r);
    case Neg(a) => PrintedChars(a);
    case Assign(x, a) => NameChars(x); PrintedChars(a);
    case _ =>
  }

  lemma NameChars(x: string)
    requires IsName(x)
    ensures ExprText(x)
  {
  }

  /** An expression without `==` in front of a mark is read as itself, after at most a space. */
  lemma ExprReads(e: Expr, space: string, mark: string, r: string)
    requires Plain(e)
    requires space in ["", " "] && mark != "" && !IsExprChar(mark[0])
    ensures ReadExpr(Print(e) + (space + (mark + r)), mark) == Got(e, r)
  {
    hide ReadExpr, IsExprChar, Canonical, HasEqual, Printable, Words, AllNames, Parse, Lex, Print, Tokens, Yield;
    PrintedChars(e);
    SpaceIsExprChar();
    Regroup(Print(e), space, mark + r);
    LexSpaced(e, space);
    CanonicalIsArith(e);
    EqualTokens(e);
    ParseInverse(Tokens(e), e);
    ReadUpTo(Print(e) + space, mark, e, r);
  }

  lemma ReadUpTo(w: string, mark: string, e: Expr, r: string)
    requires ExprText(w) && mark != "" && !IsExprChar(mark[0])
    requires EqTok !in Lex(w) && Parse(Lex(w)) == Some(e)
    ensures ReadExpr(w + (mark + r), mark) == Got(e, r)
  {
    hide IsExprChar, Lex, Parse;
    var t := w + (mark + r);
    assert (mark + r)[0] == mark[0];
    RunConcat(w, mark + r, IsExprChar);
    Behind(w, mark + r);
    Behind(mark, r);
    assert t[..|w|] == w;
    assert t[|w| + |mark|..] == t[|w|..][|mark|..];
  }

  lemma Behind(w: string, r: string)
    ensures w <= w + r && (w + r)[|w|..] == r
  {
  }

  lemma SpaceIsExprChar()
    ensures IsExprChar(' ')
  {
  }

  lemma LexSpaced(e: Expr, space: string)
    requires Canonical(e) && Printable(e) && AllNames(Words(e)) && space in ["", " "]
    ensures Lex(Print(e) + space) == Tokens(e)
  {
    hide Lex, Canonical, Printable, Words, AllNames, Print, Tokens;
    CanonicalIsArith(e);
    LexPrint(e, space);
    LexEmpty();
    if space == " " {
      assert [' '] + "" == " ";
      LexAlone(' ', "");
    }
  }

  // One command at a time.

  lemma ReadOne(t: string, before: Commands, c: Command, r: string)
    requires ReadCommand(t) == Got(c, r)
    ensures ReadCommands("  " + t, before) == ReadCommands(r, Then(before, c))
  {
    hide ReadCommand;
    assert ("  " + t)[2..] == t;
  }

  lemma ReadNone(w: string, r: string, before: Commands)
    requires w != "" && w[0] != ' '
    ensures ReadCommands(w + r, before) == (before, w + r)
  {
    assert (w + r)[0] == w[0];
  }

  lemma ReadEvaluate(w: string, e: Expr, r: string)
    requires ExprText(w) && ReadExpr(w + (";\n" + r), ";\n") == Got(e, r)
    ensures ReadCommand(w + (";\n" + r)) == Got(Evaluate(e), r)
  {
    hide ReadExpr;
    NoControl(w, r);
  }

  /** What is printed of an expression begins like no control command. */
  lemma NoControl(w: string, r: string)
    requires ExprText(w)
    ensures var t := w + (";\n" + r);
            !("IF " <= t) && !("  LOOP\n" <= t) && !("  EXIT WHEN NOT (" <= t)
  {
    var t := w + (";\n" + r);
    assert |w| > 0 ==> t[0] == w[0];
    assert |w| > 2 ==> t[2] == w[2];
    assert t[|w|] == ';';
  }

  lemma ReadExit(t: string, e: Expr, r: string)
    requires ReadExpr(t, ");\n") == Got(e, r)
    ensures ReadCommand("  EXIT WHEN NOT (" + t) == Got(ExitWhenNot(e), r)
  {
    hide ReadExpr;
    var u := "  EXIT WHEN NOT (" + t;
    assert u[0] == ' ' && u[2] == 'E';
    Behind("  EXIT WHEN NOT (", t);
  }

  lemma ReadLoop(t: string, body: Commands, r: string)
    requires ReadCommands(t, Empty) == (body, "END LOOP;\n" + r)
    ensures ReadCommand("  LOOP\n" + t) == Got(Loop(body), r)
  {
    hide ReadCommands;
    Behind("  LOOP\n", t);
    assert ("  LOOP\n" + t)[0] == ' ';
    Behind("END LOOP;\n", r);
  }

  lemma ReadIf(t: string, e: Expr, t1: string, thn: Commands, t2: string, els: Commands, r: string)
    requires ReadExpr(t, "THEN\n") == Got(e, t1) && ReadCommands(t1, Empty) == (thn, t2)
    requires (if "ELSE\n" <= t2 then ReadCommands(t2[5..], Empty) else (Empty, t2)) == (els, "END IF;\n" + r)
    ensures ReadCommand("IF " + t) == Got(Branch(e, thn, els), r)
  {
    hide ReadCommands, ReadExpr;
    Behind("IF ", t);
    Behind("END IF;\n", r);
  }

  lemma {:induction false} CommandReads(e: Expr, r: string)
    requires Ready(e) && !Compares(e)
    ensures ReadCommand(Print(e) + (";\n" + r)) == Got(CommandOf(e), r)
    decreases e
  {
    hide ReadCommand;
    if e.If? {
      BranchReads(e, r);
    } else if e.While? {
      LoopReads(e, r);
    } else {
      assert Plain(e);
      PlainReads(e, r);
    }
  }

  lemma PlainReads(e: Expr, r: string)
    requires Plain(e)
    ensures ReadCommand(Print(e) + (";\n" + r)) == Got(Evaluate(e), r)
  {
    hide Canonical, Words, AllNames, Print, HasEqual, ExprText, ReadExpr, ReadCommand;
    PrintedChars(e);
    ExprReads(e, "", ";\n", r);
    assert "" + (";\n" + r) == ";\n" + r;
    ReadEvaluate(Print(e), e, r);
  }

  lemma {:induction false} LoopReads(e: Expr, r: string)
    requires e.While? && Ready(e) && !Compares(e)
    ensures ReadCommand(Print(e) + (";\n" + r)) == Got(CommandOf(e), r)
    decreases e, 0
  {
    LoopParts(e);
    hide Ready, AllReady, Compares, Structured, Plain, AnyCompares, Print, PrintStmts, ReadCommand, ReadCommands,
         CommandsOf;
    var close := "END LOOP" + (";\n" + r);
    var body := PrintStmts(e.body) + close;
    var start := Then(Empty, ExitWhenNot(e.cond));
    var exit := "  EXIT WHEN NOT (" + (Print(e.cond) + (");\n" + body));
    WhileText(e, ";\n" + r);
    LoopOpens(Print(e.cond) + (");\n" + body));
    LoopCloses(r);
    ExitReads(e.cond, body);
    ReadOne(exit, Empty, ExitWhenNot(e.cond), body);
    CommandsRead(start, e.body, close);
    ReadNone("END LOOP;\n", r, CommandsOf(start, e.body));
    ReadLoop("  " + exit, CommandsOf(start, e.body), r);
  }

  lemma LoopOpens(t: string)
    ensures "  LOOP\n    EXIT WHEN NOT (" + t == "  LOOP\n" + ("  " + ("  EXIT WHEN NOT (" + t))
  {
    assert "  LOOP\n    EXIT WHEN NOT (" == "  LOOP\n" + ("  " + "  EXIT WHEN NOT (");
    Regroup("  LOOP\n", "  " + "  EXIT WHEN NOT (", t);
    Regroup("  ", "  EXIT WHEN NOT (", t);
  }

  lemma LoopCloses(r: string)
    ensures "END LOOP" + (";\n" + r) == "END LOOP;\n" + r
  {
    assert "END LOOP" + ";\n" == "END LOOP;\n";
    Regroup("END LOOP", ";\n", r);
  }

  lemma ExitReads(c: Expr, r: string)
    requires Plain(c)
    ensures ReadCommand("  EXIT WHEN NOT (" + (Print(c) + (");\n" + r))) == Got(ExitWhenNot(c), r)
  {
    hide Canonical, Words, AllNames, HasEqual, Print, ReadExpr, ReadCommand;
    ExprReads(c, "", ");\n", r);
    assert "" + (");\n" + r) == ");\n" + r;
    ReadExit(Print(c) + (");\n" + r), c, r);
  }

  lemma {:induction false} BranchReads(e: Expr, r: string)
    requires e.If? && Ready(e) && !Compares(e)
    ensures ReadCommand(Print(e) + (";\n" + r)) == Got(CommandOf(e), r)
    decreases e, 0
  {
    BranchParts(e);
    hide Ready, AllReady, Compares, Structured, Plain, AnyCompares, Print, PrintStmts, ReadExpr, ReadCommand,
         ReadCommands, CommandsOf, TestText, ElseText;
    var close := "END IF" + (";\n" + r);
    var els := ElseText(e.els) + close;
    var thn := PrintStmts(e.thn) + els;
    IfText(e, ";\n" + r);
    assert close == "END IF;\n" + r;
    TestReads(e.cond, thn);
    CommandsRead(Empty, e.thn, els);
    ElseReads(e.els, CommandsOf(Empty, e.thn), r);
    ReadIf(Print(e.cond) + (TestText(e.cond) + thn), e.cond, thn, CommandsOf(Empty, e.thn), els,
           CommandsOf(Empty, e.els), r);
  }

  lemma TestReads(c: Expr, r: string)
    requires Plain(c)
    ensures ReadExpr(Print(c) + (TestText(c) + r), "THEN\n") == Got(c, r)
  {
    hide Canonical, Printable, Words, AllNames, HasEqual, Print, ReadExpr;
    CanonicalIsArith(c);
    ArithTyped(c);
    assert TestText(c) + r == " " + ("THEN\n" + r);
    ExprReads(c, " ", "THEN\n", r);
  }

  lemma {:induction false} ArithTyped(e: Expr)
    requires Arith(e)
    ensures Typed(e)
  {
    match e
    case Bin(_, l, _) => ArithTyped(l);
    case Neg(a) => ArithTyped(a);
    case _ =>
  }

  /** The commands before an ELSE or END IF end there; the others follow the ELSE. */
  lemma {:induction false} ElseReads(f: Exprs, before: Commands, r: string)
    requires AllReady(f) && !AnyCompares(f)
    ensures var t := ElseText(f) + ("END IF;\n" + r);
            && ReadCommands(t, before) == (before, t)
            && (if "ELSE\n" <= t then ReadCommands(t[5..], Empty) else (Empty, t)) ==
               (CommandsOf(Empty, f), "END IF;\n" + r)
    decreases f, 1
  {
    hide PrintStmts, AnyCompares, ReadCommands;
    var close := "END IF;\n" + r;
    if f.Nil? {
      assert "" + close == close && close[1] == 'N';
      ReadNone("END IF;\n", r, before);
    } else {
      hide CommandsOf;
      Regroup("ELSE\n", PrintStmts(f), close);
      ReadNone("ELSE\n", PrintStmts(f) + close, before);
      Behind("ELSE\n", PrintStmts(f) + close);
      CommandsRead(Empty, f, close);
      ReadNone("END IF;\n", r, CommandsOf(Empty, f));
    }
  }

  lemma {:induction false} CommandsRead(before: Commands, es: Exprs, r: string)
    requires AllReady(es) && !AnyCompares(es)
    ensures ReadCommands(PrintStmts(es) + r, before) == ReadCommands(r, CommandsOf(before, es))
    decreases es, 0
  {
    hide ReadCommands, Print, Structured, Compares, Printable, AllNames, CommandOf;
    if es.Nil? {
      assert "" + r == r;
    } else {
      StmtsText(es, r);
      hide PrintStmts;
      NamesSplit(es);
      var t := Print(es.last) + (";\n" + r);
      CommandsRead(before, es.init, "  " + t);
      CommandReads(es.last, r);
      ReadOne(t, CommandsOf(before, es.init), CommandOf(es.last), r);
    }
  }

  lemma NamesSplit(es: Exprs)
    requires es.Snoc? && AllNames(WordsStmts(es))
    ensures AllNames(WordsStmts(es.init)) && AllNames(Words(es.last))
  {
  }

  // ----- `==` is never read -----

  predicate Clean(c: Command)
    decreases c
  {
    match c
    case Evaluate(e) => !HasEqual(e)
    case Branch(e, t, f) => !HasEqual(e) && AllClean(t) && AllClean(f)
    case Loop(body) => AllClean(body)
    case ExitWhenNot(e) => !HasEqual(e)
  }

  predicate AllClean(cs: Commands)
    decreases cs
  {
    cs.Then? ==> AllClean(cs.init) && Clean(cs.last)
  }

  lemma {:induction false} EqualShows(e: Expr)
    requires HasEqual(e)
    ensures EqTok in Yield(e)
  {
    match e
    case Bin(op, l, r) =>
      if HasEqual(l) { EqualShows(l); } else if HasEqual(r) { EqualShows(r); }
    case Neg(a) => EqualShows(a);
    case Assign(_, a) => EqualShows(a);
    case _ =>
  }

  lemma ExprClean(t: string, mark: string)
    ensures var r := ReadExpr(t, mark); r.Got? ==> !HasEqual(r.v)
  {
    hide Lex, Parse, HasEqual, Yield, Canonical;
    var r := ReadExpr(t, mark);
    if r.Got? {
      ParseInverse(Lex(t[..Run(t, IsExprChar)]), r.v);
      if HasEqual(r.v) { EqualShows(r.v); }
    }
  }

  lemma {:induction false} CommandClean(t: string)
    ensures var r := ReadCommand(t); r.Got? ==> Clean(r.v)
    decreases |t|, 1
  {
    hide ReadExpr, ReadCommands, HasEqual;
    if "IF " <= t {
      BranchClean(t);
    } else if "  LOOP\n" <= t {
      CommandsClean(t[7..], Empty);
    } else if "  EXIT WHEN NOT (" <= t {
      ExprClean(t[17..], ");\n");
    } else {
      ExprClean(t, ";\n");
    }
  }

  lemma {:induction false} BranchClean(t: string)
    requires "IF " <= t
    ensures var r := ReadBranch(t); r.Got? ==> Clean(r.v)
    decreases |t|, 0
  {
    hide ReadExpr, ReadCommands, HasEqual;
    ExprClean(t[3..], "THEN\n");
    var c := ReadExpr(t[3..], "THEN\n");
    if c.Got? {
      CommandsClean(c.rest, Empty);
      var rest := ReadCommands(c.rest, Empty).1;
      if "ELSE\n" <= rest { CommandsClean(rest[5..], Empty); }
    }
  }

  lemma {:induction false} CommandsClean(t: string, before: Commands)
    requires AllClean(before)
    ensures AllClean(ReadCommands(t, before).0)
    decreases |t|
  {
    hide ReadCommand, Clean;
    if "  " <= t && ReadCommand(t[2..]).Got? {
      CommandClean(t[2..]);
      var c := ReadCommand(t[2..]);
      CommandsClean(c.rest, Then(before, c.v));
    }
  }

  lemma {:induction false} ComparesShows(e: Expr)
    requires Compares(e)
    ensures !Clean(CommandOf(e))
    decreases e
  {
    hide HasEqual;
    match e
    case If(c, t, f) =>
      if AnyCompares(t) { AnyShows(Empty, t); }
      if AnyCompares(f) { AnyShows(Empty, f); }
    case While(c, body) => WhileShows(e);
    case _ =>
  }

  lemma {:induction false} WhileShows(e: Expr)
    requires e.While? && Compares(e)
    ensures !Clean(CommandOf(e))
    decreases e, 0
  {
    hide HasEqual;
    var start := Then(Empty, ExitWhenNot(e.cond));
    if AnyCompares(e.body) {
      AnyShows(start, e.body);
    } else {
      assert !Clean(start.last);
      StartShows(start, e.body);
    }
  }

  lemma {:induction false} StartShows(before: Commands, es: Exprs)
    requires !AllClean(before)
    ensures !AllClean(CommandsOf(before, es))
  {
    if es.Snoc? { StartShows(before, es.init); }
  }

  lemma {:induction false} AnyShows(before: Commands, es: Exprs)
    requires AnyCompares(es)
    ensures !AllClean(CommandsOf(before, es))
    decreases es
  {
    if AnyCompares(es.init) { AnyShows(before, es.init); } else { ComparesShows(es.last); }
  }

  // ----- the agreement -----

  /** The printed statements of a block are read back as its own commands exactly when it has no `==`. */
  lemma BodyReads(root: Exprs)
    requires AllReady(root)
    ensures ReadBody(PrintStmts(root)) == Some(CommandsOf(Empty, root)) <==> !AnyCompares(root)
  {
    hide AnyCompares, AllClean, CommandsOf, PrintStmts;
    var text := PrintStmts(root);
    if AnyCompares(root) {
      AnyShows(Empty, root);
      assert AllClean(Empty) by { NothingClean(); }
      CommandsClean(text, Empty);
    } else {
      CommandsRead(Empty, root, "");
      assert text + "" == text;
    }
  }

  lemma NothingClean()
    ensures AllClean(Empty)
  {
  }

  /** The text of a block without `==`, read as commands, does to variables and store what the block's
      statements do, and stops where they stop. */
  lemma TextMeansBlock(root: Exprs, p: Program, k: nat, env: Env, mem: Mem)
    requires AllReady(root) && !AnyCompares(root)
    ensures ReadBody(PrintStmts(root)).Some?
    ensures ExecuteAll(p, k, ReadBody(PrintStmts(root)).value, env, mem) ==
            FromOutcome(EvalStmts(p, k, root, env, mem))
  {
    hide AllReady, AnyCompares, CommandsOf, PrintStmts, ReadBody;
    BodyReads(root);
    CommandsAgree(p, k, Empty, root, env, mem);
    assert ExecuteAll(p, k, Empty, env, mem) == Goes(env, mem);
  }
}
