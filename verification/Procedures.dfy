/** Generating the procedure behind a database block: which variables it takes as parameters, which it
    declares itself, and the text in between. */
module Procedures {
  import opened Values
  import opened Bytecode
  import opened Source
  import opened Codegen
  import opened Grammar
  import opened Printer
  import opened CompilerPass

  // ----- identifiers of a block, parents before children -----

  /** Every identifier node counts, a called function's name included. */
  function Idents(e: Expr): seq<string> {
    match e
    case Number(_) => []
    case Text(_) => []
    case Var(x) => [x]
    case Bin(_, l, r) => Idents(l) + Idents(r)
    case Neg(a) => Idents(a)
    case Assign(x, a) => [x] + Idents(a)
    case Index(x, i) => [x] + Idents(i)
    case IndexAssign(x, i, a) => [x] + Idents(i) + Idents(a)
    case Array(es) => IdentsAll(es)
    case Call(f, args) => [f] + IdentsAll(args)
    case If(c, t, f) => Idents(c) + IdentsAll(t) + IdentsAll(f)
    case While(c, body) => Idents(c) + IdentsAll(body)
    case Return(a) => Idents(a)
  }

  function IdentsAll(es: Exprs): seq<string> {
    if es.Nil? then [] else IdentsAll(es.init) + Idents(es.last)
  }

  /** The names of `ids` that resolve in `table` and are not in `skip`, added to `acc` without repetition. */
  function Pick(acc: seq<string>, ids: seq<string>, table: seq<string>, skip: seq<string>): seq<string>
    decreases |ids|
  {
    if ids == [] then acc
    else Pick(if ids[0] in table && ids[0] !in skip then Add(acc, ids[0]) else acc, ids[1..], table, skip)
  }

  function External(root: Exprs, locals: seq<string>): seq<string> {
    Pick([], IdentsAll(root), locals, [])
  }

  /** Computed after the text, which allocates the names it mentions. */
  function Internal(root: Exprs, locals: seq<string>): seq<string> {
    Pick([], IdentsAll(root), AddAll(locals, WordsStmts(root)), External(root, locals))
  }

  lemma {:induction false} PickConcat(acc: seq<string>, a: seq<string>, b: seq<string>, table: seq<string>,
                                      skip: seq<string>)
    ensures Pick(acc, a + b, table, skip) == Pick(Pick(acc, a, table, skip), b, table, skip)
    decreases |a|
  {
    if a == [] {
      assert a + b == b;
    } else {
      assert (a + b)[0] == a[0] && (a + b)[1..] == a[1..] + b;
      var acc' := if a[0] in table && a[0] !in skip then Add(acc, a[0]) else acc;
      PickConcat(acc', a[1..], b, table, skip);
    }
  }

  lemma {:induction false} PickMembers(acc: seq<string>, ids: seq<string>, table: seq<string>, skip: seq<string>)
    requires Distinct(acc)
    ensures Distinct(Pick(acc, ids, table, skip))
    ensures forall x :: x in Pick(acc, ids, table, skip) <==> x in acc || (x in ids && x in table && x !in skip)
    decreases |ids|
  {
    if ids != [] {
      var x := ids[0];
      assert ids == [x] + ids[1..];
      var acc' := if x in table && x !in skip then Add(acc, x) else acc;
      PickMembers(acc', ids[1..], table, skip);
    }
  }

  /** The picked names stand in the order in which they first occur: some first stretch of the identifiers
      has the earlier one and not the later one. */
  lemma {:induction false} PickedInOrder(ids: seq<string>, table: seq<string>, skip: seq<string>, i: nat, j: nat)
    requires i < j < |Pick([], ids, table, skip)|
    ensures var picked := Pick([], ids, table, skip);
            exists n :: 0 <= n <= |ids| && picked[i] in ids[..n] && picked[j] !in ids[..n]
    decreases |ids|
  {
    hide Pick;
    var m := |ids| - 1;
    PickLast(ids, table, skip);
    var before := ids[..m];
    PickMembers([], before, table, skip);
    if j < |Pick([], before, table, skip)| {
      PickedInOrder(before, table, skip, i, j);
      var n :| 0 <= n <= m && Pick([], before, table, skip)[i] in before[..n]
               && Pick([], before, table, skip)[j] !in before[..n];
      assert before[..n] == ids[..n];
    } else {
      assert ids[..m] == before;
    }
  }

  lemma PickLast(ids: seq<string>, table: seq<string>, skip: seq<string>)
    ensures ids == [] ==> Pick([], ids, table, skip) == []
    ensures ids != [] ==>
              var m := |ids| - 1;
              var before := Pick([], ids[..m], table, skip);
              Pick([], ids, table, skip) ==
              if ids[m] in table && ids[m] !in skip then Add(before, ids[m]) else before
  {
    if ids != [] {
      var m := |ids| - 1;
      assert ids == ids[..m] + [ids[m]];
      PickConcat([], ids[..m], [ids[m]], table, skip);
      assert [ids[m]][1..] == [];
    }
  }

  lemma {:induction false} AddAllMembers(xs: seq<string>, ys: seq<string>)
    ensures forall x :: x in AddAll(xs, ys) <==> x in xs || x in ys
    ensures Distinct(xs) ==> Distinct(AddAll(xs, ys))
    decreases |ys|
  {
    if ys != [] {
      assert ys == [ys[0]] + ys[1..];
      AddAllMembers(Add(xs, ys[0]), ys[1..]);
    }
  }

  lemma {:induction false} WordsAreIdents(e: Expr, x: string)
    requires x in Words(e)
    ensures x in Idents(e)
  {
    match e
    case Bin(_, l, r) => if x in Words(l) { WordsAreIdents(l, x); } else { WordsAreIdents(r, x); }
    case Neg(a) => WordsAreIdents(a, x);
    case Assign(y, a) => if x != y { WordsAreIdents(a, x); }
    case If(c, t, f) =>
      if x in Words(c) { WordsAreIdents(c, x); }
      else if x in WordsStmts(t) { WordsAreIdentsAll(t, x); }
      else { WordsAreIdentsAll(f, x); }
    case While(c, body) => if x in Words(c) { WordsAreIdents(c, x); } else { WordsAreIdentsAll(body, x); }
    case _ =>
  }

  lemma {:induction false} WordsAreIdentsAll(es: Exprs, x: string)
    requires x in WordsStmts(es)
    ensures x in IdentsAll(es)
  {
    if x in WordsStmts(es.init) { WordsAreIdentsAll(es.init, x); } else { WordsAreIdents(es.last, x); }
  }

  /** The procedure's text, all of whose own variables are numeric. */
  function Declaration(x: string): string {
    "  " + x + " " + "int" + ";\n"
  }

  function Declarations(own: seq<string>): string {
    if own == [] then "" else Declarations(own[..|own| - 1]) + Declaration(own[|own| - 1])
  }

  function Procedure(own: seq<string>, body: string): string {
    "DECLARE\n" + Declarations(own) + "BEGIN\n" + body + "END;"
  }

  /** The words of the declarations: each name, and the type behind it. */
  function DeclarationWords(own: seq<string>): seq<string> {
    if own == [] then [] else DeclarationWords(own[..|own| - 1]) + [own[|own| - 1], "int"]
  }

  lemma DeclarationNames(x: string, r: string)
    requires IsName(x)
    ensures NamesIn(Declaration(x) + r) == [x, "int"] + NamesIn(r)
  {
    hide NamesIn;
    assert Declaration(x) + r == "  " + (x + (" " + ("int" + (";\n" + r))));
    hide Declaration;
    NoNames("  ", x + (" " + ("int" + (";\n" + r))));
    NameFirst(x, " " + ("int" + (";\n" + r)));
    NoNames(" ", "int" + (";\n" + r));
    NameFirst("int", ";\n" + r);
    NoNames(";\n", r);
  }

  lemma {:induction false} DeclarationsNames(own: seq<string>, r: string)
    requires AllNames(own)
    ensures NamesIn(Declarations(own) + r) == DeclarationWords(own) + NamesIn(r)
    decreases |own|
  {
    hide NamesIn, IsName, Declaration;
    if own == [] {
      assert "" + r == r;
    } else {
      var n := |own| - 1;
      Regroup(Declarations(own[..n]), Declaration(own[n]), r);
      DeclarationsNames(own[..n], Declaration(own[n]) + r);
      DeclarationNames(own[n], r);
    }
  }

  /** The names in the whole text, in order: the declared names with their types, then the body's. */
  lemma ProcedureNames(own: seq<string>, root: Exprs)
    requires AllNames(own) && AllPrintable(root) && AllNames(WordsStmts(root))
    ensures NamesIn(Procedure(own, PrintStmts(root))) == DeclarationWords(own) + WordsStmts(root)
  {
    hide NamesIn, IsName, Declarations, PrintStmts, WordsStmts;
    var decls, body := Declarations(own), PrintStmts(root);
    Regroup5("DECLARE\n", decls, "BEGIN\n", body, "END;", "");
    Regroup("DECLARE\n" + decls + "BEGIN\n" + body, "END;", "");
    assert "END;" + "" == "END;";
    NoNames("DECLARE\n", decls + ("BEGIN\n" + (body + ("END;" + ""))));
    DeclarationsNames(own, "BEGIN\n" + (body + ("END;" + "")));
    NoNames("BEGIN\n", body + ("END;" + ""));
    PrintedStmts(root, "END;" + "");
    NoNames("END;", "");
    EmptyNames();
  }

  lemma EmptyNames()
    ensures NamesIn("") == []
  {
    LexEmpty();
  }

  lemma {:induction false} DeclaredWords(own: seq<string>, x: string)
    requires x in DeclarationWords(own)
    ensures x in own || x == "int"
    decreases |own|
  {
    if own != [] && x in DeclarationWords(own[..|own| - 1]) {
      DeclaredWords(own[..|own| - 1], x);
    }
  }

  /** The two lists are free of duplicates and of each other; together they are exactly the block's
      identifiers that resolve once the text has been generated; what the block adds to the variable
      table is exactly what its procedure declares; every name in the procedure's body is a parameter or
      declared, and so is every name in its whole text but the type word. */
  lemma Closed(root: Exprs, locals: seq<string>)
    ensures var ext, own := External(root, locals), Internal(root, locals);
            var after := AddAll(locals, WordsStmts(root));
            && Distinct(ext) && Distinct(own)
            && (forall x :: x in ext <==> x in IdentsAll(root) && x in locals)
            && (forall x :: x in own <==> x in after && x !in locals)
            && (forall x :: x in ext || x in own <==> x in IdentsAll(root) && x in after)
            && (forall x :: x in ext ==> x !in own)
    ensures AllPrintable(root) && AllNames(WordsStmts(root)) ==>
              forall x :: x in NamesIn(PrintStmts(root)) ==> x in External(root, locals) || x in Internal(root, locals)
    ensures AllPrintable(root) && AllNames(WordsStmts(root)) ==>
              forall x :: x in NamesIn(Procedure(Internal(root, locals), PrintStmts(root))) ==>
                x in External(root, locals) || x in Internal(root, locals) || x == "int"
  {
    var ids, words := IdentsAll(root), WordsStmts(root);
    var ext := External(root, locals);
    PickMembers([], ids, locals, []);
    PickMembers([], ids, AddAll(locals, words), ext);
    AddAllMembers(locals, words);
    forall x | x in words ensures x in ids {
      WordsAreIdentsAll(root, x);
    }
    hide NamesIn, Pick, Procedure;
    if AllPrintable(root) && AllNames(words) {
      BodyNames(root);
      var own := Internal(root, locals);
      ProcedureNames(own, root);
      forall x | x in NamesIn(Procedure(own, PrintStmts(root))) ensures x in ext || x in own || x == "int" {
        if x in DeclarationWords(own) { DeclaredWords(own, x); }
      }
    }
  }

  lemma BodyNames(root: Exprs)
    requires AllPrintable(root) && AllNames(WordsStmts(root))
    ensures NamesIn(PrintStmts(root)) == WordsStmts(root)
  {
    hide Lex;
    PrintedStmts(root, "");
    EmptyNames();
    assert PrintStmts(root) + "" == PrintStmts(root);
  }

  // ----- the generator -----

  /** A growing text buffer. */
  class Str {
    var buf: string

    constructor (s: string)
      ensures buf == s
    {
      buf := s;
    }

    method AddCstr(s: string)
      modifies this
      ensures buf == old(buf) + s
    {
      buf := buf + s;
    }

    method AddStr(s: Str)
      modifies this
      ensures buf == old(buf) + old(s.buf)
    {
      buf := buf + s.buf;
    }
  }

  /** The two lists of a block; the variable table is the compiler's. */
  class Block {
    const c: Compiler
    var extvars: seq<string>
    var intvars: seq<string>

    constructor (c: Compiler)
      ensures this.c == c && extvars == [] && intvars == []
    {
      this.c, extvars, intvars := c, [], [];
    }

    /** `addextvar`: a linear search, then an append. */
    method AddExtVar(x: string)
      modifies this`extvars
      ensures extvars == Add(old(extvars), x)
    {
      for i := 0 to |extvars|
        invariant extvars == old(extvars) && x !in extvars[..i]
      {
        if extvars[i] == x {
          return;
        }
      }
      extvars := extvars + [x];
    }

    /** `addintvar`. */
    method AddIntVar(x: string)
      modifies this`intvars
      ensures intvars == Add(old(intvars), x)
    {
      for i := 0 to |intvars|
        invariant intvars == old(intvars) && x !in intvars[..i]
      {
        if intvars[i] == x {
          return;
        }
      }
      intvars := intvars + [x];
    }

    /** An identifier node in the first walk. */
    method SeeExt(x: string)
      requires c.Valid()
      modifies this`extvars
      ensures extvars == Pick(old(extvars), [x], c.locals, [])
    {
      var v := c.VarLookup(x);
      if v >= 0 {
        AddExtVar(x);
      }
      assert [x][1..] == [];
    }

    /** An identifier node in the second walk. */
    method SeeInt(x: string)
      requires c.Valid()
      modifies this`intvars
      ensures intvars == Pick(old(intvars), [x], c.locals, extvars)
    {
      assert [x][1..] == [];
      var v := c.VarLookup(x);
      var found := false;
      var i := 0;
      while v >= 0 && i < |extvars| && !found
        invariant i <= |extvars| && (found ==> x in extvars) && (!found ==> x !in extvars[..i])
        decreases |extvars| - i, !found
      {
        if extvars[i] == x {
          found := true;
        }
        i := i + 1;
      }
      if !found && v >= 0 {
        AddIntVar(x);
      }
    }

    /** `dblock_identify_ext_variables`. */
    method IdentifyExt(e: Expr)
      requires c.Valid()
      modifies this`extvars
      ensures extvars == Pick(old(extvars), Idents(e), c.locals, [])
      decreases e
    {
      hide Pick, c.Valid;
      ghost var acc := extvars;
      match e
      case Number(_) => PickNone(acc, c.locals, []);
      case Text(_) => PickNone(acc, c.locals, []);
      case Var(x) => SeeExt(x);
      case Bin(_, l, r) => IdentifyExt(l); IdentifyExt(r); PickConcat(acc, Idents(l), Idents(r), c.locals, []);
      case Neg(a) => IdentifyExt(a);
      case Assign(x, a) => SeeExt(x); IdentifyExt(a); PickConcat(acc, [x], Idents(a), c.locals, []);
      case Index(x, i) => SeeExt(x); IdentifyExt(i); PickConcat(acc, [x], Idents(i), c.locals, []);
      case IndexAssign(x, i, a) =>
        SeeExt(x);
        IdentifyExt(i);
        IdentifyExt(a);
        PickConcat(acc, [x], Idents(i), c.locals, []);
        PickConcat(acc, [x] + Idents(i), Idents(a), c.locals, []);
      case Array(es) => IdentifyExtAll(es);
      case Call(f, args) => SeeExt(f); IdentifyExtAll(args); PickConcat(acc, [f], IdentsAll(args), c.locals, []);
      case If(cond, t, f) =>
        IdentifyExt(cond);
        IdentifyExtAll(t);
        IdentifyExtAll(f);
        PickConcat(acc, Idents(cond), IdentsAll(t), c.locals, []);
        PickConcat(acc, Idents(cond) + IdentsAll(t), IdentsAll(f), c.locals, []);
      case While(cond, body) =>
        IdentifyExt(cond);
        IdentifyExtAll(body);
        PickConcat(acc, Idents(cond), IdentsAll(body), c.locals, []);
      case Return(a) => IdentifyExt(a);
    }

    method IdentifyExtAll(es: Exprs)
      requires c.Valid()
      modifies this`extvars
      ensures extvars == Pick(old(extvars), IdentsAll(es), c.locals, [])
      decreases es
    {
      hide Pick, c.Valid;
      ghost var acc := extvars;
      if es.Nil? {
        PickNone(acc, c.locals, []);
      } else {
        IdentifyExtAll(es.init);
        IdentifyExt(es.last);
        PickConcat(acc, IdentsAll(es.init), Idents(es.last), c.locals, []);
      }
    }

    /** `dblock_identify_int_variables`. */
    method IdentifyInt(e: Expr)
      requires c.Valid()
      modifies this`intvars
      ensures intvars == Pick(old(intvars), Idents(e), c.locals, extvars)
      decreases e
    {
      hide Pick, c.Valid;
      ghost var acc := intvars;
      match e
      case Number(_) => PickNone(acc, c.locals, extvars);
      case Text(_) => PickNone(acc, c.locals, extvars);
      case Var(x) => SeeInt(x);
      case Bin(_, l, r) => IdentifyInt(l); IdentifyInt(r); PickConcat(acc, Idents(l), Idents(r), c.locals, extvars);
      case Neg(a) => IdentifyInt(a);
      case Assign(x, a) => SeeInt(x); IdentifyInt(a); PickConcat(acc, [x], Idents(a), c.locals, extvars);
      case Index(x, i) => SeeInt(x); IdentifyInt(i); PickConcat(acc, [x], Idents(i), c.locals, extvars);
      case IndexAssign(x, i, a) =>
        SeeInt(x);
        IdentifyInt(i);
        IdentifyInt(a);
        PickConcat(acc, [x], Idents(i), c.locals, extvars);
        PickConcat(acc, [x] + Idents(i), Idents(a), c.locals, extvars);
      case Array(es) => IdentifyIntAll(es);
      case Call(f, args) => SeeInt(f); IdentifyIntAll(args); PickConcat(acc, [f], IdentsAll(args), c.locals, extvars);
      case If(cond, t, f) =>
        IdentifyInt(cond);
        IdentifyIntAll(t);
        IdentifyIntAll(f);
        PickConcat(acc, Idents(cond), IdentsAll(t), c.locals, extvars);
        PickConcat(acc, Idents(cond) + IdentsAll(t), IdentsAll(f), c.locals, extvars);
      case While(cond, body) =>
        IdentifyInt(cond);
        IdentifyIntAll(body);
        PickConcat(acc, Idents(cond), IdentsAll(body), c.locals, extvars);
      case Return(a) => IdentifyInt(a);
    }

    method IdentifyIntAll(es: Exprs)
      requires c.Valid()
      modifies this`intvars
      ensures intvars == Pick(old(intvars), IdentsAll(es), c.locals, extvars)
      decreases es
    {
      hide Pick, c.Valid;
      ghost var acc := intvars;
      if es.Nil? {
        PickNone(acc, c.locals, extvars);
      } else {
        IdentifyIntAll(es.init);
        IdentifyInt(es.last);
        PickConcat(acc, IdentsAll(es.init), Idents(es.last), c.locals, extvars);
      }
    }

    /** `dblock_create_plpgsql`: the text of a node, in a buffer of its own; names get slots on the way. */
    method Create(e: Expr) returns (s: Str)
      requires c.Valid() && Printable(e)
      modifies c`locals
      ensures c.Valid() && fresh(s) && s.buf == Print(e) && c.locals == AddAll(old(c.locals), Words(e))
      decreases e
    {
      hide AddAll, c.Valid, PrintStmts, WordsStmts, AllPrintable, DigitsOf, Typed;
      ghost var l0 := c.locals;
      match e
      case Number(n) =>
        s := new Str(DigitsOf(n));
        AddNone(l0);
      case Var(x) =>
        s := new Str(x);
        var _ := c.VarGetOrAddLocal(x);
        AddOne(l0, x);
      case Bin(op, l, r) =>
        s := Create(l);
        var s2 := Create(r);
        s.AddCstr(OpText(op));
        s.AddStr(s2);
        AddAllConcat(l0, Words(l), Words(r));
      case Neg(a) =>
        s := new Str("");
        var s2 := Create(a);
        s.AddCstr(" - ");
        s.AddStr(s2);
      case Assign(x, a) =>
        s := new Str(x);
        var _ := c.VarGetOrAddLocal(x);
        AddOne(l0, x);
        var s2 := Create(a);
        AddAllConcat(l0, [x], Words(a));
        AlreadyThere(l0, x, Words(a));
        var _ := c.VarGetOrAddLocal(x);
        s.AddCstr(" = ");
        s.AddStr(s2);
      case If(cond, t, f) =>
        s := CreateIf(e);
      case While(cond, body) =>
        var s1 := Create(cond);
        var s2 := CreateStmts(body);
        s := new Str("  LOOP\n    EXIT WHEN NOT (");
        s.AddStr(s1);
        s.AddCstr(");\n");
        s.AddStr(s2);
        s.AddCstr("END LOOP");
        AddAllConcat(l0, Words(cond), WordsStmts(body));
    }

    method CreateIf(e: Expr) returns (s: Str)
      requires c.Valid() && e.If? && Printable(e)
      modifies c`locals
      ensures c.Valid() && fresh(s) && s.buf == Print(e) && c.locals == AddAll(old(c.locals), Words(e))
      decreases e, 0
    {
      hide AddAll, Print, PrintStmts, c.Valid;
      ghost var l0 := c.locals;
      IfBuffer(e);
      var s1 := Create(e.cond);
      var s2 := CreateStmts(e.thn);
      var s3 := CreateStmts(e.els);
      s := new Str("IF ");
      s.AddStr(s1);
      if !Typed(e.cond) {
        s.AddCstr(" IS NOT NULL");
      }
      s.AddCstr(" THEN\n");
      s.AddStr(s2);
      if !e.els.Nil? {
        s.AddCstr("ELSE\n");
        s.AddStr(s3);
      }
      s.AddCstr("END IF");
      AddAllConcat(l0, Words(e.cond), WordsStmts(e.thn));
      AddAllConcat(l0, Words(e.cond) + WordsStmts(e.thn), WordsStmts(e.els));
    }

    method CreateStmts(es: Exprs) returns (s: Str)
      requires c.Valid() && AllPrintable(es)
      modifies c`locals
      ensures c.Valid() && fresh(s) && s.buf == PrintStmts(es) && c.locals == AddAll(old(c.locals), WordsStmts(es))
      decreases es
    {
      hide AddAll, c.Valid;
      ghost var l0 := c.locals;
      if es.Nil? {
        s := new Str("");
        AddNone(l0);
      } else {
        s := CreateStmts(es.init);
        var s2 := Create(es.last);
        s.AddCstr("  ");
        s.AddStr(s2);
        s.AddCstr(";\n");
        AddAllConcat(l0, WordsStmts(es.init), Words(es.last));
      }
    }

    /** The declarations and the body put together. */
    method Assemble(body: Str) returns (text: string)
      ensures text == Procedure(intvars, body.buf)
    {
      var s := new Str("DECLARE\n");
      for i := 0 to |intvars|
        invariant fresh(s) && s.buf == "DECLARE\n" + Declarations(intvars[..i])
      {
        assert intvars[..i + 1][..i] == intvars[..i];
        s.AddCstr(Declaration(intvars[i]));
        LineAdded(intvars[..i + 1]);
      }
      assert intvars[..|intvars|] == intvars;
      s.AddCstr("BEGIN\n");
      s.AddStr(body);
      s.AddCstr("END;");
      text := s.buf;
    }

    /** All of `dblock_parse`: find the parameters, push them with their names, print the body, find the
        declarations, emit the text and the opcode, and store the results. */
    method DblockParse(root: Exprs, name: string)
      requires c.Valid() && AllPrintable(root)
      requires |c.locals| + |WordsStmts(root)| + |IdentsAll(root)| + |c.constants| + 2 <= INT_MAX
      modifies this`extvars, this`intvars, c`ops, c`code, c`constants, c`locals
      ensures c.Valid() && c.locals == AddAll(old(c.locals), WordsStmts(root))
      ensures extvars == External(root, old(c.locals)) && intvars == Internal(root, old(c.locals))
      ensures var text := Procedure(intvars, PrintStmts(root));
              && c.code == old(c.code) + BlockCode(extvars, name, text, c.T())
              && CoversNames(c.T(), extvars) && name in c.constants && text in c.constants
    {
      hide c.Valid, Pick, AddAll, Procedure, Printable, Encodable, Constant, PushVars, StoreVars, CoversNames;
      ghost var c0, l0 := c.code, c.locals;
      PickMembers([], IdentsAll(root), l0, []);
      Sizes([], IdentsAll(root), l0, []);
      AddAllSize(l0, WordsStmts(root));
      AddAllMembers(l0, WordsStmts(root));
      AddAllExtends(l0, WordsStmts(root));
      extvars, intvars := [], [];
      IdentifyExtAll(root);
      c.PushOuter(extvars);
      ghost var t1 := c.T();
      var _ := c.AddNum(|extvars|);
      AddExtends(c.constants, name);
      c.EmitConstant(name);
      ghost var t2 := c.T();
      var body := CreateStmts(root);
      IdentifyIntAll(root);
      var text := Assemble(body);
      AddExtends(c.constants, text);
      c.EmitConstant(text);
      var _ := c.AddOp(DBLOCK);
      PushVarsStable(extvars, t1, c.T());
      ConstantStable(name, t2, c.T());
      c.StoreOuter(extvars);
      BlockPatched(c0, extvars, name, text, c.T());
      AddedStays(t1.consts, name, t2.consts, c.constants);
      AddedStays(t2.consts, text, c.constants, c.constants);
    }
  }

  lemma AddedStays(xs: seq<string>, x: string, ys: seq<string>, zs: seq<string>)
    requires ys == Add(xs, x) && ys <= zs
    ensures x in zs
  {
    if x !in xs { assert zs[|xs|] == x; }
  }

  lemma IfBuffer(e: Expr)
    requires e.If? && Printable(e)
    ensures var test := "IF " + Print(e.cond);
            var head := (if Typed(e.cond) then test else test + " IS NOT NULL") + " THEN\n" + PrintStmts(e.thn);
            Print(e) == (if e.els.Nil? then head else head + "ELSE\n" + PrintStmts(e.els)) + "END IF"
  {
    var test := "IF " + Print(e.cond);
    var head := (if Typed(e.cond) then test else test + " IS NOT NULL") + " THEN\n" + PrintStmts(e.thn);
    assert test + "" == test && head + "" == head;
    if e.els.Snoc? {
      Regroup(head, "ELSE\n", PrintStmts(e.els));
    }
  }

  lemma LineAdded(own: seq<string>)
    requires own != []
    ensures var n := |own| - 1;
            "DECLARE\n" + Declarations(own[..n]) + Declaration(own[n]) == "DECLARE\n" + Declarations(own)
  {
    hide Declaration;
    Regroup("DECLARE\n", Declarations(own[..|own| - 1]), Declaration(own[|own| - 1]));
  }

  lemma PickNone(acc: seq<string>, table: seq<string>, skip: seq<string>)
    ensures Pick(acc, [], table, skip) == acc
  {
  }

  lemma AddNone(xs: seq<string>)
    ensures AddAll(xs, []) == xs
  {
  }

  lemma AddOne(xs: seq<string>, x: string)
    ensures AddAll(xs, [x]) == Add(xs, x)
  {
    assert [x][1..] == [];
  }

  lemma {:induction false} AddAllConcat(xs: seq<string>, a: seq<string>, b: seq<string>)
    ensures AddAll(xs, a + b) == AddAll(AddAll(xs, a), b)
    decreases |a|
  {
    if a == [] {
      assert a + b == b;
    } else {
      assert (a + b)[0] == a[0] && (a + b)[1..] == a[1..] + b;
      AddAllConcat(Add(xs, a[0]), a[1..], b);
    }
  }

  lemma AlreadyThere(xs: seq<string>, x: string, ys: seq<string>)
    ensures x in AddAll(xs, [x] + ys)
  {
    AddAllMembers(xs, [x] + ys);
  }

  lemma {:induction false} Sizes(acc: seq<string>, ids: seq<string>, table: seq<string>, skip: seq<string>)
    ensures |Pick(acc, ids, table, skip)| <= |acc| + |ids|
    decreases |ids|
  {
    if ids != [] {
      Sizes(if ids[0] in table && ids[0] !in skip then Add(acc, ids[0]) else acc, ids[1..], table, skip);
    }
  }

  lemma {:induction false} AddAllSize(xs: seq<string>, ys: seq<string>)
    ensures |AddAll(xs, ys)| <= |xs| + |ys|
    decreases |ys|
  {
    if ys != [] {
      AddAllSize(Add(xs, ys[0]), ys[1..]);
    }
  }
}
