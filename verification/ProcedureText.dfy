/** Reading a generated procedure back: its declarations, its body, and what the body does. */
module ProcedureText {
  import opened Source
  import opened Values
  import opened Grammar
  import opened Printer
  import opened Procedures
  import opened ControlText

  datatype Declared = Declared(name: string, kind: string)

  datatype Parts = Parts(decls: seq<Declared>, body: string) | NoProcedure

  predicate InLine(c: char) { c != '\n' }

  predicate InWord(c: char) { c != ' ' }

  /** A line `  name type;`. */
  function ReadDeclaration(line: string): Option<Declared> {
    if !("  " <= line) then None
    else
      var n := Run(line[2..], InWord) + 2;
      if n + 1 < |line| && line[|line| - 1] == ';' then Some(Declared(line[2..n], line[n + 1..|line| - 1]))
      else None
  }

  /** Declarations line by line up to the line BEGIN, and what comes after it. */
  function ReadLines(t: string): Parts
    decreases |t|
  {
    var n := Run(t, InLine);
    if n == |t| then NoProcedure
    else if t[..n] == "BEGIN" then Parts([], t[n + 1..])
    else
      match ReadDeclaration(t[..n])
      case None => NoProcedure
      case Some(d) =>
        match ReadLines(t[n + 1..])
        case Parts(ds, body) => Parts([d] + ds, body)
        case NoProcedure => NoProcedure
  }

  function ReadProcedure(t: string): Parts {
    if !("DECLARE\n" <= t) then NoProcedure
    else
      match ReadLines(t[8..])
      case Parts(ds, b) =>
        if |b| >= 4 && b[|b| - 4..] == "END;" then Parts(ds, b[..|b| - 4]) else NoProcedure
      case NoProcedure => NoProcedure
  }

  /** Every name with the type `int`, in order. */
  function AllInts(own: seq<string>): (r: seq<Declared>)
    ensures |r| == |own| && forall i :: 0 <= i < |own| ==> r[i] == Declared(own[i], "int")
  {
    seq(|own|, i requires 0 <= i < |own| => Declared(own[i], "int"))
  }

  /** A word can stand in a declaration: it has no space and no end of line. */
  predicate Word(x: string) {
    forall i :: 0 <= i < |x| ==> InWord(x[i]) && InLine(x[i])
  }

  predicate AllWords(xs: seq<string>) {
    forall x :: x in xs ==> Word(x)
  }

  lemma LineIs(x: string)
    ensures Declaration(x) == "  " + (x + " int;") + "\n"
  {
  }

  lemma DeclarationReads(x: string)
    requires Word(x)
    ensures ReadDeclaration("  " + (x + " int;")) == Some(Declared(x, "int"))
  {
    var line := "  " + (x + " int;");
    assert line[2..] == x + " int;";
    RunConcat(x, " int;", InWord);
    assert line[2..|x| + 2] == x;
    assert line[|x| + 3..|line| - 1] == "int";
  }

  lemma ReadLine(line: string, d: Declared, r: string)
    requires (forall i :: 0 <= i < |line| ==> InLine(line[i])) && "  " <= line
    requires ReadDeclaration(line) == Some(d) && ReadLines(r).Parts?
    ensures ReadLines(line + "\n" + r) == Parts([d] + ReadLines(r).decls, ReadLines(r).body)
  {
    hide ReadDeclaration;
    var t := line + "\n" + r;
    Regroup(line, "\n", r);
    RunConcat(line, "\n" + r, InLine);
    assert t[..|line|] == line && t[|line| + 1..] == r;
    assert line[0] == ' ';
  }

  lemma ReadBegin(r: string)
    ensures ReadLines("BEGIN\n" + r) == Parts([], r)
  {
    var t := "BEGIN" + ("\n" + r);
    assert "BEGIN\n" + r == t;
    RunConcat("BEGIN", "\n" + r, InLine);
    assert t[..5] == "BEGIN" && t[6..] == r;
  }

  lemma {:induction false} DeclarationsRead(own: seq<string>, r: string)
    requires AllWords(own) && ReadLines(r).Parts?
    ensures ReadLines(Declarations(own) + r) == Parts(AllInts(own) + ReadLines(r).decls, ReadLines(r).body)
    decreases |own|
  {
    hide ReadLines, Declaration, Word;
    if own == [] {
      assert "" + r == r;
    } else {
      var n := |own| - 1;
      var x := own[n];
      var d := Declared(x, "int");
      OneReads(x, r);
      DeclarationsRead(own[..n], Declaration(x) + r);
      Regroup(Declarations(own[..n]), Declaration(x), r);
      assert AllInts(own[..n]) + ([d] + ReadLines(r).decls) == AllInts(own) + ReadLines(r).decls;
    }
  }

  lemma OneReads(x: string, r: string)
    requires Word(x) && ReadLines(r).Parts?
    ensures ReadLines(Declaration(x) + r) == Parts([Declared(x, "int")] + ReadLines(r).decls, ReadLines(r).body)
  {
    hide ReadLines, ReadDeclaration, Declaration;
    LineIs(x);
    DeclarationReads(x);
    ReadLine("  " + (x + " int;"), Declared(x, "int"), r);
  }

  /** A procedure's text gives back exactly its declarations, in order and with their type, and exactly its
      body, whatever the body is. */
  lemma ProcedureReads(own: seq<string>, body: string)
    requires AllWords(own)
    ensures ReadProcedure(Procedure(own, body)) == Parts(AllInts(own), body)
  {
    hide ReadLines, AllWords, Declarations;
    var rest := body + "END;";
    ReadBegin(rest);
    DeclarationsRead(own, "BEGIN\n" + rest);
    Regroup5("", "DECLARE\n", Declarations(own), "BEGIN\n", body, "END;");
    var t := Declarations(own) + ("BEGIN\n" + rest);
    assert Procedure(own, body) == "DECLARE\n" + t;
    Behind("DECLARE\n", t);
    assert rest[..|body|] == body && rest[|body|..] == "END;";
    assert AllInts(own) + [] == AllInts(own);
  }

  lemma NamesAreWords(xs: seq<string>)
    requires AllNames(xs)
    ensures AllWords(xs)
  {
  }

  /** What a block's procedure declares, all names. */
  lemma OwnNames(root: Exprs, locals: seq<string>)
    requires AllNames(WordsStmts(root))
    ensures AllNames(Internal(root, locals))
  {
    hide IsName;
    Closed(root, locals);
    AddAllMembers(locals, WordsStmts(root));
  }

  /** The whole of a generated procedure: read back, it declares exactly the block's own variables as
      integers, and its body, read as commands, does what the block does. */
  lemma ProcedureMeansBlock(root: Exprs, locals: seq<string>, p: Program, k: nat, env: Env, mem: Mem)
    requires AllReady(root) && !AnyCompares(root)
    ensures var own := Internal(root, locals);
            var parts := ReadProcedure(Procedure(own, PrintStmts(root)));
            && parts.Parts? && parts.decls == AllInts(own)
            && ReadBody(parts.body).Some?
            && ExecuteAll(p, k, ReadBody(parts.body).value, env, mem) == FromOutcome(EvalStmts(p, k, root, env, mem))
  {
    hide Procedure, ReadProcedure, AnyCompares, ReadBody, AllNames, ExecuteAll;
    OwnNames(root, locals);
    NamesAreWords(Internal(root, locals));
    ProcedureReads(Internal(root, locals), PrintStmts(root));
    TextMeansBlock(root, p, k, env, mem);
  }
}
