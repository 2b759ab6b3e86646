/** The text of a generated procedure is printed without parentheses: what it says, and when reading it
    back gives the same tree. */
module Printer {
  import opened Source
  import opened Values
  import opened Grammar

  // ----- the printer -----

  /** What the printer takes when every variable is numeric; on anything else in this model it stops
      (or treats strings, cursors and records, which are not part of this model). */
  predicate Printable(e: Expr) {
    match e
    case Number(_) => true
    case Var(_) => true
    case Bin(op, l, r) => op != NotEqual && Printable(l) && Printable(r) && (op == Plus ==> Typed(l) || Typed(r))
    case Neg(a) => Printable(a)
    case Assign(_, a) => Printable(a)
    case If(c, t, f) => Printable(c) && AllPrintable(t) && AllPrintable(f)
    case While(c, body) => Printable(c) && AllPrintable(body)
    case _ => false
  }

  predicate AllPrintable(es: Exprs) {
    es.Snoc? ==> AllPrintable(es.init) && Printable(es.last)
  }

  /** The printer has found the node to be numeric; control statements keep the undefined type. */
  predicate Typed(e: Expr) {
    match e
    case Bin(op, l, r) => op == Equal || Typed(l) || Typed(r)
    case Neg(a) => Typed(a)
    case If(_, _, _) => false
    case While(_, _) => false
    case _ => true
  }

  function OpText(op: BinOp): string
    requires op != NotEqual
  {
    match op
    case Plus => " + "
    case Minus => " - "
    case Times => " * "
    case Over => " / "
    case Less => " < "
    case Equal => " = "
  }

  function Print(e: Expr): string
    requires Printable(e)
  {
    match e
    case Number(n) => DigitsOf(n)
    case Var(x) => x
    case Bin(op, l, r) => Print(l) + OpText(op) + Print(r)
    case Neg(a) => " - " + Print(a)
    case Assign(x, a) => x + " = " + Print(a)
    case If(c, t, f) =>
      "IF " + Print(c) + (if Typed(c) then "" else " IS NOT NULL") + " THEN\n" + PrintStmts(t)
      + (if f.Nil? then "" else "ELSE\n" + PrintStmts(f)) + "END IF"
    case While(c, body) =>
      "  LOOP\n    EXIT WHEN NOT (" + Print(c) + ");\n" + PrintStmts(body) + "END LOOP"
  }

  function PrintStmts(es: Exprs): string
    requires AllPrintable(es)
  {
    if es.Nil? then "" else PrintStmts(es.init) + "  " + Print(es.last) + ";\n"
  }

  /** The variable names the printer writes, left to right. */
  function Words(e: Expr): seq<string> {
    match e
    case Number(_) => []
    case Var(x) => [x]
    case Bin(_, l, r) => Words(l) + Words(r)
    case Neg(a) => Words(a)
    case Assign(x, a) => [x] + Words(a)
    case If(c, t, f) => Words(c) + WordsStmts(t) + WordsStmts(f)
    case While(c, body) => Words(c) + WordsStmts(body)
    case _ => []
  }

  function WordsStmts(es: Exprs): seq<string> {
    if es.Nil? then [] else WordsStmts(es.init) + Words(es.last)
  }

  predicate AllNames(xs: seq<string>) {
    forall x :: x in xs ==> IsName(x)
  }

  // ----- lexing what was printed -----

  /** A number's text is digits without a leading zero that stand for the number. */
  lemma {:induction false} DecimalDigits(n: nat)
    ensures DigitsOf(n) != "" && (forall i :: 0 <= i < |DigitsOf(n)| ==> IsDigit(DigitsOf(n)[i]))
    ensures Atoi(DigitsOf(n)) == n
    ensures |DigitsOf(n)| > 1 ==> DigitsOf(n)[0] != '0'
    decreases n
  {
    if n >= 10 {
      DecimalDigits(n / 10);
      assert DigitsOf(n)[..|DigitsOf(n)| - 1] == DigitsOf(n / 10);
    } else {
      assert DigitsOf(n)[..0] == "";
    }
  }

  /** A character that ends a number or a word. */
  predicate Delimits(r: string) {
    r == "" || r[0] in [' ', ';', ')']
  }

  lemma {:induction false} RunConcat(w: string, r: string, p: char -> bool)
    requires (forall i :: 0 <= i < |w| ==> p(w[i])) && (r == "" || !p(r[0]))
    ensures Run(w + r, p) == |w|
    decreases |w|
  {
    if w == "" {
      assert w + r == r;
    } else {
      assert (w + r)[0] == w[0] && (w + r)[1..] == w[1..] + r;
      RunConcat(w[1..], r, p);
    }
  }

  lemma LexNumber(n: nat, r: string)
    requires Delimits(r)
    ensures Lex(DigitsOf(n) + r) == [NumTok(n)] + Lex(r)
  {
    DecimalDigits(n);
    var w := DigitsOf(n);
    hide DigitsOf, Atoi, Lex;
    RunConcat(w, r, IsDigit);
    assert (w + r)[..|w|] == w && (w + r)[|w|..] == r && (w + r)[0] == w[0];
    LexOne(w + r);
  }

  lemma LexOne(s: string)
    requires s != ""
    ensures Lex(s) == Scan(s).0 + Lex(s[Scan(s).1..])
  {
  }

  lemma LexName(x: string, r: string)
    requires IsName(x) && Delimits(r)
    ensures Lex(x + r) == [IdTok(x)] + Lex(r)
  {
    hide Lex, IsKeyword;
    RunConcat(x, r, IsIdChar);
    assert (x + r)[..|x|] == x && (x + r)[|x|..] == r && (x + r)[0] == x[0];
    LexOne(x + r);
  }

  /** A character that is a token of its own, or nothing, whatever follows it. */
  predicate Alone(c: char) {
    !IsDigit(c) && !IsIdChar(c) && c !in ['"', '/', '=', '!', '+']
  }

  lemma LexAlone(c: char, r: string)
    requires Alone(c) || (!IsDigit(c) && !IsIdChar(c) && c != '"' && r != "" && r[0] == ' ')
    ensures Lex([c] + r) == (if IsSpace(c) then [] else [CharTok(c)]) + Lex(r)
  {
    hide Lex;
    assert ([c] + r)[0] == c && ([c] + r)[1..] == r;
    LexOne([c] + r);
  }

  lemma LexOperator(op: BinOp, r: string)
    requires op != NotEqual
    ensures Lex(OpText(op) + r) == [if op == Equal then CharTok('=') else OpToken(op)] + Lex(r)
  {
    hide Lex;
    var c := OpText(op)[1];
    assert OpText(op) + r == [' '] + ([c] + ([' '] + r));
    LexAlone(' ', [c] + ([' '] + r));
    LexAlone(c, [' '] + r);
    LexAlone(' ', r);
  }

  /** The tokens of the printed text. */
  function Tokens(e: Expr): seq<Token> {
    match e
    case Number(n) => [NumTok(n)]
    case Var(x) => [IdTok(x)]
    case Bin(op, l, r) => Tokens(l) + [if op == Equal then CharTok('=') else OpToken(op)] + Tokens(r)
    case Neg(a) => [CharTok('-')] + Tokens(a)
    case Assign(x, a) => [IdTok(x), CharTok('=')] + Tokens(a)
    case _ => []
  }

  // Printed text in front of more text, one construct at a time.

  lemma NegText(e: Expr, r: string)
    requires e.Neg? && Printable(e)
    ensures Print(e) + r == OpText(Minus) + (Print(e.e) + r)
  {
    Regroup(OpText(Minus), Print(e.e), r);
  }

  lemma AssignText(e: Expr, r: string)
    requires e.Assign? && Printable(e)
    ensures Print(e) + r == e.x + (OpText(Equal) + (Print(e.e) + r))
  {
    var s := Print(e.e);
    Regroup(e.x + OpText(Equal), s, r);
    Regroup(e.x, OpText(Equal), s + r);
  }

  lemma BinText(e: Expr, r: string)
    requires e.Bin? && Printable(e)
    ensures Print(e) + r == Print(e.left) + (OpText(e.op) + (Print(e.right) + r))
  {
    var s, t, o := Print(e.left), Print(e.right), OpText(e.op);
    Regroup(s + o, t, r);
    Regroup(s, o, t + r);
  }

  lemma WhileText(e: Expr, r: string)
    requires e.While? && Printable(e)
    ensures Print(e) + r ==
            "  LOOP\n    EXIT WHEN NOT (" + (Print(e.cond) + (");\n" + (PrintStmts(e.body) + ("END LOOP" + r))))
  {
    Regroup5("  LOOP\n    EXIT WHEN NOT (", Print(e.cond), ");\n", PrintStmts(e.body), "END LOOP", r);
  }

  function TestText(c: Expr): string {
    (if Typed(c) then "" else " IS NOT NULL") + " THEN\n"
  }

  function ElseText(f: Exprs): string
    requires AllPrintable(f)
  {
    if f.Nil? then "" else "ELSE\n" + PrintStmts(f)
  }

  lemma IfText(e: Expr, r: string)
    requires e.If? && Printable(e)
    ensures Print(e) + r ==
            "IF " + (Print(e.cond) + (TestText(e.cond) + (PrintStmts(e.thn) + (ElseText(e.els) + ("END IF" + r)))))
  {
    var c, t, f, s := Print(e.cond), TestText(e.cond), ElseText(e.els), PrintStmts(e.thn);
    Regroup("IF " + c, if Typed(e.cond) then "" else " IS NOT NULL", " THEN\n");
    assert Print(e) == "IF " + c + t + s + f + "END IF";
    Regroup("IF " + c + t + s + f, "END IF", r);
    Regroup5("IF ", c, t, s, f, "END IF" + r);
  }

  lemma StmtsText(es: Exprs, r: string)
    requires es.Snoc? && AllPrintable(es)
    ensures PrintStmts(es) + r == PrintStmts(es.init) + ("  " + (Print(es.last) + (";\n" + r)))
  {
    var a, b := PrintStmts(es.init), Print(es.last);
    Regroup5("", a, "  ", b, ";\n", r);
    assert "" + a == a;
    assert "" + (a + ("  " + (b + (";\n" + r)))) == a + ("  " + (b + (";\n" + r)));
  }

  lemma Regroup(a: string, b: string, c: string)
    ensures a + b + c == a + (b + c)
  {
  }

  lemma Regroup5(a: string, b: string, c: string, d: string, e: string, r: string)
    ensures a + b + c + d + e + r == a + (b + (c + (d + (e + r))))
  {
    Regroup(a + b + c + d, e, r);
    Regroup(a + b + c, d, e + r);
    Regroup(a + b, c, d + (e + r));
    Regroup(a, b, c + (d + (e + r)));
  }

  lemma BinTokens(e: Expr, z: seq<Token>)
    requires e.Bin?
    ensures var o := if e.op == Equal then CharTok('=') else OpToken(e.op);
            Tokens(e) + z == Tokens(e.left) + ([o] + (Tokens(e.right) + z))
  {
  }

  lemma {:induction false} LexPrint(e: Expr, r: string)
    requires Arith(e) && Printable(e) && AllNames(Words(e)) && Delimits(r)
    ensures Lex(Print(e) + r) == Tokens(e) + Lex(r)
    decreases e
  {
    hide Lex, IsName, OpText, Delimits;
    Delimiters(r);
    match e
    case Number(n) => LexNumber(n, r);
    case Var(x) => LexName(x, r);
    case Neg(a) =>
      hide Print;
      NegText(e, r);
      LexOperator(Minus, Print(a) + r);
      LexPrint(a, r);
    case Assign(x, a) =>
      hide Print;
      AssignText(e, r);
      LexName(x, OpText(Equal) + (Print(a) + r));
      LexOperator(Equal, Print(a) + r);
      LexPrint(a, r);
    case Bin(op, lt, rt) =>
      hide Print, OpToken;
      BinText(e, r);
      LexPrint(lt, OpText(op) + (Print(rt) + r));
      LexOperator(op, Print(rt) + r);
      LexPrint(rt, r);
      BinTokens(e, Lex(r));
    case _ =>
  }

  /** What the printer puts after a name or a number ends it. */
  lemma Delimiters(r: string)
    ensures forall op, s: string :: op != NotEqual ==> Delimits(OpText(op) + s)
    ensures forall s: string :: Delimits(");\n" + s) && Delimits(";\n" + s)
    ensures forall c, s: string :: Delimits(TestText(c) + s)
  {
  }

  // ----- the agreement -----

  predicate HasEqual(e: Expr) {
    match e
    case Bin(op, l, r) => op == Equal || HasEqual(l) || HasEqual(r)
    case Neg(a) => HasEqual(a)
    case Assign(_, a) => HasEqual(a)
    case _ => false
  }

  lemma {:induction false} EqualTokens(e: Expr)
    requires Printable(e)
    ensures EqTok !in Tokens(e)
    ensures if HasEqual(e) then EqTok in Yield(e) else Tokens(e) == Yield(e)
  {
    match e
    case Bin(_, l, r) => EqualTokens(l); EqualTokens(r);
    case Neg(a) => EqualTokens(a);
    case Assign(_, a) => EqualTokens(a);
    case _ =>
  }

  /** Printing without parentheses and reading back gives the same tree exactly for the trees the table
      produces that have no `==`, which is printed like an assignment. */
  lemma PrintedReadsBack(e: Expr)
    requires Arith(e) && Printable(e) && AllNames(Words(e))
    ensures Parse(Lex(Print(e))) == Some(e) <==> Canonical(e) && !HasEqual(e)
  {
    hide Lex, IsName, Parse, Canonical;
    assert Print(e) + "" == Print(e) && Lex("") == [] by { LexEmpty(); }
    LexPrint(e, "");
    assert Tokens(e) + [] == Tokens(e);
    EqualTokens(e);
    ParseInverse(Tokens(e), e);
  }

  lemma LexEmpty()
    ensures Lex("") == []
  {
  }

  lemma {:induction false} WordsAreTokens(e: Expr, x: string)
    requires Arith(e) && x in Words(e)
    ensures IdTok(x) in Yield(e)
  {
    match e
    case Bin(_, l, r) =>
      if x in Words(l) { WordsAreTokens(l, x); } else { WordsAreTokens(r, x); }
    case Neg(a) => WordsAreTokens(a, x);
    case Assign(y, a) => if x != y { WordsAreTokens(a, x); }
    case _ =>
  }

  lemma {:induction false} CanonicalIsArith(e: Expr)
    requires Canonical(e)
    ensures Arith(e)
  {
    match e
    case Bin(_, l, r) => CanonicalIsArith(l); CanonicalIsArith(r);
    case Neg(a) => CanonicalIsArith(a);
    case Assign(_, a) => CanonicalIsArith(a);
    case _ =>
  }

  /** Any source text that parses and can be printed survives the trip through the printer, unless it
      compares with `==`. */
  lemma SourceSurvives(text: string, e: Expr)
    requires Parse(Lex(text)) == Some(e) && Printable(e)
    ensures Parse(Lex(Print(e))) == Some(e) <==> !HasEqual(e)
  {
    hide Lex, IsName, Parse, Canonical, HasEqual;
    ParseInverse(Lex(text), e);
    CanonicalIsArith(e);
    forall x | x in Words(e) ensures IsName(x) {
      WordsAreTokens(e, x);
      LexNames(text, x);
    }
    PrintedReadsBack(e);
  }

  /** The names in a stretch of text. */
  function Names(toks: seq<Token>): seq<string> {
    if toks == [] then [] else (if toks[0].IdTok? then [toks[0].x] else []) + Names(toks[1..])
  }

  lemma {:induction false} NamesConcat(a: seq<Token>, b: seq<Token>)
    ensures Names(a + b) == Names(a) + Names(b)
    decreases |a|
  {
    if a == [] {
      assert a + b == b;
    } else {
      assert (a + b)[0] == a[0] && (a + b)[1..] == a[1..] + b;
      NamesConcat(a[1..], b);
    }
  }

  function NamesIn(text: string): seq<string> {
    Names(Lex(text))
  }

  /** Keywords and punctuation of the generated text contribute no name. */
  lemma {:induction false} NoNames(w: string, r: string)
    requires forall i :: 0 <= i < |w| ==> Alone(w[i])
    ensures NamesIn(w + r) == NamesIn(r)
    decreases |w|
  {
    if w == "" {
      assert w + r == r;
    } else {
      hide Lex;
      assert w + r == [w[0]] + (w[1..] + r);
      LexAlone(w[0], w[1..] + r);
      NoNames(w[1..], r);
      var t := if IsSpace(w[0]) then [] else [CharTok(w[0])];
      NamesConcat(t, Lex(w[1..] + r));
      assert Names(t) == [];
    }
  }

  lemma NameFirst(x: string, r: string)
    requires IsName(x) && Delimits(r)
    ensures NamesIn(x + r) == [x] + NamesIn(r)
  {
    hide Lex;
    LexName(x, r);
    NamesConcat([IdTok(x)], Lex(r));
    assert Names([IdTok(x)]) == [x] by { assert [IdTok(x)][1..] == []; }
  }

  lemma NumberFirst(n: nat, r: string)
    requires Delimits(r)
    ensures NamesIn(DigitsOf(n) + r) == NamesIn(r)
  {
    hide Lex;
    LexNumber(n, r);
    NamesConcat([NumTok(n)], Lex(r));
    assert Names([NumTok(n)]) == [] by { assert [NumTok(n)][1..] == []; }
  }

  lemma OperatorFirst(op: BinOp, r: string)
    requires op != NotEqual
    ensures NamesIn(OpText(op) + r) == NamesIn(r)
  {
    hide Lex;
    LexOperator(op, r);
    var t := if op == Equal then CharTok('=') else OpToken(op);
    NamesConcat([t], Lex(r));
    assert Names([t]) == [] by { assert [t][1..] == []; }
  }

  /** The names in the printed text are the names in the tree, in order: nothing is hidden or invented. */
  lemma {:induction false} PrintedNames(e: Expr, r: string)
    requires Printable(e) && AllNames(Words(e)) && Delimits(r)
    ensures NamesIn(Print(e) + r) == Words(e) + NamesIn(r)
    decreases e
  {
    hide NamesIn, IsName, OpText, Delimits, TestText;
    Delimiters(r);
    match e
    case Number(n) => NumberFirst(n, r);
    case Var(x) => NameFirst(x, r);
    case Neg(a) =>
      hide Print;
      NegText(e, r);
      OperatorFirst(Minus, Print(a) + r);
      PrintedNames(a, r);
    case Assign(x, a) =>
      hide Print;
      AssignText(e, r);
      NameFirst(x, OpText(Equal) + (Print(a) + r));
      OperatorFirst(Equal, Print(a) + r);
      PrintedNames(a, r);
    case Bin(op, lt, rt) =>
      hide Print;
      BinText(e, r);
      PrintedNames(lt, OpText(op) + (Print(rt) + r));
      OperatorFirst(op, Print(rt) + r);
      PrintedNames(rt, r);
    case If(_, _, _) => PrintedIf(e, r);
    case While(_, _) => PrintedWhile(e, r);
    case _ =>
  }

  lemma {:induction false} PrintedWhile(e: Expr, r: string)
    requires e.While? && Printable(e) && AllNames(Words(e)) && Delimits(r)
    ensures NamesIn(Print(e) + r) == Words(e) + NamesIn(r)
    decreases e, 0
  {
    hide NamesIn, IsName, Print, PrintStmts, Delimits, TestText, OpText;
    Delimiters(r);
    WhileText(e, r);
    var open, close, r1 := "  LOOP\n    EXIT WHEN NOT (", ");\n", "END LOOP" + r;
    var r2 := PrintStmts(e.body) + r1;
    NoNames(open, Print(e.cond) + (close + r2));
    PrintedNames(e.cond, close + r2);
    NoNames(close, r2);
    PrintedStmts(e.body, r1);
    NoNames("END LOOP", r);
  }

  lemma {:induction false} PrintedIf(e: Expr, r: string)
    requires e.If? && Printable(e) && AllNames(Words(e)) && Delimits(r)
    ensures NamesIn(Print(e) + r) == Words(e) + NamesIn(r)
    decreases e, 0
  {
    hide NamesIn, IsName, Print, PrintStmts, Delimits, OpText, ElseText, TestText;
    Delimiters(r);
    IfText(e, r);
    var r1 := "END IF" + r;
    var r2 := ElseText(e.els) + r1;
    var r3 := PrintStmts(e.thn) + r2;
    NoNames("IF ", Print(e.cond) + (TestText(e.cond) + r3));
    PrintedNames(e.cond, TestText(e.cond) + r3);
    TestAlone(e.cond);
    NoNames(TestText(e.cond), r3);
    PrintedStmts(e.thn, r2);
    PrintedElse(e.els, r1);
    NoNames("END IF", r);
  }

  lemma TestAlone(c: Expr)
    ensures forall i :: 0 <= i < |TestText(c)| ==> Alone(TestText(c)[i])
  {
  }

  lemma {:induction false} PrintedElse(f: Exprs, r: string)
    requires AllPrintable(f) && AllNames(WordsStmts(f))
    ensures NamesIn(ElseText(f) + r) == WordsStmts(f) + NamesIn(r)
    decreases f, 1
  {
    hide NamesIn, IsName, PrintStmts;
    if f.Nil? {
      assert "" + r == r;
    } else {
      Regroup("ELSE\n", PrintStmts(f), r);
      NoNames("ELSE\n", PrintStmts(f) + r);
      PrintedStmts(f, r);
    }
  }

  lemma {:induction false} PrintedStmts(es: Exprs, r: string)
    requires AllPrintable(es) && AllNames(WordsStmts(es))
    ensures NamesIn(PrintStmts(es) + r) == WordsStmts(es) + NamesIn(r)
    decreases es, 0
  {
    hide NamesIn, IsName, Print, Delimits, TestText, OpText;
    if es.Nil? {
      assert PrintStmts(es) + r == r;
    } else {
      hide PrintStmts;
      Delimiters(r);
      StmtsText(es, r);
      var r2 := Print(es.last) + (";\n" + r);
      PrintedStmts(es.init, "  " + r2);
      NoNames("  ", r2);
      PrintedNames(es.last, ";\n" + r);
      NoNames(";\n", r);
    }
  }

  /** `a == b` is printed as `a = b`, which is read back as an assignment. */
  lemma EqualIsPrintedAsAssignment(a: string, b: string)
    requires IsName(a) && IsName(b)
    ensures var e := Bin(Equal, Var(a), Var(b));
            Canonical(e) && Printable(e) && Parse(Lex(Print(e))) == Some(Assign(a, Var(b)))
  {
    hide Lex, IsName, Parse;
    var e := Bin(Equal, Var(a), Var(b));
    assert Print(e) + "" == Print(e) && Lex("") == [] by { LexEmpty(); }
    LexPrint(e, "");
    assert Tokens(e) + [] == Tokens(e);
    assert Tokens(e) == Yield(Assign(a, Var(b)));
    ParseInverse(Tokens(e), Assign(a, Var(b)));
  }
}
