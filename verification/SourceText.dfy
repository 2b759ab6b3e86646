/** What source text is read as: its tokens, and which tree comes out of a line of operands and operators of
    any length. */
module SourceText {
  import opened Source
  import opened Values
  import opened Grammar
  import opened Printer

  // ----- tokens that no operand or operator has -----

  predicate NoQuote(c: char) { c != '"' }

  predicate NoNewline(c: char) { c != '\n' }

  lemma {:induction false} RunSame(s: string, p: char -> bool, q: char -> bool)
    requires forall c :: p(c) == q(c)
    ensures Run(s, p) == Run(s, q)
    decreases |s|
  {
    if s != "" { RunSame(s[1..], p, q); }
  }

  /** A string is what stands between its quotes. */
  lemma LexString(w: string, r: string)
    requires '"' !in w
    ensures Lex("\"" + (w + ("\"" + r))) == [StrTok(w)] + Lex(r)
  {
    hide Lex;
    var t := "\"" + (w + ("\"" + r));
    assert t[1..] == w + ("\"" + r);
    RunConcat(w, "\"" + r, NoQuote);
    RunSame(t[1..], NoQuote, x => x != '"');
    assert t[1..|w| + 1] == w && t[|w| + 2..] == r;
    LexOne(t);
  }

  /** A comment reaches to the end of its line. */
  lemma LexComment(w: string, r: string)
    requires '\n' !in w
    ensures Lex("//" + (w + ("\n" + r))) == Lex(r)
  {
    hide Lex;
    var t := "//" + w + ("\n" + r);
    Regroup("//", w, "\n" + r);
    assert t[0] == '/';
    RunConcat("//" + w, "\n" + r, NoNewline);
    RunSame(t, NoNewline, x => x != '\n');
    assert t[|w| + 2..] == "\n" + r;
    LexOne(t);
    LexAlone('\n', r);
    assert "\n" + r == ['\n'] + r;
  }

  /** The words with a meaning of their own, and no others. */
  lemma LexWord(w: string, r: string)
    requires w != "" && (forall i :: 0 <= i < |w| ==> IsIdChar(w[i])) && Delimits(r)
    ensures var keyword := w == "hello" || w == "repeat" || w == "defun" || w == "if" || w == "else" ||
                           w == "while" || w == "return";
            Lex(w + r) == [if keyword then Keyword(w) else IdTok(w)] + Lex(r)
  {
    hide Lex;
    RunConcat(w, r, IsIdChar);
    assert (w + r)[..|w|] == w && (w + r)[|w|..] == r && (w + r)[0] == w[0];
    LexOne(w + r);
  }

  // ----- lines -----

  function Symbol(op: BinOp): string {
    match op
    case Equal => "=="
    case NotEqual => "!="
    case Less => "<"
    case Plus => "+"
    case Minus => "-"
    case Times => "*"
    case Over => "/"
  }

  /** `a` stands in a later row than `b` among `== !=`, `<`, `+ -`, `* /`. */
  predicate Tighter(a: BinOp, b: BinOp) {
    match b
    case Equal => a in {Less, Plus, Minus, Times, Over}
    case NotEqual => a in {Less, Plus, Minus, Times, Over}
    case Less => a in {Plus, Minus, Times, Over}
    case Plus => a in {Times, Over}
    case Minus => a in {Times, Over}
    case Times => false
    case Over => false
  }

  /** A number or a variable under any number of minus signs. */
  predicate Simple(e: Expr) {
    match e
    case Number(_) => true
    case Var(x) => IsName(x)
    case Neg(a) => Simple(a)
    case _ => false
  }

  function OperandText(e: Expr): string
    requires Simple(e)
  {
    match e
    case Number(n) => DigitsOf(n)
    case Var(x) => x
    case Neg(a) => "-" + OperandText(a)
  }

  /** A line has an operand before, between and after its operators. */
  predicate Line(es: seq<Expr>, ops: seq<BinOp>) {
    |es| == |ops| + 1 && forall e :: e in es ==> Simple(e)
  }

  function LineText(es: seq<Expr>, ops: seq<BinOp>): string
    requires Line(es, ops)
    decreases |ops|
  {
    OperandText(es[0]) +
    if ops == [] then "" else " " + Symbol(ops[0]) + " " + LineText(es[1..], ops[1..])
  }

  /** The last of the operators that no other is looser than. */
  function Root(ops: seq<BinOp>): (i: nat)
    requires ops != []
    ensures i < |ops|
    ensures forall j :: 0 <= j < |ops| ==> !Tighter(ops[i], ops[j])
    ensures forall j :: i < j < |ops| ==> Tighter(ops[j], ops[i])
  {
    var n := |ops| - 1;
    if n == 0 then 0
    else
      var i := Root(ops[..n]);
      if Tighter(ops[n], ops[i]) then i else n
  }

  /** The tree with that operator on top and the trees of what stands on its two sides. */
  function Tree(es: seq<Expr>, ops: seq<BinOp>): Expr
    requires Line(es, ops)
    decreases |ops|
  {
    if ops == [] then es[0]
    else
      var i := Root(ops);
      Bin(ops[i], Tree(es[..i + 1], ops[..i]), Tree(es[i + 1..], ops[i + 1..]))
  }

  // ----- the tokens of a line -----

  function LineTokens(es: seq<Expr>, ops: seq<BinOp>): seq<Token>
    requires |es| == |ops| + 1
    decreases |ops|
  {
    Yield(es[0]) + if ops == [] then [] else [OpToken(ops[0])] + LineTokens(es[1..], ops[1..])
  }

  lemma {:induction false} LineSplit(es: seq<Expr>, ops: seq<BinOp>, i: nat)
    requires |es| == |ops| + 1 && i < |ops|
    ensures LineTokens(es, ops) ==
            LineTokens(es[..i + 1], ops[..i]) + [OpToken(ops[i])] + LineTokens(es[i + 1..], ops[i + 1..])
    decreases |ops|
  {
    hide Yield, OpToken;
    if i == 0 {
      assert LineTokens(es[..1], ops[..0]) == Yield(es[0]);
    } else {
      LineSplit(es[1..], ops[1..], i - 1);
      assert es[1..][..i] == es[..i + 1][1..] && ops[1..][..i - 1] == ops[..i][1..];
      assert es[1..][i..] == es[i + 1..] && ops[1..][i..] == ops[i + 1..];
    }
  }

  lemma LexSymbol(op: BinOp, r: string)
    ensures Lex(" " + Symbol(op) + " " + r) == [OpToken(op)] + Lex(r)
  {
    hide Lex;
    var w := Symbol(op);
    assert " " + w + " " + r == [' '] + (w + ([' '] + r));
    LexAlone(' ', w + ([' '] + r));
    LexAlone(' ', r);
    if op == Equal || op == NotEqual {
      assert (w + ([' '] + r))[..2] == w && (w + ([' '] + r))[2..] == [' '] + r;
      LexOne(w + ([' '] + r));
    } else {
      LexAlone(w[0], [' '] + r);
    }
  }

  lemma {:induction false} LexOperand(e: Expr, r: string)
    requires Simple(e) && Delimits(r)
    ensures Lex(OperandText(e) + r) == Yield(e) + Lex(r)
  {
    hide Lex, IsName, Delimits;
    match e
    case Number(n) => LexNumber(n, r);
    case Var(x) => LexName(x, r);
    case Neg(a) =>
      Regroup("-", OperandText(a), r);
      LexAlone('-', OperandText(a) + r);
      LexOperand(a, r);
    case _ =>
  }

  lemma {:induction false} LexLine(es: seq<Expr>, ops: seq<BinOp>)
    requires Line(es, ops)
    ensures Lex(LineText(es, ops)) == LineTokens(es, ops)
    decreases |ops|
  {
    hide Lex, OperandText, Simple, Symbol, OpToken;
    if ops == [] {
      LexOperand(es[0], "");
      LexEmpty();
    } else {
      var rest := LineText(es[1..], ops[1..]);
      var more := " " + Symbol(ops[0]) + " " + rest;
      assert more[0] == ' ';
      LexOperand(es[0], more);
      LexSymbol(ops[0], rest);
      LexLine(es[1..], ops[1..]);
    }
  }

  // ----- the tree of a line -----

  lemma Rows(a: BinOp, b: BinOp)
    ensures Tighter(a, b) <==> Level(a) > Level(b)
  {
  }

  lemma {:induction false} OperandCanonical(e: Expr)
    requires Simple(e)
    ensures Canonical(e) && !Open(e) && !e.Bin?
  {
    if e.Neg? { OperandCanonical(e.e); }
  }

  /** What the parser needs of the tree of a line, and what stands on top. */
  predicate Reads(e: Expr, es: seq<Expr>, ops: seq<BinOp>)
    requires |es| == |ops| + 1
  {
    && Canonical(e) && !Open(e) && Yield(e) == LineTokens(es, ops)
    && (if ops == [] then !e.Bin? else e.Bin? && e.op == ops[Root(ops)])
  }

  lemma Joins(e: Expr, es: seq<Expr>, ops: seq<BinOp>)
    requires |es| == |ops| + 1 && ops != [] && e.Bin?
    requires var i := Root(ops);
             e.op == ops[i] && Reads(e.left, es[..i + 1], ops[..i]) && Reads(e.right, es[i + 1..], ops[i + 1..])
    ensures Reads(e, es, ops)
  {
    hide LineTokens, Tighter, Level, OpToken, Root, Canonical, Open, Yield;
    var i := Root(ops);
    LineSplit(es, ops, i);
    LeftLevel(ops, i);
    RightLevel(ops, i);
    JoinCanonical(e);
    BinYield(e);
  }

  lemma JoinCanonical(e: Expr)
    requires e.Bin? && Canonical(e.left) && Canonical(e.right) && !Open(e.left) && !Open(e.right)
    requires e.left.Bin? ==> Level(e.left.op) >= Level(e.op)
    requires e.right.Bin? ==> Level(e.right.op) > Level(e.op)
    ensures Canonical(e) && !Open(e)
  {
  }

  lemma BinYield(e: Expr)
    requires e.Bin?
    ensures Yield(e) == Yield(e.left) + [OpToken(e.op)] + Yield(e.right)
  {
  }

  lemma LeftLevel(ops: seq<BinOp>, i: nat)
    requires i < |ops| && i == Root(ops)
    ensures i > 0 ==> Level(ops[..i][Root(ops[..i])]) >= Level(ops[i])
    ensures Level(ops[i]) <= UNARY_LEVEL
  {
    hide Tighter, Level;
    if i > 0 { Rows(ops[i], ops[Root(ops[..i])]); }
  }

  lemma RightLevel(ops: seq<BinOp>, i: nat)
    requires i < |ops| && i == Root(ops)
    ensures i + 1 < |ops| ==> Level(ops[i + 1..][Root(ops[i + 1..])]) > Level(ops[i])
  {
    hide Tighter, Level;
    if i + 1 < |ops| { Rows(ops[i + 1 + Root(ops[i + 1..])], ops[i]); }
  }

  lemma {:induction false} TreeReads(es: seq<Expr>, ops: seq<BinOp>)
    requires Line(es, ops)
    ensures Reads(Tree(es, ops), es, ops)
    decreases |ops|
  {
    hide Simple, Reads, Root;
    if ops == [] {
      OperandCanonical(es[0]);
      SingleReads(es);
    } else {
      var i := Root(ops);
      TreeReads(es[..i + 1], ops[..i]);
      TreeReads(es[i + 1..], ops[i + 1..]);
      Joins(Tree(es, ops), es, ops);
    }
  }

  lemma SingleReads(es: seq<Expr>)
    requires |es| == 1 && Canonical(es[0]) && !Open(es[0]) && !es[0].Bin?
    ensures Reads(es[0], es, [])
  {
  }

  /** A line of any length is read as the tree whose top is the last of its loosest operators, and so on
      down both sides: operators of a later row bind tighter, those of one row associate to the left. */
  lemma LineReads(es: seq<Expr>, ops: seq<BinOp>)
    requires Line(es, ops)
    ensures Parse(Lex(LineText(es, ops))) == Some(Tree(es, ops))
  {
    hide Lex, Parse, Canonical, Tree, LineText;
    LexLine(es, ops);
    TreeReads(es, ops);
    ParseInverse(LineTokens(es, ops), Tree(es, ops));
  }

  /** Assignment takes in the whole line on its right. */
  lemma AssignmentReads(x: string, es: seq<Expr>, ops: seq<BinOp>)
    requires IsName(x) && Line(es, ops)
    ensures Parse(Lex(x + (" = " + LineText(es, ops)))) == Some(Assign(x, Tree(es, ops)))
  {
    hide Lex, Parse, Tree, LineText, IsName;
    var text := LineText(es, ops);
    LexName(x, " = " + text);
    LexOperator(Equal, text);
    LexLine(es, ops);
    TreeReads(es, ops);
    var e := Assign(x, Tree(es, ops));
    assert Yield(e) == [IdTok(x)] + ([CharTok('=')] + LineTokens(es, ops));
    ParseInverse(Yield(e), e);
  }

  lemma ThreeTree(es: seq<Expr>, ops: seq<BinOp>)
    requires |ops| == 2 && Line(es, ops)
    ensures Tree(es, ops) == if Tighter(ops[1], ops[0]) then Bin(ops[0], es[0], Bin(ops[1], es[1], es[2]))
                             else Bin(ops[1], Bin(ops[0], es[0], es[1]), es[2])
  {
    hide Simple, Tighter;
    assert ops[..1] == [ops[0]] && ops[1..] == [ops[1]];
    assert Root([ops[0]]) == 0;
    if Tighter(ops[1], ops[0]) {
      TwoTree(es[1..], ops[1..]);
      assert es[..1] == [es[0]] && ops[..0] == [];
    } else {
      TwoTree(es[..2], ops[..1]);
      assert es[2..] == [es[2]] && ops[2..] == [];
    }
  }

  lemma TwoTree(es: seq<Expr>, ops: seq<BinOp>)
    requires |ops| == 1 && Line(es, ops)
    ensures Tree(es, ops) == Bin(ops[0], es[0], es[1])
  {
    hide Simple, Tighter;
    assert es[..1] == [es[0]] && es[1..] == [es[1]] && ops[..0] == [] && ops[1..] == [];
  }

  /** Two operators: the second binds its operands first exactly when it stands in a later row. */
  lemma ThreeOperands(a: Expr, op1: BinOp, b: Expr, op2: BinOp, c: Expr)
    requires Simple(a) && Simple(b) && Simple(c)
    ensures Parse(Lex(LineText([a, b, c], [op1, op2]))) ==
            Some(if Tighter(op2, op1) then Bin(op1, a, Bin(op2, b, c)) else Bin(op2, Bin(op1, a, b), c))
  {
    hide Lex, Parse, Simple, LineText, Tree;
    LineReads([a, b, c], [op1, op2]);
    ThreeTree([a, b, c], [op1, op2]);
  }

  /** A minus sign binds tighter than any operator after it. */
  lemma MinusReads(a: Expr, op: BinOp, b: Expr)
    requires Simple(a) && Simple(b)
    ensures Parse(Lex("-" + LineText([a, b], [op]))) == Some(Bin(op, Neg(a), b))
  {
    hide Lex, Parse, Tree;
    assert LineText([Neg(a), b], [op]) == "-" + LineText([a, b], [op]) by {
      Regroup("-", OperandText(a), " " + Symbol(op) + " " + LineText([b], []));
      assert [Neg(a), b][1..] == [b] && [a, b][1..] == [b] && [op][1..] == [];
    }
    LineReads([Neg(a), b], [op]);
    TwoTree([Neg(a), b], [op]);
  }
}
