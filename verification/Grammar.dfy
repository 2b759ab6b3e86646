/** The lexer of sqlinked.l, the shift-reduce parser that the precedence table of sqlinked.y resolves to on
    expressions, and exactly which trees it produces. */
module Grammar {
  import opened Source
  import opened Values

  // ----- the lexer (sqlinked.l) -----

  datatype Token =
    | NumTok(n: nat)
    | RealTok(text: string)
    | IdTok(x: string)
    | StrTok(text: string)
    | Keyword(word: string)
    | EqTok | NeqTok | IncTok
    | CharTok(c: char)

  predicate IsDigit(c: char) { '0' <= c <= '9' }

  predicate IsIdChar(c: char) { 'a' <= c <= 'z' || c == '_' }

  predicate IsSpace(c: char) { c == ' ' || c == '\n' || c == '\t' }

  predicate IsKeyword(w: string) {
    w in ["hello", "repeat", "defun", "if", "else", "while", "return"]
  }

  /** What the lexer reports as an identifier. */
  predicate IsName(w: string) {
    w != "" && (forall i :: 0 <= i < |w| ==> IsIdChar(w[i])) && !IsKeyword(w)
  }

  function Run(s: string, p: char -> bool): (n: nat)
    ensures n <= |s| && (forall i :: 0 <= i < n ==> p(s[i])) && (n < |s| ==> !p(s[n]))
  {
    if s == "" || !p(s[0]) then 0 else Run(s[1..], p) + 1
  }

  function Digit(c: char): nat
    requires IsDigit(c)
  {
    c as int - '0' as int
  }

  function Atoi(digits: string): nat
    requires forall i :: 0 <= i < |digits| ==> IsDigit(digits[i])
  {
    if digits == "" then 0 else Atoi(digits[..|digits| - 1]) * 10 + Digit(digits[|digits| - 1])
  }

  /** One token, or none for what is skipped, and the number of characters it takes. */
  function Scan(s: string): (r: (seq<Token>, nat))
    requires s != ""
    ensures 0 < r.1 <= |s|
  {
    var c := s[0];
    if IsSpace(c) then ([], 1)
    else if IsDigit(c) then ScanNumber(s)
    else if IsIdChar(c) then
      var n := Run(s, IsIdChar);
      ([if IsKeyword(s[..n]) then Keyword(s[..n]) else IdTok(s[..n])], n)
    else if c == '"' && Run(s[1..], x => x != '"') + 1 < |s| then
      var n := Run(s[1..], x => x != '"');
      ([StrTok(s[1..n + 1])], n + 2)
    else if "//" <= s then ([], Run(s, x => x != '\n'))
    else if "==" <= s then ([EqTok], 2)
    else if "!=" <= s then ([NeqTok], 2)
    else if "++" <= s then ([IncTok], 2)
    else ([CharTok(c)], 1)
  }

  function ScanNumber(s: string): (r: (seq<Token>, nat))
    requires s != "" && IsDigit(s[0])
    ensures 0 < r.1 <= |s|
  {
    var n := Run(s, IsDigit);
    if n + 1 < |s| && s[n] == '.' && IsDigit(s[n + 1]) then
      var m := n + 1 + Run(s[n + 1..], IsDigit);
      ([RealTok(s[..m])], m)
    else ([NumTok(Atoi(s[..n]))], n)
  }

  function Lex(s: string): seq<Token> {
    if s == "" then [] else
      var (toks, n) := Scan(s);
      toks + Lex(s[n..])
  }

  /** Every identifier the lexer reports is a name. */
  lemma {:induction false} LexNames(s: string, x: string)
    requires IdTok(x) in Lex(s)
    ensures IsName(x)
    decreases |s|
  {
    var (toks, n) := Scan(s);
    if IdTok(x) in Lex(s[n..]) {
      LexNames(s[n..], x);
    }
  }

  // ----- the parser -----

  datatype Pending =
    | HaveLeft(l: Expr, op: BinOp)
    | HaveMinus
    | HaveName(x: string)

  function OpToken(op: BinOp): Token {
    match op
    case Plus => CharTok('+')
    case Minus => CharTok('-')
    case Times => CharTok('*')
    case Over => CharTok('/')
    case Less => CharTok('<')
    case Equal => EqTok
    case NotEqual => NeqTok
  }

  function OperatorOf(t: Token): (r: Option<BinOp>)
    ensures r.Some? ==> OpToken(r.value) == t
  {
    match t
    case EqTok => Some(Equal)
    case NeqTok => Some(NotEqual)
    case CharTok(c) =>
      if c == '+' then Some(Plus) else if c == '-' then Some(Minus) else if c == '*' then Some(Times)
      else if c == '/' then Some(Over) else if c == '<' then Some(Less) else None
    case _ => None
  }

  /** The rows of the precedence table, lowest first; every row that holds a binary operator is `%left`. */
  const ASSIGN_LEVEL: nat := 2
  const UNARY_LEVEL: nat := 8

  function Level(op: BinOp): (n: nat)
    ensures ASSIGN_LEVEL < n < UNARY_LEVEL
  {
    match op
    case Equal => 3
    case NotEqual => 3
    case Less => 4
    case Plus => 5
    case Minus => 5
    case Times => 6
    case Over => 6
  }

  /** The level of the rule that is waiting for its last operand. */
  function RuleLevel(p: Pending): nat {
    match p
    case HaveLeft(_, op) => Level(op)
    case HaveMinus => UNARY_LEVEL
    case HaveName(_) => ASSIGN_LEVEL
  }

  function TopLevel(stack: seq<Pending>): nat {
    if stack == [] then 0 else RuleLevel(stack[|stack| - 1])
  }

  function Reduce(p: Pending, e: Expr): Expr {
    match p
    case HaveLeft(l, op) => Bin(op, l, e)
    case HaveMinus => Neg(e)
    case HaveName(x) => Assign(x, e)
  }

  /** The parser in front of an operand. */
  function Operand(stack: seq<Pending>, toks: seq<Token>): Option<Expr>
    decreases |toks|, |stack|
  {
    if toks == [] then None
    else
      match toks[0]
      case NumTok(n) => After(stack, Number(n), toks[1..])
      case IdTok(x) =>
        if |toks| > 1 && toks[1] == CharTok('=') then Operand(stack + [HaveName(x)], toks[2..])
        else After(stack, Var(x), toks[1..])
      case CharTok(c) => if c == '-' then Operand(stack + [HaveMinus], toks[1..]) else None
      case _ => None
  }

  /** The parser after an operand: a rule of a higher level than the operator ahead is reduced, and so is
      one of the same, left-associative, level; otherwise the operator is shifted. */
  function After(stack: seq<Pending>, e: Expr, toks: seq<Token>): Option<Expr>
    decreases |toks|, |stack|
  {
    if toks == [] then
      if stack == [] then Some(e) else Pop(stack, e, toks)
    else
      match OperatorOf(toks[0])
      case None => None
      case Some(op) =>
        if stack != [] && TopLevel(stack) >= Level(op) then Pop(stack, e, toks)
        else Operand(stack + [HaveLeft(e, op)], toks[1..])
  }

  function Pop(stack: seq<Pending>, e: Expr, toks: seq<Token>): Option<Expr>
    requires stack != []
    decreases |toks|, |stack|, 0
  {
    After(stack[..|stack| - 1], Reduce(stack[|stack| - 1], e), toks)
  }

  function Parse(toks: seq<Token>): Option<Expr> {
    Operand([], toks)
  }

  // ----- the trees the table produces -----

  /** The expressions the parser above builds. */
  predicate Arith(e: Expr) {
    match e
    case Number(_) => true
    case Var(_) => true
    case Bin(_, l, r) => Arith(l) && Arith(r)
    case Neg(a) => Arith(a)
    case Assign(_, a) => Arith(a)
    case _ => false
  }

  function LevelOf(e: Expr): nat {
    if e.Bin? then Level(e.op) else UNARY_LEVEL + 1
  }

  /** The right edge of the tree ends in an assignment, which would take in any further operator. */
  predicate Open(e: Expr) {
    match e
    case Bin(_, _, r) => Open(r)
    case Neg(a) => Open(a)
    case Assign(_, _) => true
    case _ => false
  }

  predicate Canonical(e: Expr) {
    match e
    case Number(_) => true
    case Var(_) => true
    case Bin(op, l, r) =>
      Canonical(l) && Canonical(r) && !Open(l) && LevelOf(l) >= Level(op) && LevelOf(r) > Level(op)
    case Neg(a) => Canonical(a) && !a.Bin?
    case Assign(_, a) => Canonical(a)
    case _ => false
  }

  /** The tokens of a tree, left to right. */
  function Yield(e: Expr): seq<Token> {
    match e
    case Number(n) => [NumTok(n)]
    case Var(x) => [IdTok(x)]
    case Bin(op, l, r) => Yield(l) + [OpToken(op)] + Yield(r)
    case Neg(a) => [CharTok('-')] + Yield(a)
    case Assign(x, a) => [IdTok(x), CharTok('=')] + Yield(a)
    case _ => []
  }

  function PendingYield(stack: seq<Pending>): seq<Token> {
    if stack == [] then []
    else
      var below := PendingYield(stack[..|stack| - 1]);
      match stack[|stack| - 1]
      case HaveLeft(l, op) => below + Yield(l) + [OpToken(op)]
      case HaveMinus => below + [CharTok('-')]
      case HaveName(x) => below + [IdTok(x), CharTok('=')]
  }

  /** Operators are stacked on strictly lower levels. */
  predicate StackOk(stack: seq<Pending>) {
    stack != [] ==>
      var below, top := stack[..|stack| - 1], stack[|stack| - 1];
      && StackOk(below)
      && (top.HaveLeft? ==> Canonical(top.l) && !Open(top.l) && LevelOf(top.l) >= Level(top.op) > TopLevel(below))
  }

  /** An operand that fits between the stack and the operator ahead. */
  predicate Fits(stack: seq<Pending>, e: Expr, toks: seq<Token>) {
    && Canonical(e) && LevelOf(e) > TopLevel(stack)
    && (toks != [] && OperatorOf(toks[0]).Some? ==>
          !Open(e) && LevelOf(e) >= Level(OperatorOf(toks[0]).value))
  }

  lemma Push(stack: seq<Pending>, p: Pending)
    ensures PendingYield(stack + [p]) == PendingYield(stack) + PendingYield([p])
    ensures TopLevel(stack + [p]) == RuleLevel(p)
    ensures StackOk(stack + [p]) <==>
            && StackOk(stack)
            && (p.HaveLeft? ==> Canonical(p.l) && !Open(p.l) && LevelOf(p.l) >= Level(p.op) > TopLevel(stack))
  {
    hide Canonical, Open, Yield;
    assert (stack + [p])[..|stack|] == stack;
    assert [p][..0] == [];
    assert PendingYield([]) == [];
  }

  /** Nothing is lost or reordered: the tree's tokens are the tokens read, and the tree is canonical. */
  lemma {:induction false} OperandSound(stack: seq<Pending>, toks: seq<Token>)
    requires StackOk(stack) && Operand(stack, toks).Some?
    ensures var e := Operand(stack, toks).value;
            Canonical(e) && Yield(e) == PendingYield(stack) + toks
    decreases |toks|, |stack|
  {
    hide StackOk, PendingYield;
    match toks[0]
    case NumTok(n) =>
      AfterSound(stack, Number(n), toks[1..]);
    case IdTok(x) =>
      if |toks| > 1 && toks[1] == CharTok('=') {
        Push(stack, HaveName(x));
        NameYield(x);
        OperandSound(stack + [HaveName(x)], toks[2..]);
        assert toks == [IdTok(x), CharTok('=')] + toks[2..];
      } else {
        AfterSound(stack, Var(x), toks[1..]);
      }
    case CharTok(c) =>
      Push(stack, HaveMinus);
      NameYield("");
      OperandSound(stack + [HaveMinus], toks[1..]);
      assert toks == [CharTok('-')] + toks[1..];
    case _ =>
  }

  lemma NameYield(x: string)
    ensures PendingYield([HaveName(x)]) == [IdTok(x), CharTok('=')]
    ensures PendingYield([HaveMinus]) == [CharTok('-')]
  {
    assert [HaveName(x)][..0] == [] && [HaveMinus][..0] == [];
  }

  lemma LeftYield(l: Expr, op: BinOp)
    ensures PendingYield([HaveLeft(l, op)]) == Yield(l) + [OpToken(op)]
  {
    assert [HaveLeft(l, op)][..0] == [];
  }

  lemma ReduceYield(p: Pending, e: Expr)
    ensures Yield(Reduce(p, e)) == PendingYield([p]) + Yield(e)
  {
    assert [p][..0] == [];
  }

  /** What the parser does after an operand, in the three cases. */
  lemma AfterCases(stack: seq<Pending>, e: Expr, toks: seq<Token>)
    requires After(stack, e, toks).Some?
    ensures toks != [] ==> OperatorOf(toks[0]).Some?
    ensures toks == [] && stack == [] ==> After(stack, e, toks) == Some(e)
    ensures stack != [] && (toks != [] ==> TopLevel(stack) >= Level(OperatorOf(toks[0]).value)) ==>
              After(stack, e, toks) == After(stack[..|stack| - 1], Reduce(stack[|stack| - 1], e), toks)
    ensures toks != [] && (stack == [] || TopLevel(stack) < Level(OperatorOf(toks[0]).value)) ==>
              After(stack, e, toks) == Operand(stack + [HaveLeft(e, OperatorOf(toks[0]).value)], toks[1..])
  {
  }

  /** Reducing keeps the operand fitting. */
  lemma ReduceFits(below: seq<Pending>, p: Pending, e: Expr, toks: seq<Token>)
    requires StackOk(below + [p]) && Fits(below + [p], e, toks)
    requires toks != [] ==> OperatorOf(toks[0]).Some? && RuleLevel(p) >= Level(OperatorOf(toks[0]).value)
    ensures StackOk(below) && Fits(below, Reduce(p, e), toks)
  {
    hide StackOk;
    Push(below, p);
    LevelBound(below);
  }

  lemma LevelBound(stack: seq<Pending>)
    ensures TopLevel(stack) <= UNARY_LEVEL
  {
  }

  lemma {:induction false} AfterSound(stack: seq<Pending>, e: Expr, toks: seq<Token>)
    requires StackOk(stack) && Fits(stack, e, toks) && After(stack, e, toks).Some?
    ensures var r := After(stack, e, toks).value;
            Canonical(r) && Yield(r) == PendingYield(stack) + Yield(e) + toks
    decreases |toks|, |stack|
  {
    hide StackOk, PendingYield, After, Operand, Yield, OperatorOf, Fits, Canonical, Reduce, Level, TopLevel;
    AfterCases(stack, e, toks);
    if toks == [] && stack == [] {
      NothingPending(e);
    } else if stack != [] && (toks != [] ==> TopLevel(stack) >= Level(OperatorOf(toks[0]).value)) {
      var below, p := stack[..|stack| - 1], stack[|stack| - 1];
      assert stack == below + [p];
      TopIs(below, p);
      ReduceFits(below, p, e, toks);
      Push(below, p);
      ReduceYield(p, e);
      AfterSound(below, Reduce(p, e), toks);
      Rejoin(PendingYield(below), PendingYield([p]), Yield(e), toks);
    } else {
      ShiftSound(stack, e, toks);
    }
  }

  lemma {:induction false} ShiftSound(stack: seq<Pending>, e: Expr, toks: seq<Token>)
    requires StackOk(stack) && Fits(stack, e, toks) && toks != [] && OperatorOf(toks[0]).Some?
    requires var op := OperatorOf(toks[0]).value;
             (stack == [] || TopLevel(stack) < Level(op)) && Operand(stack + [HaveLeft(e, op)], toks[1..]).Some?
    ensures var r := Operand(stack + [HaveLeft(e, OperatorOf(toks[0]).value)], toks[1..]).value;
            Canonical(r) && Yield(r) == PendingYield(stack) + Yield(e) + toks
    decreases |toks|, |stack|, 0
  {
    hide StackOk, PendingYield, Operand, Yield;
    var op := OperatorOf(toks[0]).value;
    Push(stack, HaveLeft(e, op));
    LeftYield(e, op);
    OperandSound(stack + [HaveLeft(e, op)], toks[1..]);
    assert toks == [OpToken(op)] + toks[1..];
  }

  lemma Rejoin(a: seq<Token>, b: seq<Token>, c: seq<Token>, d: seq<Token>)
    ensures a + (b + c) + d == a + b + c + d
  {
  }

  lemma TopIs(below: seq<Pending>, p: Pending)
    ensures TopLevel(below + [p]) == RuleLevel(p)
  {
  }

  lemma NothingPending(e: Expr)
    ensures PendingYield([]) + Yield(e) + [] == Yield(e)
    ensures Fits([], e, []) ==> Canonical(e)
  {
  }

  lemma NoYield()
    ensures PendingYield([]) == []
  {
  }

  lemma ShiftOperator(stack: seq<Pending>, e: Expr, op: BinOp, more: seq<Token>)
    requires TopLevel(stack) < Level(op)
    ensures After(stack, e, [OpToken(op)] + more) == Operand(stack + [HaveLeft(e, op)], more)
  {
    var toks := [OpToken(op)] + more;
    assert OperatorOf(toks[0]) == Some(op) && toks[1..] == more;
  }

  lemma ReduceTop(stack: seq<Pending>, p: Pending, e: Expr, rest: seq<Token>)
    requires rest == [] || (OperatorOf(rest[0]).Some? && RuleLevel(p) >= Level(OperatorOf(rest[0]).value))
    ensures After(stack + [p], e, rest) == After(stack, Reduce(p, e), rest)
  {
    assert (stack + [p])[..|stack|] == stack;
  }

  lemma ShiftPrefix(stack: seq<Pending>, x: string, more: seq<Token>)
    ensures Operand(stack, [CharTok('-')] + more) == Operand(stack + [HaveMinus], more)
    ensures Operand(stack, [IdTok(x), CharTok('=')] + more) == Operand(stack + [HaveName(x)], more)
  {
    assert ([CharTok('-')] + more)[1..] == more;
    assert ([IdTok(x), CharTok('=')] + more)[2..] == more;
  }

  lemma ReadLeaf(stack: seq<Pending>, e: Expr, rest: seq<Token>)
    requires (e.Number? || e.Var?) && (rest != [] ==> rest[0] != CharTok('='))
    ensures Operand(stack, Yield(e) + rest) == After(stack, e, rest)
  {
    assert (Yield(e) + rest)[1..] == rest;
  }

  /** A canonical tree's tokens are read back as that tree, in front of anything that cannot bind into it. */
  lemma {:induction false} OperandComplete(stack: seq<Pending>, e: Expr, rest: seq<Token>)
    requires Fits(stack, e, rest) && (rest == [] || OperatorOf(rest[0]).Some?)
    ensures Operand(stack, Yield(e) + rest) == After(stack, e, rest)
    decreases e
  {
    hide Operand, After;
    match e
    case Number(n) => ReadLeaf(stack, e, rest);
    case Var(x) => ReadLeaf(stack, e, rest);
    case Neg(a) =>
      ShiftPrefix(stack, "", Yield(a) + rest);
      assert Yield(e) + rest == [CharTok('-')] + (Yield(a) + rest);
      OperandComplete(stack + [HaveMinus], a, rest);
      ReduceTop(stack, HaveMinus, a, rest);
    case Assign(x, a) =>
      ShiftPrefix(stack, x, Yield(a) + rest);
      assert Yield(e) + rest == [IdTok(x), CharTok('=')] + (Yield(a) + rest);
      OperandComplete(stack + [HaveName(x)], a, rest);
      ReduceTop(stack, HaveName(x), a, rest);
    case Bin(op, l, r) => BinComplete(stack, e, rest);
    case _ =>
  }

  lemma {:induction false} BinComplete(stack: seq<Pending>, e: Expr, rest: seq<Token>)
    requires e.Bin? && Fits(stack, e, rest) && (rest == [] || OperatorOf(rest[0]).Some?)
    ensures Operand(stack, Yield(e) + rest) == After(stack, e, rest)
    decreases e, 0
  {
    var l, r, op := e.left, e.right, e.op;
    var p := HaveLeft(l, op);
    var more := [OpToken(op)] + (Yield(r) + rest);
    BinFits(stack, e, rest);
    assert Yield(e) + rest == Yield(l) + more;
    hide Operand, After, Fits, Yield;
    OperandComplete(stack, l, more);
    ShiftOperator(stack, l, op, Yield(r) + rest);
    OperandComplete(stack + [p], r, rest);
    ReduceTop(stack, p, r, rest);
  }

  lemma BinFits(stack: seq<Pending>, e: Expr, rest: seq<Token>)
    requires e.Bin? && Fits(stack, e, rest)
    ensures Level(e.op) > TopLevel(stack) && Fits(stack + [HaveLeft(e.left, e.op)], e.right, rest)
    ensures Fits(stack, e.left, [OpToken(e.op)] + (Yield(e.right) + rest))
    ensures OperatorOf(OpToken(e.op)) == Some(e.op)
    ensures rest != [] && OperatorOf(rest[0]).Some? ==> Level(e.op) >= Level(OperatorOf(rest[0]).value)
  {
  }

  /** The parser and the left-to-right reading of a tree are inverse on exactly the canonical trees, and
      the parser builds no other tree. */
  lemma ParseInverse(toks: seq<Token>, e: Expr)
    ensures Parse(toks) == Some(e) <==> Canonical(e) && Yield(e) == toks
  {
    NoYield();
    if Parse(toks) == Some(e) {
      OperandSound([], toks);
    }
    if Canonical(e) && Yield(e) == toks {
      assert toks + [] == toks;
      OperandComplete([], e, []);
    }
  }
}
