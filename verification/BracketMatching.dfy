/** Bracket matching in structured code: the machine's forward scans find the brackets of the statement
    they start in, because the code of every node is balanced. */
module BracketMatching {
  import opened Values
  import opened Bytecode
  import opened Source
  import opened Machine
  import opened Codegen
  import opened Simulation

  /** Walk over a stretch of code with `count` brackets open: the count afterwards, or 0 if the scan
      stops inside. */
  function Walk(seg: seq<Instr>, count: nat, br: Bracket): nat
  {
    if seg == [] || count == 0 then count
    else if seg[0] == Do(br.open) then Walk(seg[1..], count + 1, br)
    else if seg[0] == Do(br.close) then Walk(seg[1..], count - 1, br)
    else if seg[0] == Do(CONDELSE) && count == 1 && br.stopAtElse then 0
    else Walk(seg[1..], count, br)
  }

  predicate IsScan(br: Bracket) {
    br == TO_ELSE || br == TO_CONDEND || br == TO_LOOPEND
  }

  /** No scan stops inside the stretch or leaves it with another count. */
  ghost predicate Balanced(seg: seq<Instr>) {
    forall count: nat, br :: count > 0 && IsScan(br) ==> Walk(seg, count, br) == count
  }

  lemma {:induction false} WalkConcat(s: seq<Instr>, t: seq<Instr>, count: nat, br: Bracket)
    ensures Walk(s + t, count, br) == Walk(t, Walk(s, count, br), br)
    decreases |s|
  {
    if s == [] {
      assert s + t == t;
    } else if count > 0 {
      assert (s + t)[0] == s[0] && (s + t)[1..] == s[1..] + t;
      WalkConcat(s[1..], t, count + 1, br);
      WalkConcat(s[1..], t, count - 1, br);
      WalkConcat(s[1..], t, count, br);
    }
  }

  /** A scan passes over a stretch that it does not stop in. */
  lemma {:induction false} ScanPasses(code: seq<Instr>, pc: nat, seg: seq<Instr>, count: nat, br: Bracket)
    requires count > 0 && CodeAt(code, pc + 1, seg) && Walk(seg, count, br) > 0
    ensures Scan(code, pc, count, br) == Scan(code, pc + |seg|, Walk(seg, count, br), br)
    decreases |seg|
  {
    if seg != [] {
      Cell(code, pc + 1, seg, 0);
      assert seg == seg[..1] + seg[1..];
      SplitAt(code, pc + 1, seg[..1], seg[1..]);
      var c := if seg[0] == Do(br.open) then count + 1 else if seg[0] == Do(br.close) then count - 1 else count;
      assert Walk(seg, count, br) == Walk(seg[1..], c, br);
      ScanPasses(code, pc + 1, seg[1..], c, br);
    }
  }

  predicate Plain(i: Instr) {
    i.Push? || i.op !in {CONDBEGIN, CONDELSE, CONDEND, LOOPBEGIN, LOOPEND}
  }

  lemma {:induction false} PlainBalanced(seg: seq<Instr>)
    requires forall i :: 0 <= i < |seg| ==> Plain(seg[i])
    ensures Balanced(seg)
  {
    if seg != [] {
      PlainBalanced(seg[1..]);
      forall count: nat, br | count > 0 && IsScan(br) ensures Walk(seg, count, br) == count {
        assert Walk(seg[1..], count, br) == count;
      }
    }
  }

  lemma BalancedConcat(s: seq<Instr>, t: seq<Instr>)
    requires Balanced(s) && Balanced(t)
    ensures Balanced(s + t)
  {
    forall count: nat, br | count > 0 && IsScan(br) ensures Walk(s + t, count, br) == count {
      WalkConcat(s, t, count, br);
    }
  }

  lemma WalkOne(i: Instr, count: nat, br: Bracket)
    requires count > 0
    ensures Walk([i], count, br) ==
            if i == Do(br.open) then count + 1
            else if i == Do(br.close) then count - 1
            else if i == Do(CONDELSE) && count == 1 && br.stopAtElse then 0 else count
  {
    assert [i][1..] == [];
  }

  lemma CondBalanced(t: seq<Instr>, f: seq<Instr>)
    requires Balanced(t) && Balanced(f)
    ensures Balanced([Do(CONDBEGIN)] + t + [Do(CONDELSE)] + f + [Do(CONDEND)])
  {
    forall count: nat, br | count > 0 && IsScan(br)
      ensures Walk([Do(CONDBEGIN)] + t + [Do(CONDELSE)] + f + [Do(CONDEND)], count, br) == count
    {
      var c := if br.open == CONDBEGIN then count + 1 else count;
      WalkOne(Do(CONDBEGIN), count, br);
      WalkConcat([Do(CONDBEGIN)], t, count, br);
      WalkConcat([Do(CONDBEGIN)] + t, [Do(CONDELSE)], count, br);
      WalkOne(Do(CONDELSE), c, br);
      WalkConcat([Do(CONDBEGIN)] + t + [Do(CONDELSE)], f, count, br);
      WalkConcat([Do(CONDBEGIN)] + t + [Do(CONDELSE)] + f, [Do(CONDEND)], count, br);
      WalkOne(Do(CONDEND), c, br);
    }
  }

  lemma LoopBalanced(c: seq<Instr>, body: seq<Instr>)
    requires Balanced(c) && Balanced(body)
    ensures Balanced([Do(LOOPBEGIN)] + c + [Do(LOOPBODY)] + body + [Do(LOOPEND)])
  {
    forall count: nat, br | count > 0 && IsScan(br)
      ensures Walk([Do(LOOPBEGIN)] + c + [Do(LOOPBODY)] + body + [Do(LOOPEND)], count, br) == count
    {
      var n := if br.open == LOOPBEGIN then count + 1 else count;
      WalkOne(Do(LOOPBEGIN), count, br);
      WalkConcat([Do(LOOPBEGIN)], c, count, br);
      WalkConcat([Do(LOOPBEGIN)] + c, [Do(LOOPBODY)], count, br);
      WalkOne(Do(LOOPBODY), n, br);
      WalkConcat([Do(LOOPBEGIN)] + c + [Do(LOOPBODY)], body, count, br);
      WalkConcat([Do(LOOPBEGIN)] + c + [Do(LOOPBODY)] + body, [Do(LOOPEND)], count, br);
      WalkOne(Do(LOOPEND), n, br);
    }
  }

  lemma IfBalanced(b: nat, c: seq<Instr>, t: seq<Instr>, f: seq<Instr>, scheme: Scheme)
    requires Balanced(c) && Balanced(t) && Balanced(f)
    ensures Balanced(IfCode(b, c, t, f, scheme))
  {
    hide Balanced;
    match scheme
    case Jumps =>
      var els := b + |c| + 2 + |t| + 2;
      var j1, j2 := [Push(els), Do(JUMPF)], [Push(els + |f|), Do(JUMP)];
      PlainBalanced(j1);
      PlainBalanced(j2);
      PlainBalanced([Push(0)]);
      BalancedConcat(c, j1);
      BalancedConcat(c + j1, t);
      BalancedConcat(c + j1 + t, j2);
      BalancedConcat(c + j1 + t + j2, f);
      BalancedConcat(c + j1 + t + j2 + f, [Push(0)]);
    case Brackets =>
      var inner := [Do(CONDBEGIN)] + t + [Do(CONDELSE)] + f + [Do(CONDEND)];
      CondBalanced(t, f);
      PlainBalanced([Push(0)]);
      BalancedConcat(c, inner);
      BalancedConcat(c + inner, [Push(0)]);
      assert IfCode(b, c, t, f, scheme) == c + inner + [Push(0)];
  }

  lemma WhileBalanced(b: nat, c: seq<Instr>, body: seq<Instr>, scheme: Scheme)
    requires Balanced(c) && Balanced(body)
    ensures Balanced(WhileCode(b, c, body, scheme))
  {
    hide Balanced;
    match scheme
    case Jumps =>
      var j1, j2 := [Push(b + |c| + 2 + |body| + 2), Do(JUMPF)], [Push(b), Do(JUMP)];
      PlainBalanced(j1);
      PlainBalanced(j2);
      PlainBalanced([Push(0)]);
      BalancedConcat(c, j1);
      BalancedConcat(c + j1, body);
      BalancedConcat(c + j1 + body, j2);
      BalancedConcat(c + j1 + body + j2, [Push(0)]);
    case Brackets =>
      var inner := [Do(LOOPBEGIN)] + c + [Do(LOOPBODY)] + body + [Do(LOOPEND)];
      LoopBalanced(c, body);
      PlainBalanced([Push(0)]);
      BalancedConcat(inner, [Push(0)]);
      assert WhileCode(b, c, body, scheme) == inner + [Push(0)];
  }

  lemma AccessBalanced(x: string, t: Tables)
    ensures Balanced(GetVar(x, t)) && Balanced(SetVar(x, t)) && Balanced(Constant(x, t))
  {
    hide Balanced;
    PlainBalanced(GetVar(x, t));
    PlainBalanced(SetVar(x, t));
    PlainBalanced(Constant(x, t));
  }

  lemma OperatorBalanced(op: BinOp)
    ensures Balanced([Do(OpFor(op))])
  {
    hide Balanced;
    PlainBalanced([Do(OpFor(op))]);
  }

  /** The code of every node is balanced, under both lowerings. */
  lemma {:induction false} CodeBalanced(e: Expr, b: nat, t: Tables)
    ensures Balanced(Code(e, b, t))
    decreases e
  {
    hide Balanced, IfCode, WhileCode, GetVar, SetVar, Constant, OpFor;
    match e
    case Number(n) => PlainBalanced([Push(n)]);
    case Text(s) => AccessBalanced(s, t);
    case Var(x) => AccessBalanced(x, t);
    case Bin(op, l, r) =>
      var cr := Code(r, b, t);
      CodeBalanced(r, b, t);
      CodeBalanced(l, b + |cr|, t);
      OperatorBalanced(op);
      BalancedConcat(cr, Code(l, b + |cr|, t));
      BalancedConcat(cr + Code(l, b + |cr|, t), [Do(OpFor(op))]);
    case Neg(a) =>
      CodeBalanced(a, b, t);
      PlainBalanced([Do(NEGATE)]);
      BalancedConcat(Code(a, b, t), [Do(NEGATE)]);
    case Assign(x, a) =>
      CodeBalanced(a, b, t);
      AccessBalanced(x, t);
      BalancedConcat(Code(a, b, t), SetVar(x, t));
      BalancedConcat(Code(a, b, t) + SetVar(x, t), GetVar(x, t));
    case Index(x, i) =>
      CodeBalanced(i, b, t);
      AccessBalanced(x, t);
      PlainBalanced([Do(INDEX1)]);
      BalancedConcat(Code(i, b, t), GetVar(x, t));
      BalancedConcat(Code(i, b, t) + GetVar(x, t), [Do(INDEX1)]);
    case IndexAssign(x, i, a) =>
      var ca := Code(a, b, t);
      var ci := Code(i, b + |ca|, t);
      CodeBalanced(a, b, t);
      CodeBalanced(i, b + |ca|, t);
      AccessBalanced(x, t);
      PlainBalanced([Do(INDEXAS)]);
      BalancedConcat(ca, ci);
      BalancedConcat(ca + ci, GetVar(x, t));
      BalancedConcat(ca + ci + GetVar(x, t), [Do(INDEXAS)]);
    case Array(es) =>
      ListBalanced(es, b, t);
      PlainBalanced([Push(es.Length()), Do(MKARRAY)]);
      BalancedConcat(CodeList(es, b, t), [Push(es.Length()), Do(MKARRAY)]);
    case Call(f, args) =>
      var ca := CodeList(args, b, t);
      ListBalanced(args, b, t);
      PlainBalanced([Push(args.Length())]);
      AccessBalanced(f, t);
      PlainBalanced([Do(CALL)]);
      BalancedConcat(ca, [Push(args.Length())]);
      BalancedConcat(ca + [Push(args.Length())], Constant(f, t));
      BalancedConcat(ca + [Push(args.Length())] + Constant(f, t), [Do(CALL)]);
    case If(c, th, el) =>
      var cc := Code(c, b, t);
      var b1 := b + |cc| + Gap(t.scheme);
      var ct := CodeStmts(th, b1, t);
      var b2 := b1 + |ct| + Gap(t.scheme);
      CodeBalanced(c, b, t);
      StmtsBalanced(th, b1, t);
      StmtsBalanced(el, b2, t);
      IfBalanced(b, cc, ct, CodeStmts(el, b2, t), t.scheme);
    case While(c, body) =>
      var b0 := b + LoopGap(t.scheme);
      var cc := Code(c, b0, t);
      var b1 := b0 + |cc| + Gap(t.scheme);
      CodeBalanced(c, b0, t);
      StmtsBalanced(body, b1, t);
      WhileBalanced(b, cc, CodeStmts(body, b1, t), t.scheme);
    case Return(a) =>
      CodeBalanced(a, b, t);
      PlainBalanced([Do(RET)]);
      BalancedConcat(Code(a, b, t), [Do(RET)]);
  }

  lemma {:induction false} ListBalanced(es: Exprs, b: nat, t: Tables)
    ensures Balanced(CodeList(es, b, t))
    decreases es
  {
    hide Balanced;
    if es.Nil? {
      PlainBalanced([]);
    } else {
      var cl := Code(es.last, b, t);
      CodeBalanced(es.last, b, t);
      ListBalanced(es.init, b + |cl|, t);
      BalancedConcat(cl, CodeList(es.init, b + |cl|, t));
    }
  }

  lemma {:induction false} StmtsBalanced(es: Exprs, b: nat, t: Tables)
    ensures Balanced(CodeStmts(es, b, t))
    decreases es
  {
    hide Balanced;
    if es.Nil? {
      PlainBalanced([]);
    } else {
      var ci := CodeStmts(es.init, b, t);
      StmtsBalanced(es.init, b, t);
      CodeBalanced(es.last, b + |ci|, t);
      PlainBalanced([Do(DISCARD)]);
      BalancedConcat(ci, Code(es.last, b + |ci|, t));
      BalancedConcat(ci + Code(es.last, b + |ci|, t), [Do(DISCARD)]);
    }
  }

  /** A scan that starts with its own bracket open passes a balanced stretch and stops at the bracket
      after it. */
  lemma ScanStops(code: seq<Instr>, pc: nat, seg: seq<Instr>, stop: Instr, br: Bracket)
    requires IsScan(br) && Balanced(seg) && CodeAt(code, pc + 1, seg + [stop])
    requires stop == Do(if br.stopAtElse then CONDELSE else br.close)
    ensures Scan(code, pc, 1, br) == pc + |seg| + 1
  {
    assert Walk(seg, 1, br) == 1;
    SplitAt(code, pc + 1, seg, [stop]);
    ScanPasses(code, pc, seg, 1, br);
    Cell(code, pc + 1 + |seg|, [stop], 0);
  }

  /** From CONDBEGIN on a false condition the scan stops exactly at this statement's CONDELSE, and from
      CONDELSE exactly at its CONDEND. */
  lemma {:induction false} CondScans(code: seq<Instr>, at: nat, t: seq<Instr>, f: seq<Instr>)
    requires CodeAt(code, at, [Do(CONDBEGIN)] + t + [Do(CONDELSE)] + f + [Do(CONDEND)])
    requires Balanced(t) && Balanced(f)
    ensures Scan(code, at, 1, TO_ELSE) == at + 1 + |t|
    ensures Scan(code, at + 1 + |t|, 1, TO_CONDEND) == at + |t| + |f| + 2
  {
    hide CodeAt, Scan, Balanced;
    var cb, ce := [Do(CONDBEGIN)], [Do(CONDELSE)];
    assert cb + t + ce + f + [Do(CONDEND)] == cb + (t + ce) + (f + [Do(CONDEND)]);
    SplitAt(code, at, cb + (t + ce), f + [Do(CONDEND)]);
    SplitAt(code, at, cb, t + ce);
    ScanStops(code, at, t, Do(CONDELSE), TO_ELSE);
    ScanStops(code, at + 1 + |t|, f, Do(CONDEND), TO_CONDEND);
  }

  /** From LOOPBODY on a false condition the scan stops exactly at this loop's LOOPEND. */
  lemma LoopScan(code: seq<Instr>, at: nat, body: seq<Instr>)
    requires CodeAt(code, at, [Do(LOOPBODY)] + body + [Do(LOOPEND)])
    requires Balanced(body)
    ensures Scan(code, at, 1, TO_LOOPEND) == at + |body| + 1
  {
    hide CodeAt, Scan, Balanced;
    assert [Do(LOOPBODY)] + body + [Do(LOOPEND)] == [Do(LOOPBODY)] + (body + [Do(LOOPEND)]);
    SplitAt(code, at, [Do(LOOPBODY)], body + [Do(LOOPEND)]);
    ScanStops(code, at, body, Do(LOOPEND), TO_LOOPEND);
  }
}
