/** Where the jumps of generated code go. */
module JumpTargets {
  import opened Bytecode
  import opened Source
  import opened Codegen

  predicate IsJump(i: Instr) {
    i == Do(JUMP) || i == Do(JUMPF)
  }

  /** Every jump takes its target from the cell before it, and the target lies in lo..hi. */
  predicate Inside(seg: seq<Instr>, lo: int, hi: int) {
    forall i :: 0 <= i < |seg| && IsJump(seg[i]) ==> i > 0 && seg[i - 1].Push? && lo <= seg[i - 1].n <= hi
  }

  /** A stretch of code at `b` whose jumps stay within it or go to the cell just after it. */
  predicate Closed(b: nat, seg: seq<Instr>) {
    Inside(seg, b, b + |seg|)
  }

  lemma InsideConcat(s: seq<Instr>, t: seq<Instr>, lo: int, hi: int)
    requires Inside(s, lo, hi) && Inside(t, lo, hi)
    ensures Inside(s + t, lo, hi)
  {
    forall i | 0 <= i < |s + t| && IsJump((s + t)[i])
      ensures i > 0 && (s + t)[i - 1].Push? && lo <= (s + t)[i - 1].n <= hi
    {
      if i >= |s| { assert IsJump(t[i - |s|]); }
    }
  }

  lemma ClosedConcat(b: nat, s: seq<Instr>, t: seq<Instr>)
    requires Closed(b, s) && Closed(b + |s|, t)
    ensures Closed(b, s + t)
  {
    InsideConcat(s, t, b, b + |s + t|);
  }

  lemma PlainClosed(b: nat, s: seq<Instr>)
    requires forall i :: 0 <= i < |s| ==> !IsJump(s[i])
    ensures Closed(b, s)
  {
  }

  lemma JumpInside(n: int, op: Opcode, lo: int, hi: int)
    requires lo <= n <= hi
    ensures Inside([Push(n), Do(op)], lo, hi)
  {
  }

  lemma Widen(b: nat, s: seq<Instr>, lo: int, hi: int)
    requires Closed(b, s) && lo <= b && b + |s| <= hi
    ensures Inside(s, lo, hi)
  {
  }

  lemma Tight(b: nat, s: seq<Instr>)
    requires Inside(s, b, b + |s|)
    ensures Closed(b, s)
  {
  }

  lemma InsideFour(s1: seq<Instr>, s2: seq<Instr>, s3: seq<Instr>, s4: seq<Instr>, lo: int, hi: int)
    requires Inside(s1, lo, hi) && Inside(s2, lo, hi) && Inside(s3, lo, hi) && Inside(s4, lo, hi)
    ensures Inside(s1 + s2 + s3 + s4, lo, hi)
  {
    hide Inside;
    InsideConcat(s1, s2, lo, hi);
    InsideConcat(s1 + s2, s3, lo, hi);
    InsideConcat(s1 + s2 + s3, s4, lo, hi);
  }

  lemma IfJumpsClosed(b: nat, c: seq<Instr>, t: seq<Instr>, f: seq<Instr>)
    requires Closed(b, c) && Closed(ThenAt(b, c, Jumps), t) && Closed(ElseAt(b, c, t, Jumps), f)
    ensures Closed(b, IfCode(b, c, t, f, Jumps))
  {
    var els := b + |c| + 2 + |t| + 2;
    var j1, j2 := [Push(els), Do(JUMPF)], [Push(els + |f|), Do(JUMP)];
    var hi := els + |f| + 1;
    hide Inside;
    Widen(b, c, b, hi);
    Widen(b + |c| + 2, t, b, hi);
    Widen(els, f, b, hi);
    hide Closed;
    JumpInside(els, JUMPF, b, hi);
    JumpInside(els + |f|, JUMP, b, hi);
    InsideFour(c, j1, t, j2, b, hi);
    InsideConcat(c + j1 + t + j2, f, b, hi);
    PlainInside([Push(0)], b, hi);
    InsideConcat(c + j1 + t + j2 + f, [Push(0)], b, hi);
    Tight(b, IfCode(b, c, t, f, Jumps));
  }

  lemma PlainInside(s: seq<Instr>, lo: int, hi: int)
    requires forall i :: 0 <= i < |s| ==> !IsJump(s[i])
    ensures Inside(s, lo, hi)
  {
  }

  lemma IfBracketsClosed(b: nat, c: seq<Instr>, t: seq<Instr>, f: seq<Instr>)
    requires Closed(b, c) && Closed(ThenAt(b, c, Brackets), t) && Closed(ElseAt(b, c, t, Brackets), f)
    ensures Closed(b, IfCode(b, c, t, f, Brackets))
  {
    hide Closed;
    var b1, b2 := ThenAt(b, c, Brackets), ElseAt(b, c, t, Brackets);
    PlainClosed(b + |c|, [Do(CONDBEGIN)]);
    PlainClosed(b1 + |t|, [Do(CONDELSE)]);
    PlainClosed(b2 + |f|, [Do(CONDEND), Push(0)]);
    ClosedConcat(b, c, [Do(CONDBEGIN)]);
    ClosedConcat(b, c + [Do(CONDBEGIN)], t);
    ClosedConcat(b, c + [Do(CONDBEGIN)] + t, [Do(CONDELSE)]);
    ClosedConcat(b, c + [Do(CONDBEGIN)] + t + [Do(CONDELSE)], f);
    ClosedConcat(b, c + [Do(CONDBEGIN)] + t + [Do(CONDELSE)] + f, [Do(CONDEND), Push(0)]);
  }

  lemma WhileJumpsClosed(b: nat, c: seq<Instr>, body: seq<Instr>)
    requires Closed(b, c) && Closed(BodyAt(b, c, Jumps), body)
    ensures Closed(b, WhileCode(b, c, body, Jumps))
  {
    var j1, j2 := [Push(b + |c| + 2 + |body| + 2), Do(JUMPF)], [Push(b), Do(JUMP)];
    var hi := b + |c + j1 + body + j2 + [Push(0)]|;
    assert Inside(c, b, hi) && Inside(body, b, hi);
    hide Inside;
    JumpInside(b + |c| + 2 + |body| + 2, JUMPF, b, hi);
    JumpInside(b, JUMP, b, hi);
    InsideFour(c, j1, body, j2, b, hi);
    PlainInside([Push(0)], b, hi);
    InsideConcat(c + j1 + body + j2, [Push(0)], b, hi);
  }

  lemma WhileBracketsClosed(b: nat, c: seq<Instr>, body: seq<Instr>)
    requires Closed(b + 1, c) && Closed(BodyAt(b, c, Brackets), body)
    ensures Closed(b, WhileCode(b, c, body, Brackets))
  {
    hide Closed;
    var b1 := BodyAt(b, c, Brackets);
    PlainClosed(b, [Do(LOOPBEGIN)]);
    PlainClosed(b + 1 + |c|, [Do(LOOPBODY)]);
    PlainClosed(b1 + |body|, [Do(LOOPEND), Push(0)]);
    ClosedConcat(b, [Do(LOOPBEGIN)], c);
    ClosedConcat(b, [Do(LOOPBEGIN)] + c, [Do(LOOPBODY)]);
    ClosedConcat(b, [Do(LOOPBEGIN)] + c + [Do(LOOPBODY)], body);
    ClosedConcat(b, [Do(LOOPBEGIN)] + c + [Do(LOOPBODY)] + body, [Do(LOOPEND), Push(0)]);
  }

  /** Every jump inside the code of a node goes to one of the node's own cells or to the cell just after
      it. */
  lemma {:induction false} TargetsInside(e: Expr, b: nat, t: Tables)
    ensures Closed(b, Code(e, b, t))
    decreases e
  {
    hide Closed, IfCode, WhileCode;
    match e
    case Number(n) => PlainClosed(b, [Push(n)]);
    case Text(s) => PlainClosed(b, Constant(s, t));
    case Var(x) => PlainClosed(b, GetVar(x, t));
    case Bin(op, l, r) =>
      var cr := Code(r, b, t);
      var cl := Code(l, b + |cr|, t);
      TargetsInside(r, b, t);
      TargetsInside(l, b + |cr|, t);
      ClosedConcat(b, cr, cl);
      PlainTail(b, cr + cl, [Do(OpFor(op))]);
    case Neg(a) =>
      TargetsInside(a, b, t);
      PlainTail(b, Code(a, b, t), [Do(NEGATE)]);
    case Assign(x, a) =>
      TargetsInside(a, b, t);
      PlainTail(b, Code(a, b, t), SetVar(x, t));
      PlainTail(b, Code(a, b, t) + SetVar(x, t), GetVar(x, t));
    case Index(x, i) =>
      TargetsInside(i, b, t);
      PlainTail(b, Code(i, b, t), GetVar(x, t));
      PlainTail(b, Code(i, b, t) + GetVar(x, t), [Do(INDEX1)]);
    case IndexAssign(x, i, a) =>
      var ca := Code(a, b, t);
      var ci := Code(i, b + |ca|, t);
      TargetsInside(a, b, t);
      TargetsInside(i, b + |ca|, t);
      ClosedConcat(b, ca, ci);
      PlainTail(b, ca + ci, GetVar(x, t));
      PlainTail(b, ca + ci + GetVar(x, t), [Do(INDEXAS)]);
    case Array(es) =>
      ListTargets(es, b, t);
      PlainTail(b, CodeList(es, b, t), [Push(es.Length()), Do(MKARRAY)]);
    case Call(f, args) =>
      var ca := CodeList(args, b, t);
      ListTargets(args, b, t);
      PlainTail(b, ca, [Push(args.Length())]);
      PlainTail(b, ca + [Push(args.Length())], Constant(f, t));
      PlainTail(b, ca + [Push(args.Length())] + Constant(f, t), [Do(CALL)]);
    case If(_, _, _) => IfTargets(e, b, t);
    case While(_, _) => WhileTargets(e, b, t);
    case Return(a) =>
      TargetsInside(a, b, t);
      PlainTail(b, Code(a, b, t), [Do(RET)]);
  }

  lemma PlainTail(b: nat, s: seq<Instr>, tail: seq<Instr>)
    requires Closed(b, s) && forall i :: 0 <= i < |tail| ==> !IsJump(tail[i])
    ensures Closed(b, s + tail)
  {
    hide Closed;
    PlainClosed(b + |s|, tail);
    ClosedConcat(b, s, tail);
  }

  lemma {:induction false} IfTargets(e: Expr, b: nat, t: Tables)
    requires e.If?
    ensures Closed(b, Code(e, b, t))
    decreases e, 0
  {
    hide Closed, Code, CodeStmts, ThenAt, ElseAt, IfCode;
    var cc := Code(e.cond, b, t);
    var b1 := ThenAt(b, cc, t.scheme);
    var ct := CodeStmts(e.thn, b1, t);
    var b2 := ElseAt(b, cc, ct, t.scheme);
    IfCodeIs(e, b, t);
    TargetsInside(e.cond, b, t);
    StmtsTargets(e.thn, b1, t);
    StmtsTargets(e.els, b2, t);
    match t.scheme
    case Jumps => IfJumpsClosed(b, cc, ct, CodeStmts(e.els, b2, t));
    case Brackets => IfBracketsClosed(b, cc, ct, CodeStmts(e.els, b2, t));
  }

  lemma {:induction false} WhileTargets(e: Expr, b: nat, t: Tables)
    requires e.While?
    ensures Closed(b, Code(e, b, t))
    decreases e, 0
  {
    hide Closed, WhileCode, BodyAt;
    var b0 := b + LoopGap(t.scheme);
    var cc := Code(e.cond, b0, t);
    var b1 := BodyAt(b, cc, t.scheme);
    TargetsInside(e.cond, b0, t);
    StmtsTargets(e.body, b1, t);
    match t.scheme
    case Jumps => WhileJumpsClosed(b, cc, CodeStmts(e.body, b1, t));
    case Brackets => WhileBracketsClosed(b, cc, CodeStmts(e.body, b1, t));
  }

  lemma {:induction false} ListTargets(es: Exprs, b: nat, t: Tables)
    ensures Closed(b, CodeList(es, b, t))
    decreases es
  {
    hide Closed, Code;
    if es.Nil? {
      PlainClosed(b, []);
    } else {
      var cl := Code(es.last, b, t);
      TargetsInside(es.last, b, t);
      ListTargets(es.init, b + |cl|, t);
      ClosedConcat(b, cl, CodeList(es.init, b + |cl|, t));
    }
  }

  lemma {:induction false} StmtsTargets(es: Exprs, b: nat, t: Tables)
    ensures Closed(b, CodeStmts(es, b, t))
    decreases es
  {
    hide Closed, Code;
    if es.Nil? {
      PlainClosed(b, []);
    } else {
      var ci := CodeStmts(es.init, b, t);
      var cl := Code(es.last, b + |ci|, t);
      StmtsTargets(es.init, b, t);
      TargetsInside(es.last, b + |ci|, t);
      ClosedConcat(b, ci, cl);
      PlainTail(b, ci + cl, [Do(DISCARD)]);
    }
  }
}
