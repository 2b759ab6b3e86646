/** The compiler as it is written: one pass over the tree that appends cells to the program, patches
    jump targets once they are known, and grows the tables of constants, functions and variables. */
module CompilerPass {
  import opened Values
  import opened Bytecode
  import opened Source
  import opened Codegen
  import opened Linking
  import opened Stability
  import opened Machine

  // ----- room for the result in C ints -----

  predicate Room(b: nat, cells: nat, t: Tables) {
    b + cells <= INT_MAX && |t.vars| <= INT_MAX && |t.consts| <= INT_MAX
  }

  predicate Fits(e: Expr, b: nat, t: Tables) {
    Literals(e) && Room(b, |Code(e, b, After(e, t))|, After(e, t))
  }

  predicate FitsList(es: Exprs, b: nat, t: Tables) {
    AllLiterals(es) && Room(b, |CodeList(es, b, AfterList(es, t))|, AfterList(es, t))
  }

  predicate FitsStmts(es: Exprs, b: nat, t: Tables) {
    AllLiterals(es) && Room(b, |CodeStmts(es, b, AfterStmts(es, t))|, AfterStmts(es, t))
  }

  // ----- how the code of a node is put together from that of its parts, table growth included -----

  lemma Stable(e: Expr, b: nat, t: Tables, t': Tables)
    requires Extends(After(e, t), t')
    ensures Code(e, b, After(e, t)) == Code(e, b, t')
  {
    AfterCovers(e, t);
    CodeStable(e, b, After(e, t), t');
  }

  lemma StableList(es: Exprs, b: nat, t: Tables, t': Tables)
    requires Extends(AfterList(es, t), t')
    ensures CodeList(es, b, AfterList(es, t)) == CodeList(es, b, t')
  {
    AfterListCovers(es, t);
    ListStable(es, b, AfterList(es, t), t');
  }

  lemma StableStmts(es: Exprs, b: nat, t: Tables, t': Tables)
    requires Extends(AfterStmts(es, t), t')
    ensures CodeStmts(es, b, AfterStmts(es, t)) == CodeStmts(es, b, t')
  {
    AfterStmtsCovers(es, t);
    StmtsStable(es, b, AfterStmts(es, t), t');
  }

  lemma AddExtends(xs: seq<string>, x: string)
    ensures xs <= Add(xs, x)
  {
  }

  lemma FitsTables(e: Expr, b: nat, t: Tables)
    requires Fits(e, b, t)
    ensures |After(e, t).vars| <= INT_MAX && |After(e, t).consts| <= INT_MAX
  {
  }

  lemma BinPlan(e: Expr, b: nat, t: Tables)
    requires e.Bin? && Fits(e, b, t)
    ensures var t1 := After(e.right, t);
            var cr := Code(e.right, b, t1);
            var t2 := After(e.left, t1);
            && Fits(e.right, b, t) && Fits(e.left, b + |cr|, t1) && After(e, t) == t2
            && Code(e, b, t2) == cr + Code(e.left, b + |cr|, t2) + [Do(OpFor(e.op))]
  {
    var t1 := After(e.right, t);
    AfterCovers(e.left, t1);
    Stable(e.right, b, t, After(e.left, t1));
  }

  lemma NegPlan(e: Expr, b: nat, t: Tables)
    requires e.Neg? && Fits(e, b, t)
    ensures Fits(e.e, b, t) && After(e, t) == After(e.e, t)
    ensures Code(e, b, After(e, t)) == Code(e.e, b, After(e, t)) + [Do(NEGATE)]
  {
  }

  lemma ReturnPlan(e: Expr, b: nat, t: Tables)
    requires e.Return? && Fits(e, b, t)
    ensures Fits(e.e, b, t) && After(e, t) == After(e.e, t)
    ensures Code(e, b, After(e, t)) == Code(e.e, b, After(e, t)) + [Do(RET)]
  {
  }

  lemma AssignPlan(e: Expr, b: nat, t: Tables)
    requires e.Assign? && Fits(e, b, t)
    ensures var t1 := After(e.e, t);
            var t2 := t1.(vars := Add(t1.vars, e.x));
            && Fits(e.e, b, t) && After(e, t) == t2
            && Code(e, b, t2) == Code(e.e, b, t1) + SetVar(e.x, t2) + GetVar(e.x, t2)
  {
    var t1 := After(e.e, t);
    AddExtends(t1.vars, e.x);
    Stable(e.e, b, t, After(e, t));
  }

  lemma IndexPlan(e: Expr, b: nat, t: Tables)
    requires e.Index? && Fits(e, b, t)
    ensures var t1 := After(e.i, t);
            var t2 := t1.(vars := Add(t1.vars, e.x));
            && Fits(e.i, b, t) && After(e, t) == t2
            && Code(e, b, t2) == Code(e.i, b, t1) + GetVar(e.x, t2) + [Do(INDEX1)]
  {
    var t1 := After(e.i, t);
    AddExtends(t1.vars, e.x);
    Stable(e.i, b, t, After(e, t));
  }

  lemma IndexAssignPlan(e: Expr, b: nat, t: Tables)
    requires e.IndexAssign? && Fits(e, b, t)
    ensures var t1 := After(e.e, t);
            var ca := Code(e.e, b, t1);
            var t2 := After(e.i, t1);
            var t3 := t2.(vars := Add(t2.vars, e.x));
            && Fits(e.e, b, t) && Fits(e.i, b + |ca|, t1) && After(e, t) == t3
            && Code(e, b, t3) == ca + Code(e.i, b + |ca|, t2) + GetVar(e.x, t3) + [Do(INDEXAS)]
  {
    var t1 := After(e.e, t);
    var t2 := After(e.i, t1);
    var t3 := After(e, t);
    AddExtends(t2.vars, e.x);
    AfterCovers(e.i, t1);
    Stable(e.e, b, t, t3);
    Stable(e.i, b + |Code(e.e, b, t1)|, t1, t3);
  }

  lemma ArrayPlan(e: Expr, b: nat, t: Tables)
    requires e.Array? && Fits(e, b, t)
    ensures var t1 := AfterList(e.elems, t);
            && FitsList(e.elems, b, t) && After(e, t) == t1 && e.elems.Length() <= INT_MAX
            && Code(e, b, t1) == CodeList(e.elems, b, t1) + [Push(e.elems.Length()), Do(MKARRAY)]
  {
    LengthBound(e.elems, b, AfterList(e.elems, t));
  }

  lemma CallPlan(e: Expr, b: nat, t: Tables)
    requires e.Call? && Fits(e, b, t)
    ensures var t1 := AfterList(e.args, t);
            var t2 := t1.(consts := Add(t1.consts, e.f));
            && FitsList(e.args, b, t) && After(e, t) == t2 && e.args.Length() <= INT_MAX
            && Code(e, b, t2) ==
               CodeList(e.args, b, t1) + [Push(e.args.Length())] + Constant(e.f, t2) + [Do(CALL)]
  {
    var t1 := AfterList(e.args, t);
    AddExtends(t1.consts, e.f);
    StableList(e.args, b, t, After(e, t));
    LengthBound(e.args, b, t1);
  }

  lemma IfPlan(e: Expr, b: nat, t: Tables)
    requires e.If? && Fits(e, b, t)
    ensures var t1 := After(e.cond, t);
            var cc := Code(e.cond, b, t1);
            var b1 := ThenAt(b, cc, t.scheme);
            var t2 := AfterStmts(e.thn, t1);
            var ct := CodeStmts(e.thn, b1, t2);
            var b2 := ElseAt(b, cc, ct, t.scheme);
            var t3 := AfterStmts(e.els, t2);
            && Fits(e.cond, b, t) && FitsStmts(e.thn, b1, t1) && FitsStmts(e.els, b2, t2) && After(e, t) == t3
            && Code(e, b, t3) == IfCode(b, cc, ct, CodeStmts(e.els, b2, t3), t.scheme)
            && b2 + |CodeStmts(e.els, b2, t3)| < INT_MAX
  {
    var t1 := After(e.cond, t);
    var cc := Code(e.cond, b, t1);
    var b1 := ThenAt(b, cc, t.scheme);
    var t2 := AfterStmts(e.thn, t1);
    var ct := CodeStmts(e.thn, b1, t2);
    var b2 := ElseAt(b, cc, ct, t.scheme);
    var t3 := AfterStmts(e.els, t2);
    assert After(e, t) == t3 && Literals(e.cond) && AllLiterals(e.thn) && AllLiterals(e.els);
    hide After, AfterStmts, Code, CodeStmts, Literals, AllLiterals, ThenAt, ElseAt, IfCode, Extends;
    IfTables(e, t);
    IfCodeFrom(e, b, t);
    IfRoom(b, cc, ct, CodeStmts(e.els, b2, t3), t.scheme);
  }

  /** Both branches leave tables that extend those of the condition. */
  lemma IfTables(e: Expr, t: Tables)
    requires e.If?
    ensures var t1 := After(e.cond, t);
            var t2 := AfterStmts(e.thn, t1);
            var t3 := AfterStmts(e.els, t2);
            && Extends(t1, t2) && Extends(t2, t3) && Extends(t1, t3) && t1.scheme == t.scheme
            && |t1.vars| <= |t2.vars| <= |t3.vars| && |t1.consts| <= |t2.consts| <= |t3.consts|
  {
    hide VarsAfter, ConstsAfter, VarsAfterStmts, ConstsAfterStmts;
    var t1 := After(e.cond, t);
    AfterStmtsCovers(e.thn, t1);
    AfterStmtsCovers(e.els, AfterStmts(e.thn, t1));
  }

  lemma IfCodeFrom(e: Expr, b: nat, t: Tables)
    requires e.If?
    ensures var t1 := After(e.cond, t);
            var cc := Code(e.cond, b, t1);
            var b1 := ThenAt(b, cc, t.scheme);
            var t2 := AfterStmts(e.thn, t1);
            var ct := CodeStmts(e.thn, b1, t2);
            var t3 := AfterStmts(e.els, t2);
            Code(e, b, t3) == IfCode(b, cc, ct, CodeStmts(e.els, ElseAt(b, cc, ct, t.scheme), t3), t.scheme)
  {
    var t1 := After(e.cond, t);
    var t2 := AfterStmts(e.thn, t1);
    var t3 := AfterStmts(e.els, t2);
    assert t3.scheme == t.scheme;
    hide After, AfterStmts, Code, CodeStmts, ThenAt, ElseAt, IfCode, Extends;
    IfTables(e, t);
    Stable(e.cond, b, t, t3);
    StableStmts(e.thn, ThenAt(b, Code(e.cond, b, t1), t.scheme), t1, t3);
    IfCodeIs(e, b, t3);
  }

  /** The parts of an `if` end before the whole does. */
  lemma IfRoom(b: nat, cc: seq<Instr>, ct: seq<Instr>, cf: seq<Instr>, scheme: Scheme)
    ensures ElseAt(b, cc, ct, scheme) + |cf| < b + |IfCode(b, cc, ct, cf, scheme)|
    ensures b + |cc| < ThenAt(b, cc, scheme) && ThenAt(b, cc, scheme) + |ct| < ElseAt(b, cc, ct, scheme)
  {
  }

  lemma WhilePlan(e: Expr, b: nat, t: Tables)
    requires e.While? && Fits(e, b, t)
    ensures var t1 := After(e.cond, t);
            var b0 := b + LoopGap(t.scheme);
            var cc := Code(e.cond, b0, t1);
            var b1 := BodyAt(b, cc, t.scheme);
            var t2 := AfterStmts(e.body, t1);
            && Fits(e.cond, b0, t) && FitsStmts(e.body, b1, t1) && After(e, t) == t2
            && Code(e, b, t2) == WhileCode(b, cc, CodeStmts(e.body, b1, t2), t.scheme)
            && b1 + |CodeStmts(e.body, b1, t2)| + Gap(t.scheme) < INT_MAX
  {
    var t1 := After(e.cond, t);
    AfterStmtsCovers(e.body, t1);
    Stable(e.cond, b + LoopGap(t.scheme), t, AfterStmts(e.body, t1));
  }

  lemma ListPlan(es: Exprs, b: nat, t: Tables)
    requires es.Snoc? && FitsList(es, b, t)
    ensures var t1 := After(es.last, t);
            var cl := Code(es.last, b, t1);
            var t2 := AfterList(es.init, t1);
            && Fits(es.last, b, t) && FitsList(es.init, b + |cl|, t1) && AfterList(es, t) == t2
            && CodeList(es, b, t2) == cl + CodeList(es.init, b + |cl|, t2)
  {
    var t1 := After(es.last, t);
    AfterListCovers(es.init, t1);
    Stable(es.last, b, t, AfterList(es.init, t1));
  }

  lemma StmtsPlan(es: Exprs, b: nat, t: Tables)
    requires es.Snoc? && FitsStmts(es, b, t)
    ensures var t1 := AfterStmts(es.init, t);
            var ci := CodeStmts(es.init, b, t1);
            var t2 := After(es.last, t1);
            && FitsStmts(es.init, b, t) && Fits(es.last, b + |ci|, t1) && AfterStmts(es, t) == t2
            && CodeStmts(es, b, t2) == ci + Code(es.last, b + |ci|, t2) + [Do(DISCARD)]
  {
    var t1 := AfterStmts(es.init, t);
    AfterCovers(es.last, t1);
    StableStmts(es.init, b, t, After(es.last, t1));
  }

  // ----- appending and patching -----

  lemma Assoc3(c: seq<Instr>, x: seq<Instr>, y: seq<Instr>, z: seq<Instr>)
    ensures c + x + y + z == c + (x + y + z)
  {
  }

  lemma Assoc4(c: seq<Instr>, x: seq<Instr>, y: seq<Instr>, z: seq<Instr>, w: seq<Instr>)
    ensures c + x + y + z + w == c + (x + y + z + w)
  {
  }

  lemma IfAddresses(c0: seq<Instr>, cc: seq<Instr>, ct: seq<Instr>, cf: seq<Instr>, scheme: Scheme)
    ensures ThenAt(|c0|, cc, scheme) == |c0| + |cc| + Gap(scheme)
    ensures ElseAt(|c0|, cc, ct, scheme) == |c0| + |cc| + |ct| + 2 * Gap(scheme)
  {
  }

  lemma WhileAddresses(c0: seq<Instr>, cc: seq<Instr>, body: seq<Instr>, scheme: Scheme)
    ensures BodyAt(|c0|, cc, scheme) == |c0| + LoopGap(scheme) + |cc| + Gap(scheme)
  {
  }

  /** Patching the two targets turns the emitted cells into the code of an `if` with its targets. */
  lemma IfPatched(c0: seq<Instr>, cc: seq<Instr>, ct: seq<Instr>, cf: seq<Instr>)
    ensures var els := |c0| + |cc| + |ct| + 4;
            var d1, d2 := |c0| + |cc|, |c0| + |cc| + 2 + |ct|;
            var c1 := (c0 + cc + [Push(0)] + [Do(JUMPF)] + ct + [Push(0)] + [Do(JUMP)])[d1 := Push(els)];
            (c1 + cf)[d2 := Push(els + |cf|)] + [Push(0)] == c0 + IfCode(|c0|, cc, ct, cf, Jumps)
  {
    var els := |c0| + |cc| + |ct| + 4;
    var d1, d2 := |c0| + |cc|, |c0| + |cc| + 2 + |ct|;
    var before := c0 + cc + [Push(0)] + [Do(JUMPF)] + ct + [Push(0)] + [Do(JUMP)];
    var after1 := c0 + cc + [Push(els)] + [Do(JUMPF)] + ct + [Push(0)] + [Do(JUMP)];
    assert before[d1 := Push(els)] == after1;
    var after2 := c0 + cc + [Push(els)] + [Do(JUMPF)] + ct + [Push(els + |cf|)] + [Do(JUMP)] + cf;
    assert (after1 + cf)[d2 := Push(els + |cf|)] == after2;
    assert after2 + [Push(0)] == c0 + IfCode(|c0|, cc, ct, cf, Jumps);
  }

  lemma IfBracketed(c0: seq<Instr>, cc: seq<Instr>, ct: seq<Instr>, cf: seq<Instr>)
    ensures c0 + cc + [Do(CONDBEGIN)] + ct + [Do(CONDELSE)] + cf + [Do(CONDEND)] + [Push(0)]
            == c0 + IfCode(|c0|, cc, ct, cf, Brackets)
  {
  }

  lemma WhilePatched(c0: seq<Instr>, cc: seq<Instr>, body: seq<Instr>)
    ensures var d := |c0| + |cc|;
            var c1 := c0 + cc + [Push(0)] + [Do(JUMPF)] + body + [Push(|c0|)] + [Do(JUMP)];
            c1[d := Push(|c1|)] + [Push(0)] == c0 + WhileCode(|c0|, cc, body, Jumps)
  {
    var d := |c0| + |cc|;
    var c1 := c0 + cc + [Push(0)] + [Do(JUMPF)] + body + [Push(|c0|)] + [Do(JUMP)];
    var c2 := c0 + cc + [Push(|c1|)] + [Do(JUMPF)] + body + [Push(|c0|)] + [Do(JUMP)];
    assert c1[d := Push(|c1|)] == c2;
    assert c2 + [Push(0)] == c0 + WhileCode(|c0|, cc, body, Jumps);
  }

  lemma WhileBracketed(c0: seq<Instr>, cc: seq<Instr>, body: seq<Instr>)
    ensures c0 + [Do(LOOPBEGIN)] + cc + [Do(LOOPBODY)] + body + [Do(LOOPEND)] + [Push(0)]
            == c0 + WhileCode(|c0|, cc, body, Brackets)
  {
  }

  lemma RepeatPatched(c0: seq<Instr>, n: nat, body: Exprs, cb: seq<Instr>, t: Tables)
    requires cb == CodeStmts(body, |c0| + 8, t)
    ensures var c1 := c0 + [Push(n)] + [Do(DUP)] + [Push(0)] + [Do(JUMPF)] + [Push(1)] + [Do(SUB)]
                      + [Push(0)] + [Do(SUB)];
            var c2 := c1 + cb + [Push(|c0| + 1)] + [Do(JUMP)];
            c2[|c0| + 2 := Push(|c2|)] + [Do(DISCARD)] == c0 + RepeatCode(n, body, |c0|, t)
  {
    hide CodeStmts;
    var target := |c0| + 10 + |cb|;
    var tail := cb + [Push(|c0| + 1), Do(JUMP)] + [Do(DISCARD)];
    var c1 := c0 + [Push(n)] + [Do(DUP)] + [Push(0)] + [Do(JUMPF)] + [Push(1)] + [Do(SUB)] + [Push(0)] + [Do(SUB)];
    var c2 := c1 + cb + [Push(|c0| + 1)] + [Do(JUMP)];
    var c1' := c0 + [Push(n)] + [Do(DUP)] + [Push(target)] + [Do(JUMPF)] + [Push(1)] + [Do(SUB)]
               + [Push(0)] + [Do(SUB)];
    assert c1[|c0| + 2 := Push(target)] == c1';
    assert c2[|c0| + 2 := Push(target)] + [Do(DISCARD)] == c1' + tail;
    assert c1' == c0 + ([Push(n)] + LoopHead(target));
    assert RepeatCode(n, body, |c0|, t) == [Push(n)] + LoopHead(target) + tail;
  }

  lemma {:induction false} AddAllExtends(xs: seq<string>, ys: seq<string>)
    ensures xs <= AddAll(xs, ys)
    decreases |ys|
  {
    if ys != [] {
      AddExtends(xs, ys[0]);
      AddAllExtends(Add(xs, ys[0]), ys[1..]);
    }
  }

  lemma ConstantStable(s: string, t: Tables, t': Tables)
    requires s in t.consts && Extends(t, t')
    ensures Constant(s, t) == Constant(s, t')
  {
    FindStable(t.consts, t'.consts, s);
  }

  lemma {:induction false} PushVarsStable(xs: seq<string>, t: Tables, t': Tables)
    requires CoversNames(t, xs) && Extends(t, t')
    ensures PushVars(xs, t) == PushVars(xs, t') && CoversNames(t', xs)
    decreases |xs|
  {
    hide GetVar, Constant;
    assert forall x, ys: seq<string>, zs: seq<string> :: x in ys && ys <= zs ==> x in zs;
    if xs != [] {
      PushVarsStable(xs[1..], t, t');
      VarStable(xs[0], t, t');
      ConstantStable(xs[0], t, t');
    }
  }

  lemma PushNone(t: Tables)
    ensures PushVars([], t) == [] && CoversNames(t, [])
  {
  }

  /** Pushing one more outer variable, in front of those pushed under smaller tables. */
  lemma PushStep(ext: seq<string>, i: nat, t: Tables, t': Tables)
    requires i < |ext| && CoversNames(t, ext[i + 1..]) && ext[i] in t.vars
    requires t'.vars == t.vars && t'.consts == Add(t.consts, ext[i]) && t'.scheme == t.scheme
    ensures t.consts <= t'.consts && |t'.consts| <= |t.consts| + 1 && CoversNames(t', ext[i..])
    ensures PushVars(ext[i + 1..], t) == PushVars(ext[i + 1..], t')
    ensures PushVars(ext[i..], t')
            == PushVars(ext[i + 1..], t') + (GetVar(ext[i], t') + Constant(ext[i], t'))
  {
    hide GetVar, Constant, Find;
    AddExtends(t.consts, ext[i]);
    PushVarsStable(ext[i + 1..], t, t');
    assert ext[i..] == [ext[i]] + ext[i + 1..];
    assert ext[i..][1..] == ext[i + 1..];
  }

  lemma StoreStep(c: seq<Instr>, ext: seq<string>, i: nat, t: Tables)
    requires i < |ext|
    ensures c + SetVar(ext[i], t) + StoreVars(ext[i + 1..], t) == c + StoreVars(ext[i..], t)
  {
    hide SetVar;
    assert ext[i..][1..] == ext[i + 1..];
    assert c + SetVar(ext[i], t) + StoreVars(ext[i + 1..], t) == c + (SetVar(ext[i], t) + StoreVars(ext[i + 1..], t));
  }

  lemma StoreNone(ext: seq<string>, t: Tables)
    ensures StoreVars(ext[|ext|..], t) == []
  {
  }

  lemma BlockPatched(c0: seq<Instr>, xs: seq<string>, name: string, text: string, t: Tables)
    ensures c0 + PushVars(xs, t) + [Push(|xs|)] + Constant(name, t) + Constant(text, t) + [Do(DBLOCK)]
            + StoreVars(xs, t)
            == c0 + BlockCode(xs, name, text, t)
  {
    hide PushVars, Constant, StoreVars;
  }

  class Compiler {
    var ops: seq<int>
    var constants: seq<string>
    var functions: map<string, nat>
    var locals: seq<string>
    const scheme: Scheme

    /** The instructions the cells of `ops` stand for. */
    ghost var code: seq<Instr>

    ghost predicate Valid()
      reads this
    {
      && ops == EncodeAll(code)
      && (forall i :: 0 <= i < |code| ==> Encodable(code[i]))
      && Distinct(locals)
    }

    function T(): Tables
      reads this
    {
      Tables(locals, constants, scheme)
    }

    constructor (scheme: Scheme)
      ensures Valid() && this.scheme == scheme
      ensures code == [] && constants == [] && functions == map[] && locals == []
    {
      ops, constants, functions, locals, code := [], [], map[], [], [];
      this.scheme := scheme;
    }

    /** `prog_next_pc`. */
    function NextPc(): (pc: nat)
      requires Valid()
      reads this
      ensures pc == |code|
    {
      |ops|
    }

    // ----- building the program -----

    /** `prog_add_op`: refuses what is beyond the opcode table; entry 0 of the table reads as a number. */
    method AddOp(op: Opcode) returns (pc: int)
      requires Valid()
      modifies this`ops, this`code
      ensures Valid()
      ensures if OpcodeNr(op) < MAX_OP
              then pc == |old(code)| && code == old(code) + [TableEntry(OpcodeNr(op))]
              else pc == -1 && code == old(code)
      ensures Encodable(Do(op)) ==> pc == |old(code)| && code == old(code) + [Do(op)]
      ensures !op.Other? ==> pc == |old(code)| && code == old(code) + [Do(op)]
    {
      hide OpcodeNr, OpcodeAt, TableEntry, Encodable, Encode, MakeOp;
      NamedOp(op);
      if OpcodeNr(op) >= MAX_OP {
        return -1;
      }
      OpCellIs(OpcodeNr(op));
      ops := ops + [MakeOp(OpcodeNr(op))];
      code := code + [TableEntry(OpcodeNr(op))];
      return |ops| - 1;
    }

    /** `prog_add_num`: refuses a number that reads as an opcode. */
    method AddNum(n: int) returns (pc: int)
      requires Valid() && INT_MIN <= n <= INT_MAX
      modifies this`ops, this`code
      ensures Valid()
      ensures if Encodable(Push(n)) then pc == |old(code)| && code == old(code) + [Push(n)]
              else pc == -1 && code == old(code)
      ensures n >= 0 ==> pc == |old(code)| && code == old(code) + [Push(n)]
    {
      if OpField(n) != 0 {
        return -1;
      }
      ops := ops + [n];
      code := code + [Push(n)];
      return |ops| - 1;
    }

    /** `prog_set_num`. */
    method SetNum(pc: nat, n: int) returns (r: int)
      requires Valid() && pc < |code| && INT_MIN <= n <= INT_MAX
      modifies this`ops, this`code
      ensures Valid()
      ensures if Encodable(Push(n)) then r == pc && code == old(code)[pc := Push(n)]
              else r == -1 && code == old(code)
      ensures n >= 0 ==> r == pc && code == old(code)[pc := Push(n)]
    {
      if OpField(n) != 0 {
        return -1;
      }
      ops := ops[pc := n];
      code := code[pc := Push(n)];
      return pc;
    }

    /** `prog_new_constant`: an equal constant is shared. */
    method NewConstant(s: string) returns (idx: nat)
      modifies this`constants
      ensures constants == Add(old(constants), s) && idx == Find(constants, s)
    {
      var n := |constants|;
      for i := 0 to n
        invariant constants == old(constants) && forall j :: 0 <= j < i ==> constants[j] != s
      {
        if ValCmp(Str(s), Str(constants[i])) == 0 {
          StrCmpZero(s, constants[i]);
          return i;
        }
        StrCmpZero(s, constants[i]);
      }
      constants := constants + [s];
      return n;
    }

    /** `_var_lookup`: from the newest entry back. */
    method VarLookup(x: string) returns (nr: int)
      requires Distinct(locals)
      ensures if x in locals then nr == Find(locals, x) else nr == -1
    {
      var i := |locals|;
      while i > 0
        invariant 0 <= i <= |locals| && forall j :: i <= j < |locals| ==> locals[j] != x
      {
        i := i - 1;
        if locals[i] == x {
          return i;
        }
      }
      return -1;
    }

    /** `var_get_or_addlocal`: the slot of a name, allocated on first use. */
    method VarGetOrAddLocal(x: string) returns (nr: nat)
      requires Valid()
      modifies this`locals
      ensures Valid() && locals == Add(old(locals), x) && nr == Find(locals, x)
    {
      var found := VarLookup(x);
      if found >= 0 {
        return found;
      }
      locals := locals + [x];
      return |locals| - 1;
    }

    /** `var_add_local`: a name that is already there is not added again. */
    method VarAddLocal(x: string)
      requires Valid()
      modifies this`locals
      ensures Valid() && locals == Add(old(locals), x)
    {
      var found := VarLookup(x);
      if found < 0 {
        locals := locals + [x];
      }
    }

    method EmitConstant(s: string)
      requires Valid() && |Add(constants, s)| <= INT_MAX
      modifies this`ops, this`code, this`constants
      ensures Valid() && constants == Add(old(constants), s)
      ensures code == old(code) + Constant(s, T())
    {
      var c := NewConstant(s);
      var _ := AddNum(c);
      var _ := AddOp(CONSTANT);
    }

    method EmitVar(nr: nat, op: Opcode)
      requires Valid() && nr <= INT_MAX && (op == GETVAR || op == SETVAR)
      modifies this`ops, this`code
      ensures Valid() && code == old(code) + [Push(nr), Do(op)]
    {
      var _ := AddNum(nr);
      var _ := AddOp(op);
    }

    /** A variable read: the slot, allocated if need be, and GETVAR. */
    method EmitGetVar(x: string)
      requires Valid() && |Add(locals, x)| <= INT_MAX
      modifies this`ops, this`code, this`locals
      ensures Valid() && locals == Add(old(locals), x)
      ensures code == old(code) + GetVar(x, T())
    {
      var nr := VarGetOrAddLocal(x);
      EmitVar(nr, GETVAR);
    }

    /** The end of an assignment: store, and read the variable back. */
    method EmitSetGet(x: string)
      requires Valid() && |Add(locals, x)| <= INT_MAX
      modifies this`ops, this`code, this`locals
      ensures Valid() && locals == Add(old(locals), x)
      ensures code == old(code) + SetVar(x, T()) + GetVar(x, T())
    {
      var nr := VarGetOrAddLocal(x);
      EmitVar(nr, SETVAR);
      EmitVar(nr, GETVAR);
    }

    /** A forward jump: the cell of its target is filled in later. */
    method EmitJump(op: Opcode) returns (hole: nat)
      requires Valid() && (op == JUMPF || op == JUMP)
      modifies this`ops, this`code
      ensures Valid() && hole == |old(code)| && code == old(code) + [Push(0)] + [Do(op)]
    {
      hole := AddNum(0);
      var _ := AddOp(op);
    }

    /** Fills in a target with the next address. */
    method PatchHere(hole: nat)
      requires Valid() && hole < |code| <= INT_MAX
      modifies this`ops, this`code
      ensures Valid() && code == old(code)[hole := Push(|old(code)|)]
    {
      var _ := SetNum(hole, NextPc());
    }

    // ----- the pass -----

    /** `compile_ast` on an expression node: appends the node's code, leaves every earlier cell alone and
        leaves the tables as the node's first uses grow them. */
    method CompileExpr(e: Expr)
      requires Valid() && Fits(e, |code|, T())
      modifies this`ops, this`code, this`constants, this`locals
      ensures Valid() && T() == After(e, old(T()))
      ensures code == old(code) + Code(e, |old(code)|, T())
      decreases e, 1
    {
      match e
      case Number(n) => var _ := AddNum(n);
      case Text(s) => EmitConstant(s);
      case Var(x) => EmitGetVar(x);
      case Bin(_, _, _) => CompileBin(e);
      case Neg(a) =>
        NegPlan(e, |code|, T());
        CompileExpr(a);
        var _ := AddOp(NEGATE);
      case Assign(_, _) => CompileAssign(e);
      case Index(_, _) => CompileIndex(e);
      case IndexAssign(_, _, _) => CompileIndexAssign(e);
      case Array(_) => CompileArray(e);
      case Call(_, _) => CompileCall(e);
      case If(_, _, _) => if scheme == Jumps { CompileIfJumps(e); } else { CompileIfBrackets(e); }
      case While(_, _) => CompileWhile(e);
      case Return(a) =>
        ReturnPlan(e, |code|, T());
        CompileExpr(a);
        var _ := AddOp(RET);
    }

    method CompileBin(e: Expr)
      requires e.Bin?
      requires Valid() && Fits(e, |code|, T())
      modifies this`ops, this`code, this`constants, this`locals
      ensures Valid() && T() == After(e, old(T()))
      ensures code == old(code) + Code(e, |old(code)|, T())
      decreases e, 0
    {
      hide Code, CodeList, CodeStmts, After, AfterList, AfterStmts, Literals, AllLiterals, Fits, FitsList, FitsStmts;
      hide Valid, Encodable, GetVar, SetVar, Constant, IfCode, WhileCode, ThenAt, ElseAt, BodyAt;
      ghost var c0, t := code, T();
      BinPlan(e, |c0|, t);
      CompileExpr(e.right);
      ghost var c1, t1 := code, T();
      CompileExpr(e.left);
      ghost var cl := Code(e.left, |c1|, T());
      var _ := AddOp(OpFor(e.op));
      Assoc3(c0, Code(e.right, |c0|, t1), cl, [Do(OpFor(e.op))]);
    }

    method CompileAssign(e: Expr)
      requires e.Assign?
      requires Valid() && Fits(e, |code|, T())
      modifies this`ops, this`code, this`constants, this`locals
      ensures Valid() && T() == After(e, old(T()))
      ensures code == old(code) + Code(e, |old(code)|, T())
      decreases e, 0
    {
      hide Code, CodeList, CodeStmts, After, AfterList, AfterStmts, Literals, AllLiterals, Fits, FitsList, FitsStmts;
      hide Valid, Encodable, GetVar, SetVar, Constant, IfCode, WhileCode, ThenAt, ElseAt, BodyAt;
      FitsTables(e, |code|, T());
      ghost var c0, t := code, T();
      AssignPlan(e, |c0|, t);
      CompileExpr(e.e);
      ghost var t1 := T();
      EmitSetGet(e.x);
      Assoc3(c0, Code(e.e, |c0|, t1), SetVar(e.x, T()), GetVar(e.x, T()));
    }

    method CompileIndex(e: Expr)
      requires e.Index?
      requires Valid() && Fits(e, |code|, T())
      modifies this`ops, this`code, this`constants, this`locals
      ensures Valid() && T() == After(e, old(T()))
      ensures code == old(code) + Code(e, |old(code)|, T())
      decreases e, 0
    {
      hide Code, CodeList, CodeStmts, After, AfterList, AfterStmts, Literals, AllLiterals, Fits, FitsList, FitsStmts;
      hide Valid, Encodable, GetVar, SetVar, Constant, IfCode, WhileCode, ThenAt, ElseAt, BodyAt;
      FitsTables(e, |code|, T());
      ghost var c0, t := code, T();
      IndexPlan(e, |c0|, t);
      CompileExpr(e.i);
      ghost var t1 := T();
      EmitGetVar(e.x);
      var _ := AddOp(INDEX1);
      Assoc3(c0, Code(e.i, |c0|, t1), GetVar(e.x, T()), [Do(INDEX1)]);
    }

    method CompileIndexAssign(e: Expr)
      requires e.IndexAssign?
      requires Valid() && Fits(e, |code|, T())
      modifies this`ops, this`code, this`constants, this`locals
      ensures Valid() && T() == After(e, old(T()))
      ensures code == old(code) + Code(e, |old(code)|, T())
      decreases e, 0
    {
      hide Code, CodeList, CodeStmts, After, AfterList, AfterStmts, Literals, AllLiterals, Fits, FitsList, FitsStmts;
      hide Valid, Encodable, GetVar, SetVar, Constant, IfCode, WhileCode, ThenAt, ElseAt, BodyAt;
      FitsTables(e, |code|, T());
      ghost var c0, t := code, T();
      IndexAssignPlan(e, |c0|, t);
      CompileExpr(e.e);
      ghost var c1, t1 := code, T();
      CompileExpr(e.i);
      ghost var ci := Code(e.i, |c1|, T());
      EmitGetVar(e.x);
      var _ := AddOp(INDEXAS);
      Assoc4(c0, Code(e.e, |c0|, t1), ci, GetVar(e.x, T()), [Do(INDEXAS)]);
    }

    method CompileArray(e: Expr)
      requires e.Array?
      requires Valid() && Fits(e, |code|, T())
      modifies this`ops, this`code, this`constants, this`locals
      ensures Valid() && T() == After(e, old(T()))
      ensures code == old(code) + Code(e, |old(code)|, T())
      decreases e, 0
    {
      hide Code, CodeList, CodeStmts, After, AfterList, AfterStmts, Literals, AllLiterals, Fits, FitsList, FitsStmts;
      hide Valid, Encodable, GetVar, SetVar, Constant, IfCode, WhileCode, ThenAt, ElseAt, BodyAt;
      ArrayPlan(e, |code|, T());
      var n := CompileList(e.elems);
      var _ := AddNum(n);
      var _ := AddOp(MKARRAY);
    }

    method CompileCall(e: Expr)
      requires e.Call?
      requires Valid() && Fits(e, |code|, T())
      modifies this`ops, this`code, this`constants, this`locals
      ensures Valid() && T() == After(e, old(T()))
      ensures code == old(code) + Code(e, |old(code)|, T())
      decreases e, 0
    {
      hide Code, CodeList, CodeStmts, After, AfterList, AfterStmts, Literals, AllLiterals, Fits, FitsList, FitsStmts;
      hide Valid, Encodable, GetVar, SetVar, Constant, IfCode, WhileCode, ThenAt, ElseAt, BodyAt;
      FitsTables(e, |code|, T());
      ghost var c0, t := code, T();
      CallPlan(e, |c0|, t);
      var n := CompileList(e.args);
      ghost var t1 := T();
      var _ := AddNum(n);
      EmitConstant(e.f);
      var _ := AddOp(CALL);
      Assoc4(c0, CodeList(e.args, |c0|, t1), [Push(n)], Constant(e.f, T()), [Do(CALL)]);
    }

    /** The absolute-jump lowering emits 0 for both targets and patches them once they are known. */
    method CompileIfJumps(e: Expr)
      requires e.If? && scheme == Jumps
      requires Valid() && Fits(e, |code|, T())
      modifies this`ops, this`code, this`constants, this`locals
      ensures Valid() && T() == After(e, old(T()))
      ensures code == old(code) + Code(e, |old(code)|, T())
      decreases e, 0
    {
      hide Code, CodeList, CodeStmts, After, AfterList, AfterStmts, Literals, AllLiterals, Fits, FitsList, FitsStmts;
      hide Valid, Encodable, GetVar, SetVar, Constant, IfCode, WhileCode, ThenAt, ElseAt, BodyAt;
      ghost var c0, t := code, T();
      IfPlan(e, |c0|, t);
      ghost var t1 := After(e.cond, t);
      ghost var cc := Code(e.cond, |c0|, t1);
      ghost var t2 := AfterStmts(e.thn, t1);
      ghost var ct := CodeStmts(e.thn, ThenAt(|c0|, cc, scheme), t2);
      ghost var cf := CodeStmts(e.els, ElseAt(|c0|, cc, ct, scheme), AfterStmts(e.els, t2));
      IfAddresses(c0, cc, ct, cf, scheme);
      CompileExpr(e.cond);
      CompileBranches(e, c0, cc, ct, cf);
    }

    /** What follows the condition: both branches and their two jumps. */
    method CompileBranches(e: Expr, ghost c0: seq<Instr>, ghost cc: seq<Instr>, ghost ct: seq<Instr>,
                           ghost cf: seq<Instr>)
      requires e.If? && Valid() && code == c0 + cc && |code| + |ct| + 4 + |cf| < INT_MAX
      requires FitsStmts(e.thn, |code| + 2, T()) && ct == CodeStmts(e.thn, |code| + 2, AfterStmts(e.thn, T()))
      requires var b2, t2 := |code| + |ct| + 4, AfterStmts(e.thn, T());
               FitsStmts(e.els, b2, t2) && cf == CodeStmts(e.els, b2, AfterStmts(e.els, t2))
      modifies this`ops, this`code, this`constants, this`locals
      ensures Valid() && T() == AfterStmts(e.els, AfterStmts(e.thn, old(T())))
      ensures code == c0 + IfCode(|c0|, cc, ct, cf, Jumps)
      decreases e, 0, 0
    {
      hide CodeStmts, AfterStmts, FitsStmts, Valid, Encodable, IfCode;
      var dstElse := EmitJump(JUMPF);
      CompileStmts(e.thn);
      var dstEnd := EmitJump(JUMP);
      PatchHere(dstElse);
      CompileStmts(e.els);
      PatchHere(dstEnd);
      var _ := AddNum(0);
      IfPatched(c0, cc, ct, cf);
    }

    /** The structured lowering emits brackets. */
    method CompileIfBrackets(e: Expr)
      requires e.If? && scheme == Brackets
      requires Valid() && Fits(e, |code|, T())
      modifies this`ops, this`code, this`constants, this`locals
      ensures Valid() && T() == After(e, old(T()))
      ensures code == old(code) + Code(e, |old(code)|, T())
      decreases e, 0
    {
      hide Code, CodeList, CodeStmts, After, AfterList, AfterStmts, Literals, AllLiterals, Fits, FitsList, FitsStmts;
      hide Valid, Encodable, GetVar, SetVar, Constant, IfCode, WhileCode, ThenAt, ElseAt, BodyAt;
      ghost var c0, t := code, T();
      IfPlan(e, |c0|, t);
      ghost var t1 := After(e.cond, t);
      ghost var cc := Code(e.cond, |c0|, t1);
      ghost var t2 := AfterStmts(e.thn, t1);
      ghost var ct := CodeStmts(e.thn, ThenAt(|c0|, cc, scheme), t2);
      ghost var cf := CodeStmts(e.els, ElseAt(|c0|, cc, ct, scheme), AfterStmts(e.els, t2));
      IfAddresses(c0, cc, ct, cf, scheme);
      CompileExpr(e.cond);
      var _ := AddOp(CONDBEGIN);
      CompileStmts(e.thn);
      var _ := AddOp(CONDELSE);
      CompileStmts(e.els);
      var _ := AddOp(CONDEND);
      var _ := AddNum(0);
      IfBracketed(c0, cc, ct, cf);
    }

    method CompileWhile(e: Expr)
      requires e.While?
      requires Valid() && Fits(e, |code|, T())
      modifies this`ops, this`code, this`constants, this`locals
      ensures Valid() && T() == After(e, old(T()))
      ensures code == old(code) + Code(e, |old(code)|, T())
      decreases e, 0
    {
      hide Code, CodeList, CodeStmts, After, AfterList, AfterStmts, Literals, AllLiterals, Fits, FitsList, FitsStmts;
      hide Valid, Encodable, GetVar, SetVar, Constant, IfCode, WhileCode, ThenAt, ElseAt, BodyAt;
      ghost var c0, t := code, T();
      WhilePlan(e, |c0|, t);
      ghost var b0 := |c0| + LoopGap(scheme);
      ghost var t1 := After(e.cond, t);
      ghost var cc := Code(e.cond, b0, t1);
      ghost var body := CodeStmts(e.body, BodyAt(|c0|, cc, scheme), AfterStmts(e.body, t1));
      WhileAddresses(c0, cc, body, scheme);
      if scheme == Jumps {
        var loopStart := NextPc();
        CompileExpr(e.cond);
        var jumpEnd := EmitJump(JUMPF);
        CompileStmts(e.body);
        var _ := AddNum(loopStart);
        var _ := AddOp(JUMP);
        PatchHere(jumpEnd);
        var _ := AddNum(0);
        WhilePatched(c0, cc, body);
      } else {
        var _ := AddOp(LOOPBEGIN);
        CompileExpr(e.cond);
        var _ := AddOp(LOOPBODY);
        CompileStmts(e.body);
        var _ := AddOp(LOOPEND);
        var _ := AddNum(0);
        WhileBracketed(c0, cc, body);
      }
    }

    /** Argument and element lists; the number of elements is returned. */
    method CompileList(es: Exprs) returns (n: nat)
      requires Valid() && FitsList(es, |code|, T())
      modifies this`ops, this`code, this`constants, this`locals
      ensures Valid() && T() == AfterList(es, old(T())) && n == es.Length()
      ensures code == old(code) + CodeList(es, |old(code)|, T())
      decreases es, 1
    {
      if es.Nil? {
        return 0;
      }
      hide Code, CodeList, CodeStmts, After, AfterList, AfterStmts, Literals, AllLiterals, Fits, FitsList, FitsStmts;
      hide Encodable, Valid;
      ghost var c0, t := code, T();
      ListPlan(es, |c0|, t);
      CompileExpr(es.last);
      ghost var cl := Code(es.last, |c0|, T());
      n := CompileList(es.init);
      n := n + 1;
      ghost var rest := CodeList(es.init, |c0| + |cl|, T());
      assert c0 + cl + rest == c0 + (cl + rest);
    }

    method CompileStmts(es: Exprs)
      requires Valid() && FitsStmts(es, |code|, T())
      modifies this`ops, this`code, this`constants, this`locals
      ensures Valid() && T() == AfterStmts(es, old(T()))
      ensures code == old(code) + CodeStmts(es, |old(code)|, T())
      decreases es, 1
    {
      if es.Nil? {
        return;
      }
      hide Code, CodeList, CodeStmts, After, AfterList, AfterStmts, Literals, AllLiterals, Fits, FitsList, FitsStmts;
      hide Valid, Encodable, GetVar, SetVar, Constant, IfCode, WhileCode, ThenAt, ElseAt, BodyAt;
      ghost var c0, t := code, T();
      StmtsPlan(es, |c0|, t);
      CompileStmts(es.init);
      ghost var c1, t1 := code, T();
      CompileExpr(es.last);
      ghost var cl := Code(es.last, |c1|, T());
      var _ := AddOp(DISCARD);
      Assoc3(c0, CodeStmts(es.init, |c0|, t1), cl, [Do(DISCARD)]);
    }

    // ----- repeat and database blocks -----

    /** The counter, the test and the step that counts down. */
    method EmitLoopHead(n: nat) returns (pc: nat, hole: nat)
      requires Valid() && n <= INT_MAX
      modifies this`ops, this`code
      ensures Valid() && pc == |old(code)| + 1 && hole == |old(code)| + 2
      ensures code == old(code) + [Push(n)] + [Do(DUP)] + [Push(0)] + [Do(JUMPF)] + [Push(1)] + [Do(SUB)]
                      + [Push(0)] + [Do(SUB)]
    {
      hide Valid;
      var _ := AddNum(n);
      pc := AddOp(DUP);
      hole := EmitJump(JUMPF);
      var _ := AddNum(1);
      var _ := AddOp(SUB);
      var _ := AddNum(0);
      var _ := AddOp(SUB);
    }

    method CompileRepeat(n: nat, body: Exprs)
      requires Valid() && n <= INT_MAX && FitsStmts(body, |code| + 8, T())
      requires |code| + |CodeStmts(body, |code| + 8, AfterStmts(body, T()))| + 11 <= INT_MAX
      modifies this`ops, this`code, this`constants, this`locals
      ensures Valid() && T() == AfterStmts(body, old(T()))
      ensures code == old(code) + RepeatCode(n, body, |old(code)|, T())
    {
      hide Valid, FitsStmts, AfterStmts, CodeStmts, RepeatCode, Encodable;
      ghost var c0 := code;
      var pc, jt := EmitLoopHead(n);
      CompileStmts(body);
      ghost var cb := CodeStmts(body, |c0| + 8, T());
      var _ := AddNum(pc);
      var _ := AddOp(JUMP);
      PatchHere(jt);
      var _ := AddOp(DISCARD);
      RepeatPatched(c0, n, body, cb, T());
    }

    /** One outer variable: its value, then its name. */
    method EmitOuter(x: string)
      requires Valid() && x in locals && |locals| <= INT_MAX && |constants| < INT_MAX
      modifies this`ops, this`code, this`constants, this`locals
      ensures Valid() && locals == old(locals) && constants == Add(old(constants), x)
      ensures code == old(code) + GetVar(x, T()) + Constant(x, T())
    {
      ghost var t := T();
      EmitGetVar(x);
      hide Valid, GetVar, Constant;
      EmitConstant(x);
      VarStable(x, t.(consts := constants), T());
    }

    /** The first loop of `dblock_parse`: the outer variables, last to first, each with its name. */
    method PushOuter(ext: seq<string>)
      requires Valid() && (forall x :: x in ext ==> x in locals)
      requires |locals| <= INT_MAX && |constants| + |ext| <= INT_MAX
      modifies this`ops, this`code, this`constants, this`locals
      ensures Valid() && locals == old(locals) && old(constants) <= constants
      ensures |constants| <= |old(constants)| + |ext| && CoversNames(T(), ext)
      ensures code == old(code) + PushVars(ext, T())
    {
      hide Valid, Encodable, GetVar, Constant, PushVars, Add, CoversNames;
      PushNone(T());
      assert ext[|ext|..] == [];
      var i := |ext|;
      while i > 0
        invariant 0 <= i <= |ext| && Valid() && locals == old(locals) && old(constants) <= constants
        invariant |constants| <= |old(constants)| + |ext| - i && CoversNames(T(), ext[i..])
        invariant code == old(code) + PushVars(ext[i..], T())
      {
        i := i - 1;
        ghost var t := T();
        assert ext[i] in locals;
        EmitOuter(ext[i]);
        PushStep(ext, i, t, T());
        Assoc3(old(code), PushVars(ext[i + 1..], T()), GetVar(ext[i], T()), Constant(ext[i], T()));
      }
      assert ext[0..] == ext;
    }

    method EmitSetVar(x: string)
      requires Valid() && x in locals && |locals| <= INT_MAX
      modifies this`ops, this`code
      ensures Valid() && code == old(code) + SetVar(x, T())
    {
      var nr := VarLookup(x);
      EmitVar(nr, SETVAR);
    }

    /** The last loop of `dblock_parse`: the results, first to last. */
    method StoreOuter(ext: seq<string>)
      requires Valid() && (forall x :: x in ext ==> x in locals) && |locals| <= INT_MAX
      modifies this`ops, this`code
      ensures Valid() && code == old(code) + StoreVars(ext, T())
    {
      hide Valid, SetVar, StoreVars;
      assert ext[0..] == ext;
      for i := 0 to |ext|
        invariant Valid() && code + StoreVars(ext[i..], T()) == old(code) + StoreVars(ext, T())
      {
        ghost var c := code;
        assert ext[i] in locals;
        EmitSetVar(ext[i]);
        StoreStep(c, ext, i, T());
      }
      StoreNone(ext, T());
    }

    // ----- definitions and whole programs -----

    /** `var_reset` and the parameter list. */
    method CompileParams(params: seq<string>)
      requires Valid()
      modifies this`locals
      ensures Valid() && locals == ParamVars(params)
    {
      locals := [];
      for i := 0 to |params|
        invariant Valid() && locals == ParamVars(params[..i])
      {
        assert params[..i + 1][..i] == params[..i];
        VarAddLocal(params[i]);
      }
      assert params[..|params|] == params;
    }

    /** The jump over the body, the parameters' slots and the entry in the function table. */
    method OpenFunc(f: Func) returns (jmp: nat)
      requires Valid()
      modifies this
      ensures Valid() && jmp == |old(code)| && code == old(code) + [Push(0)] + [Do(JUMP)]
      ensures locals == ParamVars(f.params) && constants == old(constants)
      ensures functions == old(functions)[f.name := |old(code)| + 2]
    {
      hide ParamVars;
      jmp := EmitJump(JUMP);
      CompileParams(f.params);
      functions := functions[f.name := NextPc()];
    }

    /** The return of 0, the target of the jump over the body, and the value of the definition. */
    method CloseFunc(jmp: nat)
      requires Valid() && jmp < |code| && |code| + 2 <= INT_MAX
      modifies this`ops, this`code
      ensures Valid()
      ensures code == (old(code) + [Push(0)] + [Do(RET)])[jmp := Push(|old(code)| + 2)] + [Push(0)]
    {
      var _ := AddNum(0);
      var _ := AddOp(RET);
      var _ := SetNum(jmp, NextPc());
      var _ := AddNum(0);
    }

    /** A definition: its code with the target of the jump over the body patched last. */
    method CompileFunc(f: Func)
      requires Valid() && FitsFunc(f, |code|, constants, scheme)
      modifies this
      ensures Valid() && locals == FuncVars(f) && constants == ConstsAfterStmts(f.body, old(constants))
      ensures functions == old(functions)[f.name := |old(code)| + 2]
      ensures code == old(code) + FuncCode(f, |old(code)|, constants, scheme)
    {
      ghost var c0 := code;
      FuncPlan(f, |c0|, constants, scheme);
      assert FuncVars(f) == AfterStmts(f.body, Tables(ParamVars(f.params), constants, scheme)).vars;
      hide CodeStmts, AfterStmts, AllLiterals, FitsStmts, FitsFunc, Encodable, FuncCode, FuncVars, Valid, ParamVars;
      var jmp := OpenFunc(f);
      CompileStmts(f.body);
      ghost var body := CodeStmts(f.body, |c0| + 2, T());
      CloseFunc(jmp);
      FuncPatched(f, c0, body, constants, scheme);
    }

    /** The definitions, each discarded like any statement. */
    method CompileFuncs(p: Program)
      requires Valid() && code == [] && constants == [] && functions == map[] && locals == []
      requires FitsProgram(p, scheme)
      modifies this
      ensures Valid() && constants == ConstsAfterFuncs(p.funs, []) && locals == VarsAfterFuncs(p.funs)
      ensures code == FuncsCode(p.funs, constants, scheme) && functions == Entries(p.funs, constants, scheme)
    {
      hide FuncCode, FitsFunc, FitsProgram, Encodable, FuncVars, ConstsAfterStmts;
      for i := 0 to |p.funs|
        invariant Valid() && constants == ConstsAfterFuncs(p.funs[..i], []) && locals == VarsAfterFuncs(p.funs[..i])
        invariant code == FuncsCode(p.funs[..i], constants, scheme)
        invariant functions == Entries(p.funs[..i], constants, scheme)
      {
        hide Valid;
        ghost var fs, cs := p.funs[..i], constants;
        assert p.funs[..i + 1][..i] == fs;
        ProgramRoom(p, i, scheme);
        CompileFunc(p.funs[i]);
        FuncsStable(fs, cs, constants, scheme);
        var _ := AddOp(DISCARD);
      }
      assert p.funs[..|p.funs|] == p.funs;
    }

    /** `compile_ast` on the whole tree: the definitions, then the main statements. */
    method CompileProgram(p: Program)
      requires Valid() && code == [] && constants == [] && functions == map[] && locals == []
      requires FitsProgram(p, scheme)
      modifies this
      ensures Valid() && code == ProgramCode(p, scheme)
      ensures constants == ProgramConsts(p) && T() == MainTables(p, scheme)
      ensures functions == Entries(p.funs, constants, scheme)
    {
      hide FitsProgram, FitsStmts, Valid, FuncsCode;
      hide Entries, CodeStmts, VarsAfterStmts, ConstsAfterStmts, ConstsAfterFuncs;
      CompileFuncs(p);
      MainRoom(p, scheme);
      ghost var cs := constants;
      CompileStmts(p.main);
      FuncsStable(p.funs, cs, constants, scheme);
    }
  }

  // ----- definitions -----

  predicate FitsFunc(f: Func, b: nat, consts: seq<string>, scheme: Scheme) {
    var t := AfterStmts(f.body, Tables(ParamVars(f.params), consts, scheme));
    AllLiterals(f.body) && Room(b, |FuncCode(f, b, t.consts, scheme)|, t)
  }

  predicate FitsProgram(p: Program, scheme: Scheme) {
    && |ProgramCode(p, scheme)| <= INT_MAX && |ProgramConsts(p)| <= INT_MAX
    && |MainTables(p, scheme).vars| <= INT_MAX && AllLiterals(p.main)
    && forall f :: f in p.funs ==> AllLiterals(f.body) && |FuncVars(f)| <= INT_MAX
  }

  lemma FuncPlan(f: Func, b: nat, consts: seq<string>, scheme: Scheme)
    requires FitsFunc(f, b, consts, scheme)
    ensures var t0 := Tables(ParamVars(f.params), consts, scheme);
            var t1 := AfterStmts(f.body, t0);
            && FitsStmts(f.body, b + 2, t0) && t1 == Tables(FuncVars(f), ConstsAfterStmts(f.body, consts), scheme)
            && b + |CodeStmts(f.body, b + 2, t1)| + 4 < INT_MAX
  {
  }

  lemma FuncPatched(f: Func, c0: seq<Instr>, body: seq<Instr>, consts: seq<string>, scheme: Scheme)
    requires body == CodeStmts(f.body, |c0| + 2, Tables(FuncVars(f), consts, scheme))
    ensures var c1 := c0 + [Push(0)] + [Do(JUMP)] + body + [Push(0)] + [Do(RET)];
            c1[|c0| := Push(|c1|)] + [Push(0)] == c0 + FuncCode(f, |c0|, consts, scheme)
  {
    hide CodeStmts, FuncVars;
    var c1 := c0 + [Push(0)] + [Do(JUMP)] + body + [Push(0)] + [Do(RET)];
    var c2 := c0 + [Push(|c1|)] + [Do(JUMP)] + body + [Push(0)] + [Do(RET)];
    assert c1[|c0| := Push(|c1|)] == c2;
    assert c2 + [Push(0)] == c0 + FuncCode(f, |c0|, consts, scheme);
  }

  lemma FuncStable(f: Func, b: nat, cs: seq<string>, cs': seq<string>, cs0: seq<string>, scheme: Scheme)
    requires ConstsAfterStmts(f.body, cs0) <= cs <= cs'
    ensures FuncCode(f, b, cs, scheme) == FuncCode(f, b, cs', scheme)
  {
    var t := Tables(FuncVars(f), cs, scheme);
    TablesCoverStmts(f.body, ParamVars(f.params), cs0, t);
    StmtsStable(f.body, b + 2, t, t.(consts := cs'));
  }

  lemma {:induction false} FuncsStable(fs: seq<Func>, cs: seq<string>, cs': seq<string>, scheme: Scheme)
    requires ConstsAfterFuncs(fs, []) <= cs <= cs'
    ensures FuncsCode(fs, cs, scheme) == FuncsCode(fs, cs', scheme)
    ensures Entries(fs, cs, scheme) == Entries(fs, cs', scheme)
    decreases |fs|
  {
    hide FuncCode;
    if fs != [] {
      var init, f := fs[..|fs| - 1], fs[|fs| - 1];
      ConstsGrowStmts(f.body, ConstsAfterFuncs(init, []));
      FuncsStable(init, cs, cs', scheme);
      FuncStable(f, |FuncsCode(init, cs, scheme)|, cs, cs', ConstsAfterFuncs(init, []), scheme);
    }
  }

  /** The constants and the code of the first `i` definitions are prefixes of the program's. */
  lemma {:induction false} PrefixRoom(fs: seq<Func>, i: nat, cs: seq<string>, scheme: Scheme)
    requires i <= |fs| && ConstsAfterFuncs(fs, []) <= cs
    ensures ConstsAfterFuncs(fs[..i], []) <= cs
    ensures |FuncsCode(fs[..i], cs, scheme)| <= |FuncsCode(fs, cs, scheme)|
    decreases |fs|
  {
    hide FuncCode;
    if i == |fs| {
      assert fs[..i] == fs;
    } else {
      var init := fs[..|fs| - 1];
      ConstsGrowStmts(fs[|fs| - 1].body, ConstsAfterFuncs(init, []));
      assert init[..i] == fs[..i];
      PrefixRoom(init, i, cs, scheme);
    }
  }

  lemma ProgramRoom(p: Program, i: nat, scheme: Scheme)
    requires FitsProgram(p, scheme) && i < |p.funs|
    ensures var cs := ConstsAfterFuncs(p.funs[..i], []);
            && cs <= ConstsAfterStmts(p.funs[i].body, cs)
            && FitsFunc(p.funs[i], |FuncsCode(p.funs[..i], cs, scheme)|, cs, scheme)
  {
    hide FuncCode;
    var fs, f := p.funs[..i], p.funs[i];
    var cs, all := ConstsAfterFuncs(fs, []), ProgramConsts(p);
    var cs' := ConstsAfterStmts(f.body, cs);
    assert p.funs[..i + 1][..i] == fs && p.funs[..i + 1][i] == f;
    ConstsGrowStmts(f.body, cs);
    ConstsGrowStmts(p.main, ConstsAfterFuncs(p.funs, []));
    PrefixRoom(p.funs, i + 1, all, scheme);
    PrefixRoom(p.funs, i, all, scheme);
    FuncsStable(fs, cs, all, scheme);
    FuncStable(f, |FuncsCode(fs, cs, scheme)|, cs', all, cs, scheme);
    assert FuncsCode(p.funs[..i + 1], all, scheme) ==
           FuncsCode(fs, all, scheme) + FuncCode(f, |FuncsCode(fs, all, scheme)|, all, scheme) + [Do(DISCARD)];
  }

  lemma MainRoom(p: Program, scheme: Scheme)
    requires FitsProgram(p, scheme)
    ensures var cs := ConstsAfterFuncs(p.funs, []);
            && cs <= ProgramConsts(p)
            && FitsStmts(p.main, |FuncsCode(p.funs, cs, scheme)|, Tables(VarsAfterFuncs(p.funs), cs, scheme))
  {
    var cs := ConstsAfterFuncs(p.funs, []);
    ConstsGrowStmts(p.main, cs);
    FuncsStable(p.funs, cs, ProgramConsts(p), scheme);
  }

  /** The image the machine decodes from the compiler's output is the one the correctness theorems are
      about, and no cell was refused. */
  method CompileToImage(p: Program, scheme: Scheme, remote: Remote) returns (ops: seq<int>, image: Image)
    requires WellFormedProgram(p) && FitsProgram(p, scheme)
    ensures |ops| == |ProgramCode(p, scheme)| && forall i :: 0 <= i < |ops| ==> INT_MIN <= ops[i] <= INT_MAX
    ensures image == Compiled(p, scheme, remote)
    ensures |image.code| == |ops|
    ensures forall i :: 0 <= i < |ops| ==> image.code[i] == Decode(ops[i]) && Encodable(image.code[i])
  {
    var c := new Compiler(scheme);
    c.CompileProgram(p);
    ops := c.ops;
    forall i | 0 <= i < |ops| ensures INT_MIN <= ops[i] <= INT_MAX && Decode(ops[i]) == c.code[i] {
      assert ops[i] == Encode(c.code[i]) && Encodable(c.code[i]);
      DecodeEncode(c.code[i]);
    }
    var code := seq(|ops|, i requires 0 <= i < |ops| => Decode(ops[i]));
    assert code == c.code;
    image := Image(code, c.constants, c.functions, p.native, remote);
  }
}
