/** What the machine does between the parts of an `if` or a `while`, under both lowerings. */
module ControlFlow {
  import opened Values
  import opened Bytecode
  import opened Source
  import opened Machine
  import opened Codegen
  import opened Simulation
  import opened BracketMatching

  // ----- if -----

  lemma IfParts(code: seq<Instr>, b: nat, c: seq<Instr>, t: seq<Instr>, f: seq<Instr>, scheme: Scheme)
    requires CodeAt(code, b, IfCode(b, c, t, f, scheme))
    ensures CodeAt(code, b, c)
    ensures CodeAt(code, ThenAt(b, c, scheme), t)
    ensures CodeAt(code, ElseAt(b, c, t, scheme), f)
  {
    hide CodeAt;
    match scheme
    case Jumps =>
      var els := b + |c| + 2 + |t| + 2;
      var j1, j2 := [Push(els), Do(JUMPF)], [Push(els + |f|), Do(JUMP)];
      SplitAt(code, b, c + j1 + t + j2 + f, [Push(0)]);
      SplitAt(code, b, c + j1 + t + j2, f);
      SplitAt(code, b, c + j1 + t, j2);
      SplitAt(code, b, c + j1, t);
      SplitAt(code, b, c, j1);
    case Brackets =>
      SplitAt(code, b, c + [Do(CONDBEGIN)] + t + [Do(CONDELSE)] + f, [Do(CONDEND), Push(0)]);
      SplitAt(code, b, c + [Do(CONDBEGIN)] + t + [Do(CONDELSE)], f);
      SplitAt(code, b, c + [Do(CONDBEGIN)] + t, [Do(CONDELSE)]);
      SplitAt(code, b, c + [Do(CONDBEGIN)], t);
      SplitAt(code, b, c, [Do(CONDBEGIN)]);
  }

  lemma IfJumps(code: seq<Instr>, b: nat, c: seq<Instr>, t: seq<Instr>, f: seq<Instr>)
    requires CodeAt(code, b, IfCode(b, c, t, f, Jumps))
    ensures CodeAt(code, b + |c|, [Push(ElseAt(b, c, t, Jumps)), Do(JUMPF)])
    ensures CodeAt(code, ThenAt(b, c, Jumps) + |t|, [Push(ElseAt(b, c, t, Jumps) + |f|), Do(JUMP)])
    ensures CodeAt(code, ElseAt(b, c, t, Jumps) + |f|, [Push(0)])
  {
    hide CodeAt;
    var els := b + |c| + 2 + |t| + 2;
    var j1, j2 := [Push(els), Do(JUMPF)], [Push(els + |f|), Do(JUMP)];
    SplitAt(code, b, c + j1 + t + j2 + f, [Push(0)]);
    SplitAt(code, b, c + j1 + t + j2, f);
    SplitAt(code, b, c + j1 + t, j2);
    SplitAt(code, b, c + j1, t);
    SplitAt(code, b, c, j1);
  }

  lemma IfBrackets(code: seq<Instr>, b: nat, c: seq<Instr>, t: seq<Instr>, f: seq<Instr>)
    requires CodeAt(code, b, IfCode(b, c, t, f, Brackets))
    ensures CodeAt(code, b + |c|, [Do(CONDBEGIN)] + t + [Do(CONDELSE)] + f + [Do(CONDEND)])
    ensures CodeAt(code, b + |c|, [Do(CONDBEGIN)])
    ensures CodeAt(code, ThenAt(b, c, Brackets) + |t|, [Do(CONDELSE)])
    ensures CodeAt(code, ElseAt(b, c, t, Brackets) + |f|, [Do(CONDEND)])
    ensures CodeAt(code, ElseAt(b, c, t, Brackets) + |f| + 1, [Push(0)])
  {
    hide CodeAt;
    var inner := [Do(CONDBEGIN)] + t + [Do(CONDELSE)] + f + [Do(CONDEND)];
    assert IfCode(b, c, t, f, Brackets) == c + inner + [Push(0)];
    SplitAt(code, b, c + inner, [Push(0)]);
    SplitAt(code, b, c, inner);
    SplitAt(code, b + |c|, [Do(CONDBEGIN)] + t + [Do(CONDELSE)] + f, [Do(CONDEND)]);
    SplitAt(code, b + |c|, [Do(CONDBEGIN)] + t + [Do(CONDELSE)], f);
    SplitAt(code, b + |c|, [Do(CONDBEGIN)] + t, [Do(CONDELSE)]);
    SplitAt(code, b + |c|, [Do(CONDBEGIN)], t);
  }

  lemma RunBranch(c: Ctx, b: nat, cc: seq<Instr>, ct: seq<Instr>, cf: seq<Instr>, v: Val,
                  st: seq<Val>, env: Env, mem: Mem)
    requires CodeAt(c.p.code, b, IfCode(b, cc, ct, cf, c.t.scheme)) && Balanced(ct) && Balanced(cf)
    ensures Reaches(c.p, Cfg(c, b + |cc|, st + [v], env, mem),
                    Cfg(c, if ToBool(v, mem) then ThenAt(b, cc, c.t.scheme) else ElseAt(b, cc, ct, c.t.scheme),
                        st, env, mem))
  {
    hide SlotsOf, Meets, ToBool, CodeAt, Balanced, Scan;
    match c.t.scheme
    case Jumps =>
      IfJumps(c.p.code, b, cc, ct, cf);
      RunJumpF(c, b + |cc|, ElseAt(b, cc, ct, Jumps), v, st, env, mem);
    case Brackets =>
      IfBrackets(c.p.code, b, cc, ct, cf);
      CondScans(c.p.code, b + |cc|, ct, cf);
      Cell(c.p.code, b + |cc|, [Do(CONDBEGIN)], 0);
      PopPush(st, v);
      OneStep(c.p, Cfg(c, b + |cc|, st + [v], env, mem));
  }

  lemma RunThenJump(c: Ctx, b: nat, cc: seq<Instr>, ct: seq<Instr>, cf: seq<Instr>,
                    st: seq<Val>, env: Env, mem: Mem)
    requires CodeAt(c.p.code, b, IfCode(b, cc, ct, cf, Jumps))
    ensures Reaches(c.p, Cfg(c, ThenAt(b, cc, Jumps) + |ct|, st, env, mem),
                    Cfg(c, b + |IfCode(b, cc, ct, cf, Jumps)|, st + [Num(0)], env, mem))
  {
    hide Cfg, Meets, CodeAt, Scan;
    IfJumps(c.p.code, b, cc, ct, cf);
    var target := ElseAt(b, cc, ct, Jumps) + |cf|;
    RunJump(c, b + |cc| + 2 + |ct|, target, st, env, mem);
    RunPush(c, target, 0, st, env, mem);
    Chain(c.p, Cfg(c, ThenAt(b, cc, Jumps) + |ct|, st, env, mem), Cfg(c, target, st, env, mem),
          Comes(Next(Cfg(c, b + |IfCode(b, cc, ct, cf, Jumps)|, st + [Num(0)], env, mem))));
  }

  lemma RunThenElse(c: Ctx, b: nat, cc: seq<Instr>, ct: seq<Instr>, cf: seq<Instr>,
                    st: seq<Val>, env: Env, mem: Mem)
    requires CodeAt(c.p.code, b, IfCode(b, cc, ct, cf, Brackets)) && Balanced(ct) && Balanced(cf)
    ensures Reaches(c.p, Cfg(c, ThenAt(b, cc, Brackets) + |ct|, st, env, mem),
                    Cfg(c, b + |IfCode(b, cc, ct, cf, Brackets)|, st + [Num(0)], env, mem))
  {
    hide SlotsOf, Meets, CodeAt, Balanced, Scan;
    var s := Cfg(c, ThenAt(b, cc, Brackets) + |ct|, st, env, mem);
    var target := ElseAt(b, cc, ct, Brackets) + |cf| + 1;
    IfBrackets(c.p.code, b, cc, ct, cf);
    CondScans(c.p.code, b + |cc|, ct, cf);
    Cell(c.p.code, b + |cc| + 1 + |ct|, [Do(CONDELSE)], 0);
    OneStep(c.p, s);
    assert Step(c.p, s) == Next(Cfg(c, target, st, env, mem));
    hide Step, Cfg;
    RunPush(c, target, 0, st, env, mem);
    Chain(c.p, s, Cfg(c, target, st, env, mem),
          Comes(Next(Cfg(c, b + |IfCode(b, cc, ct, cf, Brackets)|, st + [Num(0)], env, mem))));
  }

  lemma RunThenEnd(c: Ctx, b: nat, cc: seq<Instr>, ct: seq<Instr>, cf: seq<Instr>,
                   st: seq<Val>, env: Env, mem: Mem)
    requires CodeAt(c.p.code, b, IfCode(b, cc, ct, cf, c.t.scheme)) && Balanced(ct) && Balanced(cf)
    ensures Reaches(c.p, Cfg(c, ThenAt(b, cc, c.t.scheme) + |ct|, st, env, mem),
                    Cfg(c, b + |IfCode(b, cc, ct, cf, c.t.scheme)|, st + [Num(0)], env, mem))
  {
    hide Cfg, Meets, CodeAt, Balanced, IfCode, ThenAt;
    match c.t.scheme
    case Jumps => RunThenJump(c, b, cc, ct, cf, st, env, mem);
    case Brackets => RunThenElse(c, b, cc, ct, cf, st, env, mem);
  }

  lemma RunElseEnd(c: Ctx, b: nat, cc: seq<Instr>, ct: seq<Instr>, cf: seq<Instr>,
                   st: seq<Val>, env: Env, mem: Mem)
    requires CodeAt(c.p.code, b, IfCode(b, cc, ct, cf, c.t.scheme))
    ensures Reaches(c.p, Cfg(c, ElseAt(b, cc, ct, c.t.scheme) + |cf|, st, env, mem),
                    Cfg(c, b + |IfCode(b, cc, ct, cf, c.t.scheme)|, st + [Num(0)], env, mem))
  {
    hide SlotsOf, Meets, CodeAt, Scan;
    var at := ElseAt(b, cc, ct, c.t.scheme) + |cf|;
    match c.t.scheme
    case Jumps =>
      IfJumps(c.p.code, b, cc, ct, cf);
      RunPush(c, at, 0, st, env, mem);
    case Brackets =>
      IfBrackets(c.p.code, b, cc, ct, cf);
      Cell(c.p.code, at, [Do(CONDEND)], 0);
      OneStep(c.p, Cfg(c, at, st, env, mem));
      RunPush(c, at + 1, 0, st, env, mem);
      Chain(c.p, Cfg(c, at, st, env, mem), Cfg(c, at + 1, st, env, mem),
            Comes(Next(Cfg(c, at + 2, st + [Num(0)], env, mem))));
  }

  // ----- while -----

  /** The activation while it is inside the loop that starts at `b`: under the structured lowering the
      loop stack's top is the address of LOOPBEGIN. */
  function InLoop(c: Ctx, b: nat): Ctx {
    if c.t.scheme == Jumps then c else c.(loops := c.loops + [b])
  }

  lemma WhileParts(code: seq<Instr>, b: nat, cc: seq<Instr>, body: seq<Instr>, scheme: Scheme)
    requires CodeAt(code, b, WhileCode(b, cc, body, scheme))
    ensures CodeAt(code, b + LoopGap(scheme), cc)
    ensures CodeAt(code, BodyAt(b, cc, scheme), body)
  {
    hide CodeAt;
    match scheme
    case Jumps =>
      var j1, j2 := [Push(b + |cc| + 2 + |body| + 2), Do(JUMPF)], [Push(b), Do(JUMP)];
      SplitAt(code, b, cc + j1 + body + j2, [Push(0)]);
      SplitAt(code, b, cc + j1 + body, j2);
      SplitAt(code, b, cc + j1, body);
      SplitAt(code, b, cc, j1);
    case Brackets =>
      SplitAt(code, b, [Do(LOOPBEGIN)] + cc + [Do(LOOPBODY)] + body, [Do(LOOPEND), Push(0)]);
      SplitAt(code, b, [Do(LOOPBEGIN)] + cc + [Do(LOOPBODY)], body);
      SplitAt(code, b, [Do(LOOPBEGIN)] + cc, [Do(LOOPBODY)]);
      SplitAt(code, b, [Do(LOOPBEGIN)], cc);
  }

  lemma WhileJumps(code: seq<Instr>, b: nat, cc: seq<Instr>, body: seq<Instr>)
    requires CodeAt(code, b, WhileCode(b, cc, body, Jumps))
    ensures CodeAt(code, b + |cc|, [Push(b + |cc| + |body| + 4), Do(JUMPF)])
    ensures CodeAt(code, b + |cc| + 2 + |body|, [Push(b), Do(JUMP)])
    ensures CodeAt(code, b + |cc| + |body| + 4, [Push(0)])
  {
    hide CodeAt;
    var j1, j2 := [Push(b + |cc| + 2 + |body| + 2), Do(JUMPF)], [Push(b), Do(JUMP)];
    SplitAt(code, b, cc + j1 + body + j2, [Push(0)]);
    SplitAt(code, b, cc + j1 + body, j2);
    SplitAt(code, b, cc + j1, body);
    SplitAt(code, b, cc, j1);
  }

  lemma WhileBrackets(code: seq<Instr>, b: nat, cc: seq<Instr>, body: seq<Instr>)
    requires CodeAt(code, b, WhileCode(b, cc, body, Brackets))
    ensures CodeAt(code, b, [Do(LOOPBEGIN)])
    ensures CodeAt(code, b + 1 + |cc|, [Do(LOOPBODY)] + body + [Do(LOOPEND)])
    ensures CodeAt(code, b + 1 + |cc|, [Do(LOOPBODY)])
    ensures CodeAt(code, b + |cc| + |body| + 2, [Do(LOOPEND)])
    ensures CodeAt(code, b + |cc| + |body| + 3, [Push(0)])
  {
    hide CodeAt;
    var inner := [Do(LOOPBODY)] + body + [Do(LOOPEND)];
    assert WhileCode(b, cc, body, Brackets) == [Do(LOOPBEGIN)] + cc + inner + [Push(0)];
    SplitAt(code, b, [Do(LOOPBEGIN)] + cc + inner, [Push(0)]);
    SplitAt(code, b, [Do(LOOPBEGIN)] + cc, inner);
    SplitAt(code, b, [Do(LOOPBEGIN)], cc);
    SplitAt(code, b + 1 + |cc|, [Do(LOOPBODY)] + body, [Do(LOOPEND)]);
    SplitAt(code, b + 1 + |cc|, [Do(LOOPBODY)], body);
  }

  lemma RunLoopEntry(c: Ctx, b: nat, cc: seq<Instr>, body: seq<Instr>, st: seq<Val>, env: Env, mem: Mem)
    requires CodeAt(c.p.code, b, WhileCode(b, cc, body, c.t.scheme))
    ensures Reaches(c.p, Cfg(c, b, st, env, mem), Cfg(InLoop(c, b), b + LoopGap(c.t.scheme), st, env, mem))
  {
    hide SlotsOf, Meets, CodeAt;
    var s := Cfg(c, b, st, env, mem);
    match c.t.scheme
    case Jumps => NoStep(c.p, s);
    case Brackets =>
      WhileBrackets(c.p.code, b, cc, body);
      Cell(c.p.code, b, [Do(LOOPBEGIN)], 0);
      assert s.frames[..|s.frames| - 1] == c.callers;
      OneStep(c.p, s);
  }

  lemma RunLoopBody(c: Ctx, b: nat, cc: seq<Instr>, body: seq<Instr>, v: Val,
                    st: seq<Val>, env: Env, mem: Mem)
    requires CodeAt(c.p.code, b, WhileCode(b, cc, body, c.t.scheme)) && ToBool(v, mem)
    ensures Reaches(c.p, Cfg(InLoop(c, b), b + LoopGap(c.t.scheme) + |cc|, st + [v], env, mem),
                    Cfg(InLoop(c, b), BodyAt(b, cc, c.t.scheme), st, env, mem))
  {
    hide SlotsOf, Meets, CodeAt, Scan;
    match c.t.scheme
    case Jumps =>
      WhileJumps(c.p.code, b, cc, body);
      RunJumpF(c, b + |cc|, b + |cc| + |body| + 4, v, st, env, mem);
    case Brackets =>
      WhileBrackets(c.p.code, b, cc, body);
      Cell(c.p.code, b + 1 + |cc|, [Do(LOOPBODY)], 0);
      PopPush(st, v);
      OneStep(c.p, Cfg(InLoop(c, b), b + 1 + |cc|, st + [v], env, mem));
  }

  /** The step of LOOPBODY on a false condition. */
  lemma StepLeaves(c: Ctx, b: nat, cc: seq<Instr>, body: seq<Instr>, v: Val, st: seq<Val>, env: Env, mem: Mem)
    requires CodeAt(c.p.code, b, WhileCode(b, cc, body, Brackets)) && Balanced(body) && !ToBool(v, mem)
    ensures Step(c.p, Cfg(c.(loops := c.loops + [b]), b + 1 + |cc|, st + [v], env, mem)) ==
            Next(Cfg(c, b + |cc| + |body| + 3, st, env, mem))
  {
    hide SlotsOf, CodeAt, Balanced, Scan, WhileCode;
    WhileBrackets(c.p.code, b, cc, body);
    Cell(c.p.code, b + 1 + |cc|, [Do(LOOPBODY)], 0);
    LoopScan(c.p.code, b + 1 + |cc|, body);
    PopPush(st, v);
    var s := Cfg(c.(loops := c.loops + [b]), b + 1 + |cc|, st + [v], env, mem);
    assert s.frames[..|s.frames| - 1] == c.callers;
    assert (c.loops + [b])[..|c.loops|] == c.loops;
  }

  /** To the cell that pushes the loop's 0. */
  lemma RunLoopOut(c: Ctx, b: nat, cc: seq<Instr>, body: seq<Instr>, v: Val, st: seq<Val>, env: Env, mem: Mem)
    requires CodeAt(c.p.code, b, WhileCode(b, cc, body, c.t.scheme)) && Balanced(body) && !ToBool(v, mem)
    ensures var exit := b + |WhileCode(b, cc, body, c.t.scheme)| - 1;
            && exit >= b && CodeAt(c.p.code, exit, [Push(0)])
            && Reaches(c.p, Cfg(InLoop(c, b), b + LoopGap(c.t.scheme) + |cc|, st + [v], env, mem),
                       Cfg(c, exit, st, env, mem))
  {
    hide Cfg, Meets, CodeAt, Balanced, Step;
    match c.t.scheme
    case Jumps =>
      WhileJumps(c.p.code, b, cc, body);
      RunJumpF(c, b + |cc|, b + |cc| + |body| + 4, v, st, env, mem);
    case Brackets =>
      WhileBrackets(c.p.code, b, cc, body);
      StepLeaves(c, b, cc, body, v, st, env, mem);
      OneStep(c.p, Cfg(InLoop(c, b), b + 1 + |cc|, st + [v], env, mem));
  }

  /** Leaving the loop restores the loop stack. */
  lemma RunLoopExit(c: Ctx, b: nat, cc: seq<Instr>, body: seq<Instr>, v: Val,
                    st: seq<Val>, env: Env, mem: Mem)
    requires CodeAt(c.p.code, b, WhileCode(b, cc, body, c.t.scheme)) && Balanced(body) && !ToBool(v, mem)
    ensures Reaches(c.p, Cfg(InLoop(c, b), b + LoopGap(c.t.scheme) + |cc|, st + [v], env, mem),
                    Cfg(c, b + |WhileCode(b, cc, body, c.t.scheme)|, st + [Num(0)], env, mem))
  {
    hide Cfg, Meets, CodeAt, Balanced, WhileCode;
    var exit := b + |WhileCode(b, cc, body, c.t.scheme)| - 1;
    RunLoopOut(c, b, cc, body, v, st, env, mem);
    RunPush(c, exit, 0, st, env, mem);
    Chain(c.p, Cfg(InLoop(c, b), b + LoopGap(c.t.scheme) + |cc|, st + [v], env, mem), Cfg(c, exit, st, env, mem),
          Comes(Next(Cfg(c, exit + 1, st + [Num(0)], env, mem))));
  }

  /** From the end of the body back to the condition; a run that goes on from there gains a step. */
  lemma RunLoopBack(c: Ctx, b: nat, cc: seq<Instr>, body: seq<Instr>, st: seq<Val>, env: Env, mem: Mem, g: Goal)
    requires CodeAt(c.p.code, b, WhileCode(b, cc, body, c.t.scheme))
    requires Meets(c.p, Cfg(InLoop(c, b), b + LoopGap(c.t.scheme), st, env, mem), g)
    ensures Meets(c.p, Cfg(InLoop(c, b), BodyAt(b, cc, c.t.scheme) + |body|, st, env, mem), g)
    ensures g.Runs? ==>
              Meets(c.p, Cfg(InLoop(c, b), BodyAt(b, cc, c.t.scheme) + |body|, st, env, mem), Runs(g.k + 1))
  {
    hide SlotsOf, Meets, CodeAt;
    var c' := InLoop(c, b);
    var at := BodyAt(b, cc, c.t.scheme) + |body|;
    var s, start := Cfg(c', at, st, env, mem), Cfg(c', b + LoopGap(c.t.scheme), st, env, mem);
    match c.t.scheme
    case Jumps =>
      WhileJumps(c.p.code, b, cc, body);
      RunJump(c, at, b, st, env, mem);
      var mid := Cfg(c', at + 1, st + [Num(b)], env, mem);
      ChainStep(c.p, mid, start, g);
      ChainStep(c.p, s, mid, g);
      if g.Runs? { ChainStep(c.p, s, mid, Runs(g.k)); }
    case Brackets =>
      WhileBrackets(c.p.code, b, cc, body);
      Cell(c.p.code, at, [Do(LOOPEND)], 0);
      assert Step(c.p, s) == Next(start);
      ChainStep(c.p, s, start, g);
  }
}
