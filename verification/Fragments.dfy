/** Two statement forms that leave the operand stack at a height of their own: the counted `repeat` loop,
    and the code around a database block. */
module Fragments {
  import opened Values
  import opened Bytecode
  import opened Source
  import opened Machine
  import opened Codegen
  import opened Simulation
  import opened Correctness
  import opened CompilerCorrectness

  // ----- repeat -----

  /** The body `n` times over. */
  function EvalRepeat(p: Program, k: nat, n: nat, body: Exprs, env: Env, mem: Mem): Outcome<seq<Val>> {
    if n == 0 then Done([], env, mem)
    else
      var (_, env1, mem1) :- EvalStmts(p, k, body, env, mem);
      EvalRepeat(p, k, n - 1, body, env1, mem1)
  }

  lemma RepeatParts(code: seq<Instr>, n: nat, body: Exprs, b: nat, t: Tables)
    requires CodeAt(code, b, RepeatCode(n, body, b, t))
    ensures var cb := CodeStmts(body, b + 8, t);
            var target := b + 10 + |cb|;
            && CodeAt(code, b, [Push(n)])
            && CodeAt(code, b + 1, LoopHead(target))
            && CodeAt(code, b + 8, cb)
            && CodeAt(code, b + 8 + |cb|, [Push(b + 1), Do(JUMP)])
            && CodeAt(code, target, [Do(DISCARD)])
            && |RepeatCode(n, body, b, t)| == |cb| + 11
  {
    hide CodeAt, CodeStmts;
    var cb := CodeStmts(body, b + 8, t);
    var head := LoopHead(b + 10 + |cb|);
    SplitAt(code, b, [Push(n)] + head + cb + [Push(b + 1), Do(JUMP)], [Do(DISCARD)]);
    SplitAt(code, b, [Push(n)] + head + cb, [Push(b + 1), Do(JUMP)]);
    SplitAt(code, b, [Push(n)] + head, cb);
    SplitAt(code, b, [Push(n)], head);
  }

  lemma HeadParts(code: seq<Instr>, at: nat, target: nat)
    requires CodeAt(code, at, LoopHead(target))
    ensures CodeAt(code, at, [Do(DUP)]) && CodeAt(code, at + 1, [Push(target), Do(JUMPF)])
    ensures CodeAt(code, at + 3, [Push(1)]) && CodeAt(code, at + 4, [Do(OpFor(Minus))])
    ensures CodeAt(code, at + 5, [Push(0)]) && CodeAt(code, at + 6, [Do(OpFor(Minus))])
  {
    hide CodeAt;
    var test := [Push(target), Do(JUMPF)];
    SplitAt(code, at, [Do(DUP)] + test + [Push(1)] + [Do(SUB)] + [Push(0)], [Do(SUB)]);
    SplitAt(code, at, [Do(DUP)] + test + [Push(1)] + [Do(SUB)], [Push(0)]);
    SplitAt(code, at, [Do(DUP)] + test + [Push(1)], [Do(SUB)]);
    SplitAt(code, at, [Do(DUP)] + test, [Push(1)]);
    SplitAt(code, at, [Do(DUP)], test);
  }

  lemma RunDup(c: Ctx, at: nat, v: Val, st: seq<Val>, env: Env, mem: Mem)
    requires CodeAt(c.p.code, at, [Do(DUP)])
    ensures Reaches(c.p, Cfg(c, at, st + [v], env, mem), Cfg(c, at + 1, st + [v] + [v], env, mem))
  {
    hide SlotsOf, Meets;
    Cell(c.p.code, at, [Do(DUP)], 0);
    PopPush(st, v);
    OneStep(c.p, Cfg(c, at, st + [v], env, mem));
  }

  /** The test of the counter: zero leaves the loop. */
  lemma RunRepeatTest(c: Ctx, at: nat, target: nat, n: nat, st: seq<Val>, env: Env, mem: Mem)
    requires CodeAt(c.p.code, at, LoopHead(target))
    ensures Reaches(c.p, Cfg(c, at, st + [Num(n)], env, mem),
                    Cfg(c, if n == 0 then target else at + 3, st + [Num(n)], env, mem))
  {
    hide SlotsOf, Meets, CodeAt, Step, Cfg;
    HeadParts(c.p.code, at, target);
    RunDup(c, at, Num(n), st, env, mem);
    RunJumpF(c, at + 1, target, Num(n), st + [Num(n)], env, mem);
    Chain(c.p, Cfg(c, at, st + [Num(n)], env, mem), Cfg(c, at + 1, st + [Num(n)] + [Num(n)], env, mem),
          Comes(Next(Cfg(c, if n == 0 then target else at + 3, st + [Num(n)], env, mem))));
  }

  /** The counter is taken down by one. */
  lemma RunCountdown(c: Ctx, at: nat, target: nat, n: nat, st: seq<Val>, env: Env, mem: Mem)
    requires CodeAt(c.p.code, at, LoopHead(target)) && 0 < n <= INT_MAX
    ensures Reaches(c.p, Cfg(c, at + 3, st + [Num(n)], env, mem), Cfg(c, at + 7, st + [Num(n - 1)], env, mem))
  {
    hide SlotsOf, Meets, CodeAt, Step, Cfg;
    HeadParts(c.p.code, at, target);
    var goal := Comes(Next(Cfg(c, at + 7, st + [Num(n - 1)], env, mem)));
    var s1, s2 := Cfg(c, at + 4, st + [Num(n)] + [Num(1)], env, mem), Cfg(c, at + 5, st + [Num(1 - n)], env, mem);
    var s3 := Cfg(c, at + 6, st + [Num(1 - n)] + [Num(0)], env, mem);
    RunPush(c, at + 3, 1, st + [Num(n)], env, mem);
    RunBinary(c, 0, at + 4, Minus, Num(n), Num(1), st, env, mem);
    RunPush(c, at + 5, 0, st + [Num(1 - n)], env, mem);
    RunBinary(c, 0, at + 6, Minus, Num(1 - n), Num(0), st, env, mem);
    Chain(c.p, s2, s3, goal);
    Chain(c.p, s1, s2, goal);
    Chain(c.p, Cfg(c, at + 3, st + [Num(n)], env, mem), s1, goal);
  }

  /** From the test of the counter. */
  lemma {:induction false} RepeatLoop(c: Ctx, k: nat, n0: nat, n: nat, body: Exprs, b: nat, st: seq<Val>, env: Env,
                                      mem: Mem)
    requires Ready(c) && CoversAll(c.t, body) && WellFormedStmts(c.src.funs, body, false) && n <= INT_MAX
    requires CodeAt(c.p.code, b, RepeatCode(n0, body, b, c.t))
    ensures Meets(c.p, Cfg(c, b + 1, st + [Num(n)], env, mem),
                  StmtsGoal(c, EvalRepeat(c.src, k, n, body, env, mem), k, b + |RepeatCode(n0, body, b, c.t)|, st))
    decreases n
  {
    hide SlotsOf, Meets, CodeAt, Step, Cfg, Linked, CodeStmts, EvalStmts, LoopHead, RepeatCode;
    RepeatParts(c.p.code, n0, body, b, c.t);
    var cb := CodeStmts(body, b + 8, c.t);
    var target := b + 10 + |cb|;
    var goal := StmtsGoal(c, EvalRepeat(c.src, k, n, body, env, mem), k, target + 1, st);
    var start := Cfg(c, b + 1, st + [Num(n)], env, mem);
    RunRepeatTest(c, b + 1, target, n, st, env, mem);
    if n == 0 {
      RunDiscard(c, target, Num(0), st, env, mem);
      Chain(c.p, start, Cfg(c, target, st + [Num(0)], env, mem), goal);
    } else {
      var st1 := st + [Num(n - 1)];
      RunCountdown(c, b + 1, target, n, st, env, mem);
      StmtsCorrect(c, k, body, b + 8, false, st1, env, mem);
      NoReturnStmts(c.src, k, body, env, mem);
      var o := EvalStmts(c.src, k, body, env, mem);
      if o.Done? {
        RepeatLoop(c, k, n0, n - 1, body, b, st, o.env, o.mem);
        RunJump(c, b + 8 + |cb|, b + 1, st1, o.env, o.mem);
        Chain(c.p, Cfg(c, b + 8 + |cb|, st1, o.env, o.mem), Cfg(c, b + 1, st1, o.env, o.mem), goal);
        Chain(c.p, Cfg(c, b + 8, st1, env, mem), Cfg(c, b + 8 + |cb|, st1, o.env, o.mem), goal);
      }
      Chain(c.p, Cfg(c, b + 4, st + [Num(n)], env, mem), Cfg(c, b + 8, st1, env, mem), goal);
      Chain(c.p, start, Cfg(c, b + 4, st + [Num(n)], env, mem), goal);
    }
  }

  /** `repeat` runs its body exactly n times, from every stack, and ends with the stack it started on. */
  lemma RepeatCorrect(c: Ctx, k: nat, n: nat, body: Exprs, b: nat, st: seq<Val>, env: Env, mem: Mem)
    requires Ready(c) && CoversAll(c.t, body) && WellFormedStmts(c.src.funs, body, false) && n <= INT_MAX
    requires CodeAt(c.p.code, b, RepeatCode(n, body, b, c.t))
    ensures Meets(c.p, Cfg(c, b, st, env, mem),
                  StmtsGoal(c, EvalRepeat(c.src, k, n, body, env, mem), k, b + |RepeatCode(n, body, b, c.t)|, st))
  {
    hide SlotsOf, Meets, CodeAt, Step, Cfg, Linked, CodeStmts, EvalStmts, LoopHead, RepeatCode;
    RepeatParts(c.p.code, n, body, b, c.t);
    RunPush(c, b, n, st, env, mem);
    RepeatLoop(c, k, n, n, body, b, st, env, mem);
    Chain(c.p, Cfg(c, b, st, env, mem), Cfg(c, b + 1, st + [Num(n)], env, mem),
          StmtsGoal(c, EvalRepeat(c.src, k, n, body, env, mem), k, b + |RepeatCode(n, body, b, c.t)|, st));
  }

  // ----- database blocks -----

  function ValuesOf(env: Env, xs: seq<string>): seq<Val> {
    seq(|xs|, i requires 0 <= i < |xs| => Lookup(env, xs[i]))
  }

  function NamesOf(xs: seq<string>): seq<Val> {
    seq(|xs|, i requires 0 <= i < |xs| => Str(xs[i]))
  }

  function StoreAll(env: Env, xs: seq<string>, vs: seq<Val>): Env
    requires |xs| == |vs|
    decreases |xs|
  {
    if xs == [] then env else StoreAll(Update(env, xs[0], vs[0]), xs[1..], vs[1..])
  }

  /** The operands pushed for the outer variables: the first variable's name ends on top. */
  function Pairs(env: Env, xs: seq<string>): (r: seq<Val>)
    ensures |r| == 2 * |xs|
  {
    if xs == [] then [] else Pairs(env, xs[1..]) + [Lookup(env, xs[0])] + [Str(xs[0])]
  }

  lemma {:induction false} RunPushVars(c: Ctx, xs: seq<string>, b: nat, st: seq<Val>, env: Env, mem: Mem)
    requires Ready(c) && CoversNames(c.t, xs) && CodeAt(c.p.code, b, PushVars(xs, c.t))
    ensures Reaches(c.p, Cfg(c, b, st, env, mem), Cfg(c, b + |PushVars(xs, c.t)|, st + Pairs(env, xs), env, mem))
    decreases |xs|
  {
    hide SlotsOf, Meets, CodeAt, Step, Cfg, Linked;
    var s := Cfg(c, b, st, env, mem);
    if xs == [] {
      assert st + Pairs(env, xs) == st;
      NoStep(c.p, s);
    } else {
      var rest := PushVars(xs[1..], c.t);
      var at := b + |rest|;
      SplitAt(c.p.code, b, rest + GetVar(xs[0], c.t), Constant(xs[0], c.t));
      SplitAt(c.p.code, b, rest, GetVar(xs[0], c.t));
      RunPushVars(c, xs[1..], b, st, env, mem);
      var st1 := st + Pairs(env, xs[1..]);
      var st2 := st1 + [Lookup(env, xs[0])];
      RunGetVar(c, at, xs[0], st1, env, mem);
      RunConstant(c, at + 2, xs[0], st2, env, mem);
      assert st + Pairs(env, xs) == st2 + [Str(xs[0])];
      var goal := Comes(Next(Cfg(c, at + 4, st + Pairs(env, xs), env, mem)));
      Chain(c.p, Cfg(c, at, st1, env, mem), Cfg(c, at + 2, st2, env, mem), goal);
      Chain(c.p, s, Cfg(c, at, st1, env, mem), goal);
    }
  }

  lemma {:induction false} RunStoreVars(c: Ctx, xs: seq<string>, vs: seq<Val>, b: nat, st: seq<Val>, env: Env, mem: Mem)
    requires Ready(c) && CoversNames(c.t, xs) && CodeAt(c.p.code, b, StoreVars(xs, c.t)) && |xs| == |vs|
    ensures Reaches(c.p, Cfg(c, b, st + Reverse(vs), env, mem),
                    Cfg(c, b + |StoreVars(xs, c.t)|, st, StoreAll(env, xs, vs), mem))
    decreases |xs|
  {
    hide SlotsOf, Meets, CodeAt, Step, Cfg, Linked, Update;
    var s := Cfg(c, b, st + Reverse(vs), env, mem);
    if xs == [] {
      assert st + Reverse(vs) == st;
      NoStep(c.p, s);
    } else {
      var st1 := st + Reverse(vs[1..]);
      assert st + Reverse(vs) == st1 + [vs[0]];
      SplitAt(c.p.code, b, SetVar(xs[0], c.t), StoreVars(xs[1..], c.t));
      RunSetVar(c, b, xs[0], vs[0], st1, env, mem);
      RunStoreVars(c, xs[1..], vs[1..], b + 2, st, Update(env, xs[0], vs[0]), mem);
      Chain(c.p, s, Cfg(c, b + 2, st1, Update(env, xs[0], vs[0]), mem),
            Comes(Next(Cfg(c, b + |StoreVars(xs, c.t)|, st, StoreAll(env, xs, vs), mem))));
    }
  }

  /** One pair more on top. */
  lemma PairOnTop(st: seq<Val>, v: Val, name: Val, n: nat)
    requires 2 * n <= |st|
    ensures PopPairs(st + [v] + [name], n + 1) == ([name] + PopPairs(st, n).0, [v] + PopPairs(st, n).1)
    ensures Pop(st + [v] + [name], 2 * (n + 1)) == Pop(st, 2 * n)
  {
    PopPush2(st, v, name);
  }

  /** What DBLOCK pops is what was pushed, first variable first. */
  lemma {:induction false} PopPairsPushed(st: seq<Val>, env: Env, xs: seq<string>)
    ensures PopPairs(st + Pairs(env, xs), |xs|) == (NamesOf(xs), ValuesOf(env, xs))
    ensures Pop(st + Pairs(env, xs), 2 * |xs|) == st
    decreases |xs|
  {
    hide Lookup;
    if xs == [] {
      assert NamesOf(xs) == [] && ValuesOf(env, xs) == [];
      assert st + Pairs(env, xs) == st;
    } else {
      var rest := st + Pairs(env, xs[1..]);
      assert st + Pairs(env, xs) == rest + [Lookup(env, xs[0])] + [Str(xs[0])];
      hide PopPairs, Pop, Pairs;
      PopPairsPushed(st, env, xs[1..]);
      PairOnTop(rest, Lookup(env, xs[0]), Str(xs[0]), |xs| - 1);
      assert NamesOf(xs) == [Str(xs[0])] + NamesOf(xs[1..]);
      assert ValuesOf(env, xs) == [Lookup(env, xs[0])] + ValuesOf(env, xs[1..]);
    }
  }

  /** The DBLOCK instruction on abstract operands. */
  lemma StepDblockIs(p: Image, s: State, name: string, text: string, n: nat, rest: seq<Val>, names: seq<Val>,
                     vals: seq<Val>, st: seq<Val>)
    requires |s.stack| == |rest| + 3 && |rest| >= 2 * n
    requires Top(s.stack, 0) == Str(text) && Top(s.stack, 1) == Str(name) && Top(s.stack, 2) == Num(n)
    requires Pop(s.stack, 3) == rest && PopPairs(rest, n) == (names, vals) && Pop(rest, 2 * n) == st
    requires AllStrings(names) && AllScalars(vals)
    ensures var (cols, world) := p.remote(name, Strings(names), vals, s.mem.world);
            StepDblock(p, s) == Next(State(s.pc + 1, st + Reverse(cols), s.frames, s.mem.(world := world)))
  {
    hide Top, Pop, PopPairs, AllStrings, AllScalars, Strings, Reverse;
  }

  lemma RunDblock(c: Ctx, at: nat, xs: seq<string>, name: string, text: string, st: seq<Val>, env: Env, mem: Mem)
    requires CodeAt(c.p.code, at, [Do(DBLOCK)]) && AllScalars(ValuesOf(env, xs))
    ensures var (cols, world) := c.p.remote(name, xs, ValuesOf(env, xs), mem.world);
            Reaches(c.p, Cfg(c, at, st + Pairs(env, xs) + [Num(|xs|)] + [Str(name)] + [Str(text)], env, mem),
                    Cfg(c, at + 1, st + Reverse(cols), env, mem.(world := world)))
  {
    hide SlotsOf, Meets, CodeAt, Lookup, PopPairs, AllScalars, Reverse, StepDblock;
    var rest := st + Pairs(env, xs);
    var full := rest + [Num(|xs|)] + [Str(name)] + [Str(text)];
    var s := Cfg(c, at, full, env, mem);
    assert Top(full, 0) == Str(text) && Top(full, 1) == Str(name) && Top(full, 2) == Num(|xs|) && Pop(full, 3) == rest;
    PopPairsPushed(st, env, xs);
    assert Strings(NamesOf(xs)) == xs;
    StepDblockIs(c.p, s, name, text, |xs|, rest, NamesOf(xs), ValuesOf(env, xs), st);
    StepAt(c.p, s, DBLOCK);
    OneStep(c.p, s);
  }

  lemma BlockParts(code: seq<Instr>, xs: seq<string>, name: string, text: string, b: nat, t: Tables)
    requires CodeAt(code, b, BlockCode(xs, name, text, t))
    ensures var at := b + |PushVars(xs, t)|;
            && CodeAt(code, b, PushVars(xs, t)) && CodeAt(code, at, [Push(|xs|)])
            && CodeAt(code, at + 1, Constant(name, t)) && CodeAt(code, at + 3, Constant(text, t))
            && CodeAt(code, at + 5, [Do(DBLOCK)]) && CodeAt(code, at + 6, StoreVars(xs, t))
            && b + |BlockCode(xs, name, text, t)| == at + 6 + |StoreVars(xs, t)|
  {
    hide CodeAt, PushVars, StoreVars;
    var pv, n, cn, ct := PushVars(xs, t), [Push(|xs|)], Constant(name, t), Constant(text, t);
    SplitAt(code, b, pv + n + cn + ct + [Do(DBLOCK)], StoreVars(xs, t));
    SplitAt(code, b, pv + n + cn + ct, [Do(DBLOCK)]);
    SplitAt(code, b, pv + n + cn, ct);
    SplitAt(code, b, pv + n, cn);
    SplitAt(code, b, pv, n);
  }

  /** Block marshalling: the stored procedure receives the outer variables' names and values in order, the
      returned columns go back into the same variables, and the operand stack is as before.  A procedure
      with at least one INOUT parameter returns one column per parameter. */
  lemma BlockCorrect(c: Ctx, xs: seq<string>, name: string, text: string, b: nat, st: seq<Val>, env: Env, mem: Mem)
    requires Ready(c) && CoversNames(c.t, xs) && name in c.t.consts && text in c.t.consts
    requires CodeAt(c.p.code, b, BlockCode(xs, name, text, c.t)) && AllScalars(ValuesOf(env, xs))
    requires |c.p.remote(name, xs, ValuesOf(env, xs), mem.world).0| == |xs|
    ensures var (cols, world) := c.p.remote(name, xs, ValuesOf(env, xs), mem.world);
            Reaches(c.p, Cfg(c, b, st, env, mem),
                    Cfg(c, b + |BlockCode(xs, name, text, c.t)|, st, StoreAll(env, xs, cols), mem.(world := world)))
  {
    hide SlotsOf, Meets, CodeAt, Step, Cfg, Linked, AllScalars, ValuesOf, BlockCode, StoreVars, PushVars, StoreAll;
    BlockParts(c.p.code, xs, name, text, b, c.t);
    var (cols, world) := c.p.remote(name, xs, ValuesOf(env, xs), mem.world);
    var at := b + |PushVars(xs, c.t)|;
    var st1 := st + Pairs(env, xs);
    var st2 := st1 + [Num(|xs|)];
    var st3 := st2 + [Str(name)];
    var mem' := mem.(world := world);
    RunPushVars(c, xs, b, st, env, mem);
    RunPush(c, at, |xs|, st1, env, mem);
    RunConstant(c, at + 1, name, st2, env, mem);
    RunConstant(c, at + 3, text, st3, env, mem);
    RunDblock(c, at + 5, xs, name, text, st, env, mem);
    RunStoreVars(c, xs, cols, at + 6, st, env, mem');
    var goal := Comes(Next(Cfg(c, at + 6 + |StoreVars(xs, c.t)|, st, StoreAll(env, xs, cols), mem')));
    Chain(c.p, Cfg(c, at + 5, st3 + [Str(text)], env, mem), Cfg(c, at + 6, st + Reverse(cols), env, mem'), goal);
    Chain(c.p, Cfg(c, at + 3, st3, env, mem), Cfg(c, at + 5, st3 + [Str(text)], env, mem), goal);
    Chain(c.p, Cfg(c, at + 1, st2, env, mem), Cfg(c, at + 3, st3, env, mem), goal);
    Chain(c.p, Cfg(c, at, st1, env, mem), Cfg(c, at + 1, st2, env, mem), goal);
    Chain(c.p, Cfg(c, b, st, env, mem), Cfg(c, at, st1, env, mem), goal);
  }

  /** After the block, variable i holds column i and every other variable what it held. */
  lemma {:induction false} StoredColumns(env: Env, xs: seq<string>, vs: seq<Val>, x: string)
    requires |xs| == |vs| && Distinct(xs) && forall i :: 0 <= i < |vs| ==> vs[i] != Undef
    ensures x !in xs ==> Lookup(StoreAll(env, xs, vs), x) == Lookup(env, x)
    ensures forall i :: 0 <= i < |xs| && xs[i] == x ==> Lookup(StoreAll(env, xs, vs), x) == vs[i]
    decreases |xs|
  {
    if xs != [] {
      assert Distinct(xs[1..]);
      StoredColumns(Update(env, xs[0], vs[0]), xs[1..], vs[1..], x);
    }
  }
}
