/** What compiled programs do, stated for whole runs. */
module Theorems {
  import opened Values
  import opened Source
  import opened Machine
  import opened Codegen
  import opened Simulation
  import opened Correctness
  import opened CompilerCorrectness
  import opened Linking

  /** The machine result a finished evaluation of the main statements stands for. */
  function ResultOf(src: Program, scheme: Scheme, o: Outcome<seq<Val>>): StepResult
    requires !o.Timeout?
  {
    match o
    case Done(_, env, mem) =>
      Ended(State(|ProgramCode(src, scheme)|, [], [Frame(0, [], SlotsOf(MainTables(src, scheme).vars, env))], mem))
    case Returned(v, mem) => Ended(State(1, [v], [], mem))
    case Halted(mem) => StepResult.Halted(mem)
    case Undefined => StepResult.Undefined
  }

  lemma InitialIs(src: Program, scheme: Scheme, remote: Remote, mem: Mem)
    ensures Initial(mem) == Cfg(MainCtx(src, scheme, remote), 0, [], map[], mem)
  {
    SlotsGet(MainTables(src, scheme).vars, map[], 0);
    var s := SlotsOf(MainTables(src, scheme).vars, map[]);
    if s != [] { SlotsGet(MainTables(src, scheme).vars, map[], |s| - 1); }
  }

  /** A program without a top-level `return` runs as the interpreter says, whatever its fuel. */
  lemma ProgramCorrect(src: Program, scheme: Scheme, remote: Remote, k: nat, mem: Mem)
    requires WellFormedProgram(src)
    ensures var o := EvalProgram(src, k, mem);
            && !o.Returned?
            && Meets(Compiled(src, scheme, remote), Initial(mem),
                     if o.Timeout? then Runs(k) else Comes(ResultOf(src, scheme, o)))
  {
    hide Meets, SlotsOf, Step, CodeAt, Linked, EvalStmts, Ready, FuncsCode, CodeStmts;
    var c := MainCtx(src, scheme, remote);
    var o := EvalProgram(src, k, mem);
    NoReturnStmts(src, k, src.main, map[], mem);
    InitialIs(src, scheme, remote, mem);
    MainReady(src, scheme, remote);
    CompiledParts(src, scheme, remote);
    var b := |FuncsCode(src.funs, c.p.consts, scheme)|;
    RunDefinitions(c, src.funs, [], map[], mem);
    StmtsCorrect(c, k, src.main, b, false, [], map[], mem);
    var start := Cfg(c, b, [], map[], mem);
    var goal := if o.Timeout? then Runs(k) else Comes(ResultOf(src, scheme, o));
    if o.Done? {
      var end := Cfg(c, |c.p.code|, [], o.env, o.mem);
      assert end.frames == [Frame(0, [], SlotsOf(c.t.vars, o.env))];
      EndOfCode(c.p, end);
      Chain(c.p, start, end, goal);
    }
    Chain(c.p, Initial(mem), start, goal);
  }

  lemma EndOfCode(p: Image, s: State)
    requires s.pc == |p.code|
    ensures Meets(p, s, Comes(Ended(s)))
  {
    hide Meets;
    OneStep(p, s);
  }

  /** A run has one final result: before it the machine is running, from it on nothing changes. */
  lemma FinalResult(p: Image, s: State, r: StepResult, n: nat)
    requires Meets(p, s, Comes(r)) && !r.Next?
    ensures StepN(p, s, n).Next? || StepN(p, s, n) == r
  {
    hide Step;
    var m: nat :| StepN(p, s, m) == r;
    if m <= n { StepNSplit(p, s, m, n - m); } else { StepNSplit(p, s, n, m - n); }
  }

  /** Whole-run safety, for terminating and non-terminating runs alike: no assertion of any opcode
      fires, no unknown opcode is met, and a run that ends leaves an empty operand stack, the one main
      frame and an empty loop stack. */
  lemma NeverFaults(src: Program, scheme: Scheme, remote: Remote, mem: Mem, n: nat)
    requires WellFormedProgram(src)
    ensures var r := StepN(Compiled(src, scheme, remote), Initial(mem), n);
            && !r.Fault? && !r.Outside?
            && (r.Ended? ==> r.s.stack == [] && |r.s.frames| == 1 && r.s.frames[0].loops == [])
  {
    hide Step, EvalStmts, ProgramCode, MainTables;
    ProgramCorrect(src, scheme, remote, n, mem);
    var o := EvalProgram(src, n, mem);
    if !o.Timeout? { FinalResult(Compiled(src, scheme, remote), Initial(mem), ResultOf(src, scheme, o), n); }
  }

  /** Both directions: the machine comes to a final result exactly when some amount of fuel lets the
      interpreter come to it. */
  lemma ResultsAgree(src: Program, scheme: Scheme, remote: Remote, mem: Mem, r: StepResult)
    requires WellFormedProgram(src) && !r.Next?
    ensures (exists n: nat :: StepN(Compiled(src, scheme, remote), Initial(mem), n) == r) <==>
            (exists k: nat :: !EvalProgram(src, k, mem).Timeout? &&
                              ResultOf(src, scheme, EvalProgram(src, k, mem)) == r)
  {
    hide Step, EvalStmts, ProgramCode, MainTables, EvalProgram, ResultOf;
    var p := Compiled(src, scheme, remote);
    if n: nat :| StepN(p, Initial(mem), n) == r {
      ProgramCorrect(src, scheme, remote, n, mem);
      var o := EvalProgram(src, n, mem);
      assert !o.Timeout?;
      ResultIsFinal(src, scheme, o);
      FinalResult(p, Initial(mem), ResultOf(src, scheme, o), n);
    }
    if k: nat :| !EvalProgram(src, k, mem).Timeout? && ResultOf(src, scheme, EvalProgram(src, k, mem)) == r {
      ProgramCorrect(src, scheme, remote, k, mem);
    }
  }

  lemma ResultIsFinal(src: Program, scheme: Scheme, o: Outcome<seq<Val>>)
    requires !o.Timeout?
    ensures !ResultOf(src, scheme, o).Next?
  {
  }

  ghost predicate RunsForever(p: Image, s: State) {
    forall n: nat :: StepN(p, s, n).Next?
  }

  ghost predicate NeverFinishes(src: Program, mem: Mem) {
    forall k: nat :: EvalProgram(src, k, mem).Timeout?
  }

  /** The machine runs for ever exactly when no amount of fuel suffices. */
  lemma DivergenceAgrees(src: Program, scheme: Scheme, remote: Remote, mem: Mem)
    requires WellFormedProgram(src)
    ensures RunsForever(Compiled(src, scheme, remote), Initial(mem)) <==> NeverFinishes(src, mem)
  {
    hide Step, EvalStmts, ProgramCode, MainTables, EvalProgram, ResultOf;
    var p := Compiled(src, scheme, remote);
    if RunsForever(p, Initial(mem)) {
      forall k: nat ensures EvalProgram(src, k, mem).Timeout? {
        ProgramCorrect(src, scheme, remote, k, mem);
        var o := EvalProgram(src, k, mem);
        if !o.Timeout? { ResultIsFinal(src, scheme, o); }
      }
    }
    if NeverFinishes(src, mem) {
      forall n: nat ensures StepN(p, Initial(mem), n).Next? {
        assert EvalProgram(src, n, mem).Timeout?;
        ProgramCorrect(src, scheme, remote, n, mem);
      }
    }
  }

  /** Final results that differ at most in the address where the code ends. */
  predicate SameResult(r: StepResult, r': StepResult) {
    match (r, r')
    case (Ended(s), Ended(s')) => s.stack == s'.stack && s.frames == s'.frames && s.mem == s'.mem
    case _ => r == r'
  }

  /** The two lowerings of `if` and `while` are interchangeable: whatever result a program comes to
      under one, it comes to under the other, from every store. */
  lemma LoweringsAgree(src: Program, s1: Scheme, s2: Scheme, remote: Remote, mem: Mem, n: nat)
    requires WellFormedProgram(src) && !StepN(Compiled(src, s1, remote), Initial(mem), n).Next?
    ensures exists m: nat :: SameResult(StepN(Compiled(src, s1, remote), Initial(mem), n),
                                        StepN(Compiled(src, s2, remote), Initial(mem), m))
  {
    hide Step, EvalStmts, ProgramCode, EvalProgram;
    var p1, p2 := Compiled(src, s1, remote), Compiled(src, s2, remote);
    ProgramCorrect(src, s1, remote, n, mem);
    ProgramCorrect(src, s2, remote, n, mem);
    var o := EvalProgram(src, n, mem);
    ResultIsFinal(src, s1, o);
    FinalResult(p1, Initial(mem), ResultOf(src, s1, o), n);
    var m: nat :| StepN(p2, Initial(mem), m) == ResultOf(src, s2, o);
    assert SameResult(StepN(p1, Initial(mem), n), StepN(p2, Initial(mem), m));
  }

  /** Evaluations with different fuel that both finish agree. */
  lemma FuelIrrelevant(src: Program, k1: nat, k2: nat, mem: Mem, remote: Remote)
    requires WellFormedProgram(src)
    requires !EvalProgram(src, k1, mem).Timeout? && !EvalProgram(src, k2, mem).Timeout?
    ensures ResultOf(src, Jumps, EvalProgram(src, k1, mem)) == ResultOf(src, Jumps, EvalProgram(src, k2, mem))
  {
    hide Step, EvalStmts, ProgramCode, MainTables, EvalProgram, ResultOf;
    var p := Compiled(src, Jumps, remote);
    ProgramCorrect(src, Jumps, remote, k1, mem);
    ProgramCorrect(src, Jumps, remote, k2, mem);
    var r1, r2 := ResultOf(src, Jumps, EvalProgram(src, k1, mem)), ResultOf(src, Jumps, EvalProgram(src, k2, mem));
    var n: nat :| StepN(p, Initial(mem), n) == r2;
    ResultIsFinal(src, Jumps, EvalProgram(src, k1, mem));
    ResultIsFinal(src, Jumps, EvalProgram(src, k2, mem));
    FinalResult(p, Initial(mem), r1, n);
  }
}
