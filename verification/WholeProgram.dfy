/** From source to the last value freed: a compiled program, run on heap objects with a collection after every
    step, comes to what the interpreter says. */
module WholeProgram {
  import opened Values
  import opened Source
  import opened Machine
  import opened Codegen
  import opened Linking
  import opened Theorems
  import opened CompilerPass
  import opened ObjectMachine
  import Collection
  import Tables
  import Transparency

  /** A run that has ended has ended as the interpreter does with as much fuel, and while the interpreter
      needs more, the machine runs. */
  lemma EndsAsInterpreted(src: Program, scheme: Scheme, remote: Remote, mem: Mem, n: nat)
    requires WellFormedProgram(src)
    ensures var r := StepN(Compiled(src, scheme, remote), Initial(mem), n);
            var o := EvalProgram(src, n, mem);
            && (o.Timeout? ==> r.Next?)
            && (!r.Next? ==> !o.Timeout? && r == ResultOf(src, scheme, o))
  {
    hide Step, EvalStmts, ProgramCode, MainTables, EvalProgram, ResultOf;
    var p, o := Compiled(src, scheme, remote), EvalProgram(src, n, mem);
    ProgramCorrect(src, scheme, remote, n, mem);
    if !o.Timeout? {
      ResultIsFinal(src, scheme, o);
      FinalResult(p, Initial(mem), ResultOf(src, scheme, o), n);
    }
  }

  /** From step `m` on the run has come to `r`. */
  ghost predicate Settled(p: Image, s: State, r: StepResult, m: nat) {
    forall n: nat :: n >= m ==> StepN(p, s, n) == r
  }

  /** A program the interpreter finishes ends on the machine after some number of steps, and stays ended. */
  lemma InterpretedEnds(src: Program, scheme: Scheme, remote: Remote, mem: Mem, k: nat)
    requires WellFormedProgram(src) && !EvalProgram(src, k, mem).Timeout?
    ensures exists m: nat :: Settled(Compiled(src, scheme, remote), Initial(mem),
                                     ResultOf(src, scheme, EvalProgram(src, k, mem)), m)
  {
    hide Step, EvalStmts, ProgramCode, MainTables, EvalProgram, ResultOf;
    var p, r := Compiled(src, scheme, remote), ResultOf(src, scheme, EvalProgram(src, k, mem));
    ProgramCorrect(src, scheme, remote, k, mem);
    ResultIsFinal(src, scheme, EvalProgram(src, k, mem));
    var m: nat :| StepN(p, Initial(mem), m) == r;
    forall n: nat | n >= m ensures StepN(p, Initial(mem), n) == r {
      StepNSplit(p, Initial(mem), m, n - m);
    }
    assert Settled(p, Initial(mem), r, m);
  }

  /** Any run with collections, from the initial state: where it stands, the next step is the one without
      collections, so it ends only as the interpreter does, up to dropped arrays, and it never faults. */
  lemma CollectedRunsAgree(src: Program, scheme: Scheme, remote: Remote, mem: Mem, tr: seq<State>)
    requires WellFormedProgram(src) && Transparency.ForeignOk(Compiled(src, scheme, remote))
    requires Transparency.ClosedMem(mem)
    requires Collection.CollectedRun(Compiled(src, scheme, remote), tr) && tr[0] == Initial(mem)
    ensures var r := Step(Compiled(src, scheme, remote), tr[|tr| - 1]);
            var o := EvalProgram(src, |tr|, mem);
            && (o.Timeout? ==> r.Next?)
            && (!r.Next? ==> !o.Timeout? && Transparency.SameStep(ResultOf(src, scheme, o), r))
            && !r.Fault? && !r.Outside?
  {
    hide Step, EvalProgram, ResultOf, Compiled, Transparency.ForeignOk, Transparency.Related, Transparency.MemRel;
    var p, n := Compiled(src, scheme, remote), |tr| - 1;
    Transparency.InitialRelated(mem);
    Collection.CollectorIsTransparent(p, Initial(mem), tr);
    StepNSplit(p, Initial(mem), n, 1);
    var s := StepN(p, Initial(mem), n).s;
    assert StepN(p, s, 1) == Step(p, s) by {
      if Step(p, s).Next? { assert StepN(p, Step(p, s).s, 0) == Step(p, s); }
    }
    EndsAsInterpreted(src, scheme, remote, mem, |tr|);
    NeverFaults(src, scheme, remote, mem, |tr|);
  }

  /** An image loaded and run on heap objects. */
  method LoadAndRun(image: Image, mem: Mem, n: nat, noise: nat -> nat) returns (vm: Vm, e: Exit)
    requires Tables.AllEncodable(image.code) && NativesOk(image) && Transparency.ClosedMem(mem)
    ensures fresh(vm) && vm.Inv() && vm.prog == image
    ensures Transparency.SameStep(StepN(image, Initial(mem), n), vm.Result(e))
  {
    hide Step, StepN, NativesOk, vm.Inv, vm.Result, Transparency.SameStep, Transparency.ClosedMem, Tables.AllEncodable;
    vm := new Vm(image, mem);
    e := vm.Run(n, noise);
  }

  /** The compiler's output, loaded and run on heap objects: it ends as the interpreter does with that much fuel,
      goes on while the interpreter needs more, and never fails. */
  method CompileAndRun(src: Program, scheme: Scheme, remote: Remote, mem: Mem, n: nat, noise: nat -> nat)
    returns (vm: Vm, e: Exit)
    requires WellFormedProgram(src) && FitsProgram(src, scheme)
    requires NativesOk(Compiled(src, scheme, remote)) && Transparency.ClosedMem(mem)
    ensures fresh(vm) && vm.Inv() && vm.prog == Compiled(src, scheme, remote)
    ensures Transparency.SameStep(StepN(vm.prog, Initial(mem), n), vm.Result(e)) && e != Failing && e != Unknown
    ensures EvalProgram(src, n, mem).Timeout? ==> e.Proceeds?
    ensures !e.Proceeds? ==>
              var o := EvalProgram(src, n, mem);
              !o.Timeout? && Transparency.SameStep(ResultOf(src, scheme, o), vm.Result(e))
  {
    hide Step, StepN, EvalProgram, ResultOf, Compiled, NativesOk, vm.Inv, WellFormedProgram, FitsProgram;
    hide Transparency.Related, Transparency.MemRel, Transparency.ClosedMem;
    var _, image := CompileToImage(src, scheme, remote);
    assert Tables.AllEncodable(image.code);
    vm, e := LoadAndRun(image, mem, n, noise);
    EndsAsInterpreted(src, scheme, remote, mem, n);
    NeverFaults(src, scheme, remote, mem, n);
  }
}
