/** The machine as it is written: opcodes that update the program counter, the operand stack, the frame
    stack and the store in place (vm/prog.c).  Each is proved against the step function. */
module Executor {
  import opened Arrays
  import opened Values
  import opened Bytecode
  import opened Machine

  /** `Go` lets `exec_step` advance; anything else ends the run. */
  datatype Flow = Go | Stop(r: StepResult)

  lemma PairsStep(st: seq<Val>, n: nat, names: seq<Val>, vals: seq<Val>)
    requires 0 < n && 2 * n <= |st|
    ensures names + PopPairs(st, n).0 == names + [Top(st, 0)] + PopPairs(Pop(st, 2), n - 1).0
    ensures vals + PopPairs(st, n).1 == vals + [Top(st, 1)] + PopPairs(Pop(st, 2), n - 1).1
  {
    var rest := PopPairs(Pop(st, 2), n - 1);
    assert PopPairs(st, n) == ([Top(st, 0)] + rest.0, [Top(st, 1)] + rest.1);
  }

  lemma PopTwo(st: seq<Val>, k: nat)
    requires k + 2 <= |st|
    ensures |Pop(st, k)| == |st| - k && |Pop(st, k + 2)| == |st| - k - 2
    ensures Pop(Pop(st, k), 2) == Pop(st, k + 2) && Pop(Pop(Pop(st, k), 1), 1) == Pop(st, k + 2)
    ensures |Pop(Pop(st, k), 1)| == |st| - k - 1 && Top(Pop(Pop(st, k), 1), 0) == Top(Pop(st, k), 1)
  {
  }

  lemma PopNone(st: seq<Val>)
    ensures Pop(st, 0) == st
  {
  }

  lemma PopMore(st: seq<Val>, i: nat)
    requires i < |st|
    ensures |Pop(st, i)| == |st| - i && Pop(Pop(st, i), 1) == Pop(st, i + 1)
  {
  }

  lemma FillNone(c: seq<Val>, i: nat, st: seq<Val>)
    ensures ArrFill(Undef, c, i, PopList(st, 0)) == c
  {
  }

  lemma PairsNone(st: seq<Val>)
    ensures PopPairs(st, 0) == ([], [])
  {
  }

  /** Popping a value into the next cell. */
  lemma ListStep(st: seq<Val>, n: nat, a: seq<Val>, i: nat)
    requires 0 < n <= |st|
    ensures |Pop(st, 1)| == |st| - 1
    ensures ArrFill(Undef, ArrSet(Undef, a, i, Top(st, 0)), i + 1, PopList(Pop(st, 1), n - 1)) ==
            ArrFill(Undef, a, i, PopList(st, n))
  {
    hide ArrSet;
    var vs := PopList(st, n);
    assert vs[0] == Top(st, 0) && vs[1..] == PopList(Pop(st, 1), n - 1);
  }

  class Exec {
    const prog: Image
    var pc: int
    var vstack: seq<Val>
    var vars: seq<Frame>
    var mem: Mem

    function Now(): State
      reads this
    {
      State(pc, vstack, vars, mem)
    }

    constructor (prog: Image, mem: Mem)
      ensures this.prog == prog && Now() == Initial(mem)
    {
      this.prog := prog;
      this.mem := mem;
      pc, vstack, vars := 0, [], [Frame(0, [], [])];
    }

    /** An opcode has the effect `r` up to the increment of the program counter, which `exec_step` adds. */
    ghost predicate Did(flow: Flow, r: StepResult)
      reads this
    {
      match r
      case Next(s) => flow == Go && Now() == s.(pc := s.pc - 1)
      case _ => flow == Stop(r)
    }

    method Pop1() returns (v: Val)
      requires vstack != []
      modifies this`vstack
      ensures v == Top(old(vstack), 0) && vstack == Pop(old(vstack), 1)
    {
      v := vstack[|vstack| - 1];
      vstack := vstack[..|vstack| - 1];
    }

    method PushResult(r: ValResult) returns (flow: Flow)
      modifies this`vstack, this`mem
      ensures match r
              case Value(v, m) => flow == Go && vstack == old(vstack) + [v] && mem == m
              case Undefined => flow == Stop(StepResult.Undefined)
    {
      match r
      case Value(v, m) =>
        vstack := vstack + [v];
        mem := m;
        flow := Go;
      case Undefined => flow := Stop(StepResult.Undefined);
    }

    method OpBinary(op: BinOp) returns (flow: Flow)
      modifies this
      ensures Did(flow, StepBinary(old(Now()), op))
    {
      hide Binary;
      if |vstack| < 2 {
        return Stop(Fault);
      }
      var a1 := Pop1();
      var a2 := Pop1();
      flow := PushResult(Binary(op, a1, a2, mem));
    }

    method OpNegate() returns (flow: Flow)
      modifies this
      ensures Did(flow, StepNegate(old(Now())))
    {
      hide ValNeg;
      if |vstack| < 1 {
        return Stop(Fault);
      }
      var v := Pop1();
      flow := PushResult(ValNeg(v, mem));
    }

    method OpConstant() returns (flow: Flow)
      modifies this
      ensures Did(flow, StepConstant(prog, old(Now())))
    {
      if |vstack| < 1 {
        return Stop(Fault);
      }
      var i := Pop1();
      if !i.Num? {
        return Stop(Fault);
      }
      if i.n < 0 {
        return Stop(StepResult.Undefined);
      }
      vstack := vstack + [if i.n < |prog.consts| then Str(prog.consts[i.n]) else Undef];
      flow := Go;
    }

    method OpGetVar() returns (flow: Flow)
      modifies this
      ensures Did(flow, StepGetVar(old(Now())))
    {
      if |vstack| < 1 || vars == [] {
        return Stop(Fault);
      }
      var nr := Pop1();
      if !nr.Num? {
        return Stop(Fault);
      }
      if nr.n < 0 {
        return Stop(StepResult.Undefined);
      }
      vstack := vstack + [ArrGet(Undef, vars[|vars| - 1].slots, nr.n)];
      flow := Go;
    }

    method OpSetVar() returns (flow: Flow)
      modifies this
      ensures Did(flow, StepSetVar(old(Now())))
    {
      if |vstack| < 2 || vars == [] {
        return Stop(Fault);
      }
      var nr := Pop1();
      if !nr.Num? {
        return Stop(Fault);
      }
      if nr.n < 0 {
        return Stop(StepResult.Undefined);
      }
      var v := Pop1();
      var f := vars[|vars| - 1];
      vars := vars[..|vars| - 1] + [f.(slots := ArrSet(Undef, f.slots, nr.n, v))];
      flow := Go;
    }

    method OpJump() returns (flow: Flow)
      modifies this
      ensures Did(flow, StepJump(old(Now())))
    {
      if |vstack| < 1 {
        return Stop(Fault);
      }
      var dest := Pop1();
      if !dest.Num? {
        return Stop(Fault);
      }
      pc := dest.n - 1;
      flow := Go;
    }

    method OpJumpF() returns (flow: Flow)
      modifies this
      ensures Did(flow, StepJumpF(old(Now())))
    {
      if |vstack| < 2 {
        return Stop(Fault);
      }
      var dest := Pop1();
      if !dest.Num? {
        return Stop(Fault);
      }
      var cond := Pop1();
      if !ToBool(cond, mem) {
        pc := dest.n - 1;
      }
      flow := Go;
    }

    method OpDup() returns (flow: Flow)
      modifies this
      ensures Did(flow, StepDup(old(Now())))
    {
      if |vstack| < 1 {
        return Stop(Fault);
      }
      var v := Pop1();
      vstack := vstack + [v];
      vstack := vstack + [v];
      assert old(vstack) == Pop(old(vstack), 1) + [v];
      flow := Go;
    }

    method OpDiscard() returns (flow: Flow)
      modifies this
      ensures Did(flow, StepDiscard(old(Now())))
    {
      if |vstack| < 1 {
        return Stop(Fault);
      }
      var _ := Pop1();
      flow := Go;
    }

    // ----- structured control -----

    /** The loop that all three scans share: from the current cell forward, counting brackets. */
    method ScanForward(br: Bracket)
      requires 0 <= pc <= |prog.code|
      modifies this`pc
      ensures pc == Scan(prog.code, old(pc), 1, br)
    {
      var count := 1;
      while count > 0
        invariant 0 <= pc <= |prog.code| && 0 <= count
        invariant (if count == 0 then pc else Scan(prog.code, pc, count, br)) == Scan(prog.code, old(pc), 1, br)
        decreases |prog.code| + 1 - pc
      {
        if pc + 1 >= |prog.code| {
          pc := |prog.code|;
          break;
        }
        pc := pc + 1;
        if prog.code[pc] == Do(br.open) {
          count := count + 1;
        } else if prog.code[pc] == Do(br.close) {
          count := count - 1;
        } else if prog.code[pc] == Do(CONDELSE) && count == 1 && br.stopAtElse {
          break;
        }
      }
    }

    method OpCondBegin() returns (flow: Flow)
      requires 0 <= pc < |prog.code|
      modifies this
      ensures Did(flow, StepCondBegin(prog, old(Now())))
    {
      hide Scan;
      if |vstack| < 1 {
        return Stop(Fault);
      }
      var cond := Pop1();
      if !ToBool(cond, mem) {
        ScanForward(TO_ELSE);
      }
      flow := Go;
    }

    method OpCondElse() returns (flow: Flow)
      requires 0 <= pc < |prog.code|
      modifies this
      ensures Did(flow, StepCondElse(prog, old(Now())))
    {
      hide Scan;
      ScanForward(TO_CONDEND);
      flow := Go;
    }

    method OpLoopBegin() returns (flow: Flow)
      modifies this
      ensures Did(flow, StepLoopBegin(old(Now())))
    {
      if vars == [] {
        return Stop(Fault);
      }
      var f := vars[|vars| - 1];
      vars := vars[..|vars| - 1] + [f.(loops := f.loops + [pc])];
      flow := Go;
    }

    /** LOOPBODY, with the exit from the loop on a false condition. */
    method OpLoopBody() returns (flow: Flow)
      requires 0 <= pc < |prog.code|
      modifies this
      ensures Did(flow, StepLoopBody(prog, old(Now())))
    {
      hide Scan;
      if |vstack| < 1 {
        return Stop(Fault);
      }
      var cond := Pop1();
      if ToBool(cond, mem) {
        return Go;
      }
      if vars == [] {
        return Stop(Fault);
      }
      ScanForward(TO_LOOPEND);
      var f := vars[|vars| - 1];
      if f.loops != [] {
        f := f.(loops := f.loops[..|f.loops| - 1]);
      }
      vars := vars[..|vars| - 1] + [f];
      flow := Go;
    }

    method OpLoopEnd() returns (flow: Flow)
      modifies this
      ensures Did(flow, StepLoopEnd(old(Now())))
    {
      if vars == [] || vars[|vars| - 1].loops == [] {
        return Stop(Fault);
      }
      var loops := vars[|vars| - 1].loops;
      pc := loops[|loops| - 1];
      flow := Go;
    }

    // ----- calls and arrays -----

    /** Pop `n` values into consecutive cells of a new array. */
    method PopInto(n: nat) returns (a: seq<Val>)
      requires n <= |vstack|
      modifies this`vstack
      ensures a == ArrFill(Undef, [], 0, PopList(old(vstack), n)) && vstack == Pop(old(vstack), n)
    {
      hide ArrSet, ArrFill, PopList, Pop, Top;
      a := [];
      PopNone(vstack);
      for i := 0 to n
        invariant |vstack| == |old(vstack)| - i && vstack == Pop(old(vstack), i)
        invariant ArrFill(Undef, a, i, PopList(vstack, n - i)) == ArrFill(Undef, [], 0, PopList(old(vstack), n))
      {
        ListStep(vstack, n - i, a, i);
        PopMore(old(vstack), i);
        var v := Pop1();
        a := ArrSet(Undef, a, i, v);
      }
      FillNone(a, n, vstack);
    }

    method OpCall() returns (flow: Flow)
      modifies this
      ensures Did(flow, StepCall(prog, old(Now())))
    {
      hide ArrFill, PopList;
      if |vstack| < 2 {
        return Stop(Fault);
      }
      var idx := Pop1();
      if !idx.Str? {
        return Stop(Fault);
      }
      var nrargs := Pop1();
      if !nrargs.Num? || |vstack| < nrargs.n {
        return Stop(Fault);
      }
      assert vstack == Pop(old(vstack), 2);
      var args := PopInto(if nrargs.n < 0 then 0 else nrargs.n);
      if idx.s in prog.funs {
        vars := vars + [Frame(pc, [], args)];
        var entry: int := prog.funs[idx.s];
        pc := entry - 1;
        return Go;
      }
      match prog.native(idx.s, args, mem)
      case Returns(v, m) =>
        vstack, mem := vstack + [v], m;
        flow := Go;
      case Missing =>
        vstack := vstack + [Undef];
        flow := Go;
      case Exits(m) => flow := Stop(StepResult.Halted(m));
      case Crashes => flow := Stop(StepResult.Undefined);
    }

    method OpRet() returns (flow: Flow)
      modifies this
      ensures Did(flow, StepRet(old(Now())))
    {
      if vars == [] {
        return Stop(Fault);
      }
      pc := vars[|vars| - 1].ret;
      vars := vars[..|vars| - 1];
      flow := Go;
    }

    method OpMkArray() returns (flow: Flow)
      modifies this
      ensures Did(flow, StepMkArray(old(Now())))
    {
      hide ArrFill, PopList;
      if |vstack| < 1 {
        return Stop(Fault);
      }
      var n := Pop1();
      if !n.Num? || |vstack| < n.n {
        return Stop(Fault);
      }
      var nr := if n.n < 0 then 0 else n.n;
      var cells := PopInto(nr);
      assert vstack == Pop(old(vstack), nr + 1);
      vstack := vstack + [Ref(mem.next)];
      mem := mem.Alloc(cells);
      flow := Go;
    }

    method OpIndex() returns (flow: Flow)
      modifies this
      ensures Did(flow, StepIndex(old(Now())))
    {
      hide ValIndex;
      if |vstack| < 2 {
        return Stop(Fault);
      }
      var a := Pop1();
      var i := Pop1();
      flow := PushResult(ValIndex(a, i, mem));
    }

    method OpIndexAssign() returns (flow: Flow)
      modifies this
      ensures Did(flow, StepIndexAssign(old(Now())))
    {
      hide ValIndexAssign;
      if |vstack| < 3 {
        return Stop(Fault);
      }
      var a := Pop1();
      var i := Pop1();
      var v := Pop1();
      flow := PushResult(ValIndexAssign(a, i, v, mem));
    }

    // ----- database blocks -----

    /** The loop that fills the arrays of variable names and values. */
    method PopNamesAndValues(n: nat) returns (names: seq<Val>, vals: seq<Val>)
      requires 2 * n <= |vstack|
      modifies this`vstack
      ensures (names, vals) == PopPairs(old(vstack), n) && vstack == Pop(old(vstack), 2 * n)
    {
      hide PopPairs, Pop, Top;
      names, vals := [], [];
      PopNone(vstack);
      for i := 0 to n
        invariant |vstack| == |old(vstack)| - 2 * i && vstack == Pop(old(vstack), 2 * i)
        invariant names + PopPairs(vstack, n - i).0 == PopPairs(old(vstack), n).0
        invariant vals + PopPairs(vstack, n - i).1 == PopPairs(old(vstack), n).1
      {
        PopTwo(old(vstack), 2 * i);
        PairsStep(vstack, n - i, names, vals);
        var name := Pop1();
        var v := Pop1();
        names, vals := names + [name], vals + [v];
      }
      PairsNone(vstack);
      assert names == PopPairs(old(vstack), n).0 && vals == PopPairs(old(vstack), n).1;
    }

    method PushColumns(cols: seq<Val>)
      modifies this`vstack
      ensures vstack == old(vstack) + Reverse(cols)
    {
      var i := |cols|;
      while i > 0
        invariant 0 <= i <= |cols| && vstack == old(vstack) + Reverse(cols[i..])
      {
        i := i - 1;
        vstack := vstack + [cols[i]];
        assert cols[i..][1..] == cols[i + 1..];
      }
    }

    /** Pops the procedure's text and name, the number of variables and that many name/value pairs, and
        pushes the returned columns from the last to the first. */
    method OpDblock() returns (flow: Flow)
      modifies this
      ensures Did(flow, StepDblock(prog, old(Now())))
    {
      hide PopPairs, AllStrings, AllScalars, Reverse, Strings;
      if |vstack| < 3 {
        return Stop(Fault);
      }
      var fbody := Pop1();
      var name := Pop1();
      var nrvars := Pop1();
      if !fbody.Str? || !name.Str? || !nrvars.Num? || nrvars.n < 0 {
        return Stop(StepResult.Undefined);
      }
      if |vstack| < 2 * nrvars.n {
        return Stop(Fault);
      }
      assert vstack == Pop(old(vstack), 3);
      var names, vals := PopNamesAndValues(nrvars.n);
      if !AllStrings(names) {
        return Stop(StepResult.Undefined);
      }
      if !AllScalars(vals) {
        return Stop(Fault);
      }
      var (cols, world) := prog.remote(name.s, Strings(names), vals, mem.world);
      mem := mem.(world := world);
      PushColumns(cols);
      flow := Go;
    }

    // ----- the run -----

    method Dispatch(op: Opcode) returns (flow: Flow)
      requires 0 <= pc < |prog.code|
      modifies this
      ensures Did(flow, StepOp(prog, old(Now()), op))
    {
      match op
      case DBLOCK => flow := OpDblock();
      case ADD => flow := OpBinary(Plus);
      case SUB => flow := OpBinary(Minus);
      case MUL => flow := OpBinary(Times);
      case DIVIDE => flow := OpBinary(Over);
      case NEGATE => flow := OpNegate();
      case EQUAL => flow := OpBinary(Equal);
      case NOTEQUAL => flow := OpBinary(NotEqual);
      case LESS => flow := OpBinary(Less);
      case CONSTANT => flow := OpConstant();
      case GETVAR => flow := OpGetVar();
      case SETVAR => flow := OpSetVar();
      case JUMP => flow := OpJump();
      case JUMPF => flow := OpJumpF();
      case DUP => flow := OpDup();
      case DISCARD => flow := OpDiscard();
      case CONDBEGIN => flow := OpCondBegin();
      case CONDELSE => flow := OpCondElse();
      case CONDEND => flow := Go;
      case LOOPBEGIN => flow := OpLoopBegin();
      case LOOPBODY => flow := OpLoopBody();
      case LOOPEND => flow := OpLoopEnd();
      case CALL => flow := OpCall();
      case RET => flow := OpRet();
      case MKARRAY => flow := OpMkArray();
      case INDEX1 => flow := OpIndex();
      case INDEXAS => flow := OpIndexAssign();
      case Other(_) => flow := Stop(Outside);
    }

    /** `exec_step`. */
    method ExecStep() returns (r: StepResult)
      modifies this
      ensures r == Step(prog, old(Now())) && (r.Next? ==> Now() == r.s)
    {
      hide StepOp;
      if pc >= |prog.code| {
        return Ended(Now());
      }
      if pc < 0 {
        return StepResult.Undefined;
      }
      match prog.code[pc]
      case Push(n) =>
        vstack := vstack + [Num(n)];
        pc := pc + 1;
        r := Next(Now());
      case Do(op) =>
        var flow := Dispatch(op);
        if flow.Stop? {
          return flow.r;
        }
        pc := pc + 1;
        r := Next(Now());
    }

    /** `exec_run`, cut off after `steps` steps. */
    method ExecRun(steps: nat) returns (r: StepResult)
      modifies this
      ensures r == StepN(prog, old(Now()), steps) && (r.Next? ==> Now() == r.s)
    {
      hide Step;
      r := Next(Now());
      var i := 0;
      while i < steps && r.Next?
        invariant i <= steps && (r.Next? ==> Now() == r.s)
        invariant StepN(prog, old(Now()), steps) == if r.Next? then StepN(prog, r.s, steps - i) else r
      {
        r := ExecStep();
        i := i + 1;
      }
    }
  }
}
