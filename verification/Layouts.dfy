/** A static layout of a cell: how many operands its activation holds, which constants are on top, which
    loops it is in, and whether it belongs to a function.  If the layouts of a program agree with each
    other along all control flow, every step keeps the machine in step with them, so that they describe
    the operand stack, the loop stacks and the frames of every state a run can reach. */
module Layouts {
  import opened Arrays
  import opened Values
  import opened Bytecode
  import opened Machine

  /** `h` operands of the activation, of which the topmost are `known`; the loops entered, by the address
      of their LOOPBEGIN, outermost first. */
  datatype Layout = Layout(h: nat, known: seq<Val>, loops: seq<int>, inFun: bool) {
    function Up(n: nat): Layout {
      Layout(h + n, [], loops, inFun)
    }

    /** After pushing a constant. */
    function Know(v: Val): Layout {
      Layout(h + 1, known + [v], loops, inFun)
    }

    function Down(n: nat): Layout
      requires n <= h
    {
      Layout(h - n, [], loops, inFun)
    }
  }

  const MAIN_START := Layout(0, [], [], false)
  const BODY_START := Layout(0, [], [], true)

  // ----- what a cell asks of its neighbours -----

  /** Control may go to `pc` with layout `y`; what is known on top may be forgotten. */
  predicate Into(lay: seq<Layout>, pc: int, y: Layout) {
    0 <= pc < |lay| && (lay[pc] == y || lay[pc] == y.(known := []))
  }

  predicate KnowsNum(y: Layout) {
    y.known != [] && y.known[|y.known| - 1].Num? && y.known[|y.known| - 1].n >= 0
  }

  function TopNum(y: Layout): nat
    requires KnowsNum(y)
  {
    y.known[|y.known| - 1].n
  }

  predicate CallFlow(p: Image, lay: seq<Layout>, pc: nat)
    requires pc < |lay|
  {
    var y := lay[pc];
    var k := |y.known|;
    && k >= 2 && y.known[k - 1].Str? && y.known[k - 2].Num? && y.known[k - 2].n >= 0
    && y.h >= y.known[k - 2].n + 2
    && Into(lay, pc + 1, y.Down(y.known[k - 2].n + 1))
    && (y.known[k - 1].s in p.funs ==> Into(lay, p.funs[y.known[k - 1].s], BODY_START))
  }

  predicate OpFlow(p: Image, lay: seq<Layout>, pc: nat, op: Opcode)
    requires pc < |lay|
  {
    var y := lay[pc];
    match op
    case ADD => y.h >= 2 && Into(lay, pc + 1, y.Down(1))
    case SUB => y.h >= 2 && Into(lay, pc + 1, y.Down(1))
    case MUL => y.h >= 2 && Into(lay, pc + 1, y.Down(1))
    case DIVIDE => y.h >= 2 && Into(lay, pc + 1, y.Down(1))
    case EQUAL => y.h >= 2 && Into(lay, pc + 1, y.Down(1))
    case NOTEQUAL => y.h >= 2 && Into(lay, pc + 1, y.Down(1))
    case LESS => y.h >= 2 && Into(lay, pc + 1, y.Down(1))
    case NEGATE => y.h >= 1 && Into(lay, pc + 1, y.Down(0))
    case CONSTANT =>
      && y.h >= 1 && KnowsNum(y) && TopNum(y) < |p.consts|
      && Into(lay, pc + 1, y.(known := y.known[..|y.known| - 1] + [Str(p.consts[TopNum(y)])]))
    case GETVAR => y.h >= 1 && KnowsNum(y) && Into(lay, pc + 1, y.Down(0))
    case SETVAR => y.h >= 2 && KnowsNum(y) && Into(lay, pc + 1, y.Down(2))
    case JUMP => y.h >= 1 && KnowsNum(y) && Into(lay, TopNum(y), y.Down(1))
    case JUMPF => y.h >= 2 && KnowsNum(y) && Into(lay, TopNum(y), y.Down(2)) && Into(lay, pc + 1, y.Down(2))
    case DISCARD => y.h >= 1 && Into(lay, pc + 1, y.Down(1))
    case CONDBEGIN =>
      y.h >= 1 && Into(lay, pc + 1, y.Down(1)) && Into(lay, Scan(p.code, pc, 1, TO_ELSE) + 1, y.Down(1))
    case CONDELSE => Into(lay, Scan(p.code, pc, 1, TO_CONDEND) + 1, y.Down(0))
    case CONDEND => Into(lay, pc + 1, y.Down(0))
    case LOOPBEGIN => Into(lay, pc + 1, y.Down(0).(loops := y.loops + [pc]))
    case LOOPBODY =>
      && y.h >= 1 && y.loops != [] && Into(lay, pc + 1, y.Down(1))
      && Into(lay, Scan(p.code, pc, 1, TO_LOOPEND) + 1, y.Down(1).(loops := y.loops[..|y.loops| - 1]))
    case LOOPEND => y.loops != [] && Into(lay, y.loops[|y.loops| - 1] + 1, y.Down(0))
    case CALL => CallFlow(p, lay, pc)
    case RET => y.h == 1 && y.inFun
    case MKARRAY => KnowsNum(y) && y.h >= TopNum(y) + 1 && Into(lay, pc + 1, y.Down(TopNum(y)))
    case INDEX1 => y.h >= 2 && Into(lay, pc + 1, y.Down(1))
    case INDEXAS => y.h >= 3 && Into(lay, pc + 1, y.Down(2))
    case _ => false
  }

  predicate Flow(p: Image, lay: seq<Layout>, pc: nat)
    requires pc < |p.code| && |lay| == |p.code| + 1
  {
    match p.code[pc]
    case Push(n) => Into(lay, pc + 1, lay[pc].Know(Num(n)))
    case Do(op) => OpFlow(p, lay, pc, op)
  }

  // ----- states in step with the layouts -----

  predicate EndsWith(st: seq<Val>, known: seq<Val>) {
    |known| <= |st| && forall i :: 0 <= i < |known| ==> known[i] == st[|st| - |known| + i]
  }

  /** The operands of the `k` oldest activations: each caller waits, short of the result it will be handed,
      at the cell after its CALL. */
  function Below(lay: seq<Layout>, frames: seq<Frame>, k: nat): int
    requires k < |frames|
  {
    if k == 0 then 0
    else
      var ret := frames[k].ret;
      Below(lay, frames, k - 1) + if 0 <= ret + 1 < |lay| then lay[ret + 1].h - 1 else 0
  }

  /** The newest frame agrees with a layout. */
  predicate TopOk(frames: seq<Frame>, y: Layout) {
    frames != [] && frames[|frames| - 1].loops == y.loops && (y.inFun <==> |frames| > 1)
  }

  /** The caller of the `k`-th frame agrees with the layout of the cell it waits at. */
  predicate CallerOk(lay: seq<Layout>, frames: seq<Frame>, k: nat)
    requires 0 < k < |frames|
  {
    var ret := frames[k].ret;
    && 0 <= ret && ret + 1 < |lay| && lay[ret + 1].h >= 1 && lay[ret + 1].known == []
    && frames[k - 1].loops == lay[ret + 1].loops && (lay[ret + 1].inFun <==> k > 1)
  }

  predicate CallersOk(lay: seq<Layout>, frames: seq<Frame>) {
    forall k :: 0 < k < |frames| ==> CallerOk(lay, frames, k)
  }

  predicate InStep(lay: seq<Layout>, s: State) {
    && 0 <= s.pc < |lay|
    && TopOk(s.frames, lay[s.pc]) && CallersOk(lay, s.frames)
    && |s.stack| == Below(lay, s.frames, |s.frames| - 1) + lay[s.pc].h
    && EndsWith(s.stack, lay[s.pc].known)
  }

  /** What a step may lead to. */
  predicate StaysInStep(lay: seq<Layout>, r: StepResult) {
    match r
    case Next(s) => InStep(lay, s)
    case Ended(_) => false
    case Halted(_) => true
    case Undefined => true
    case Fault => false
    case Outside => false
  }

  lemma {:induction false} BelowIsNat(lay: seq<Layout>, frames: seq<Frame>, k: nat)
    requires CallersOk(lay, frames) && k < |frames|
    ensures Below(lay, frames, k) >= 0
    decreases k
  {
    if k > 0 {
      assert CallerOk(lay, frames, k);
      BelowIsNat(lay, frames, k - 1);
    }
  }

  /** Only the return addresses count. */
  lemma {:induction false} BelowSame(lay: seq<Layout>, frames: seq<Frame>, frames': seq<Frame>, k: nat)
    requires k < |frames| && k < |frames'| && forall i :: 0 < i <= k ==> frames[i].ret == frames'[i].ret
    ensures Below(lay, frames, k) == Below(lay, frames', k)
    decreases k
  {
    if k > 0 { BelowSame(lay, frames, frames', k - 1); }
  }

  /** A changed top frame with the same return address. */
  lemma SameCallers(lay: seq<Layout>, frames: seq<Frame>, f: Frame)
    requires frames != [] && f.ret == frames[|frames| - 1].ret
    ensures |WithTop(frames, f)| == |frames|
    ensures Below(lay, WithTop(frames, f), |frames| - 1) == Below(lay, frames, |frames| - 1)
    ensures CallersOk(lay, frames) ==> CallersOk(lay, WithTop(frames, f))
  {
    var frames' := WithTop(frames, f);
    BelowSame(lay, frames, frames', |frames| - 1);
    if CallersOk(lay, frames) {
      forall k | 0 < k < |frames'| ensures CallerOk(lay, frames', k) {
        assert CallerOk(lay, frames, k);
      }
    }
  }

  /** Arriving at a cell within the same activation. */
  lemma Arrive(lay: seq<Layout>, s: State, s': State, y: Layout)
    requires InStep(lay, s) && s'.frames == s.frames && Into(lay, s'.pc, y)
    requires y.loops == lay[s.pc].loops && y.inFun == lay[s.pc].inFun
    requires |s'.stack| - |s.stack| == y.h - lay[s.pc].h && EndsWith(s'.stack, y.known)
    ensures InStep(lay, s')
  {
  }

  /** The same, with other loops or slots in the newest frame. */
  lemma ArriveWith(lay: seq<Layout>, s: State, s': State, f: Frame, y: Layout)
    requires InStep(lay, s) && f.ret == s.frames[|s.frames| - 1].ret && s'.frames == WithTop(s.frames, f)
    requires Into(lay, s'.pc, y) && y.loops == f.loops && y.inFun == lay[s.pc].inFun
    requires |s'.stack| - |s.stack| == y.h - lay[s.pc].h && EndsWith(s'.stack, y.known)
    ensures InStep(lay, s')
  {
    hide CallersOk, Below;
    SameCallers(lay, s.frames, f);
  }

  lemma KnownTop(st: seq<Val>, known: seq<Val>)
    requires EndsWith(st, known) && known != []
    ensures st != [] && Top(st, 0) == known[|known| - 1]
    ensures |known| > 1 ==> |st| > 1 && Top(st, 1) == known[|known| - 2]
    ensures EndsWith(Pop(st, 1), known[..|known| - 1])
  {
    var d := |st| - |known|;
    assert st[d..][|known| - 1] == st[|st| - 1];
    if |known| > 1 { assert st[d..][|known| - 2] == st[|st| - 2]; }
    assert Pop(st, 1)[d..] == st[d..][..|known| - 1];
  }

  lemma PushKnown(st: seq<Val>, known: seq<Val>, v: Val)
    requires EndsWith(st, known)
    ensures EndsWith(st + [v], known + [v])
  {
    assert (st + [v])[|st| - |known|..] == st[|st| - |known|..] + [v];
  }

  /** Opcodes that compute a value from `n` operands. */
  lemma ContinueKeeps(lay: seq<Layout>, s: State, n: nat, r: ValResult)
    requires InStep(lay, s) && lay[s.pc].h >= n >= 1 && n <= |s.stack|
    requires Into(lay, s.pc + 1, lay[s.pc].Down(n - 1))
    ensures StaysInStep(lay, Continue(s, n, r))
  {
    hide CallersOk, Below, TopOk;
    if r.Value? {
      Arrive(lay, s, State(s.pc + 1, Pop(s.stack, n) + [r.v], s.frames, r.mem), lay[s.pc].Down(n - 1));
    }
  }

  lemma BinaryKeeps(lay: seq<Layout>, s: State, op: BinOp)
    requires InStep(lay, s) && lay[s.pc].h >= 2 && Into(lay, s.pc + 1, lay[s.pc].Down(1))
    ensures StaysInStep(lay, StepBinary(s, op))
  {
    hide InStep, StaysInStep, Continue, Binary, Into;
    StackSize(lay, s);
    ContinueKeeps(lay, s, 2, Binary(op, Top(s.stack, 0), Top(s.stack, 1), s.mem));
  }

  lemma NegateKeeps(lay: seq<Layout>, s: State)
    requires InStep(lay, s) && lay[s.pc].h >= 1 && Into(lay, s.pc + 1, lay[s.pc].Down(0))
    ensures StaysInStep(lay, StepNegate(s))
  {
    hide InStep, StaysInStep, Continue, ValNeg, Into;
    StackSize(lay, s);
    ContinueKeeps(lay, s, 1, ValNeg(Top(s.stack, 0), s.mem));
  }

  lemma IndexKeeps(lay: seq<Layout>, s: State)
    requires InStep(lay, s) && lay[s.pc].h >= 2 && Into(lay, s.pc + 1, lay[s.pc].Down(1))
    ensures StaysInStep(lay, StepIndex(s))
  {
    hide InStep, StaysInStep, Continue, ValIndex, Into;
    StackSize(lay, s);
    ContinueKeeps(lay, s, 2, ValIndex(Top(s.stack, 0), Top(s.stack, 1), s.mem));
  }

  lemma IndexAssignKeeps(lay: seq<Layout>, s: State)
    requires InStep(lay, s) && lay[s.pc].h >= 3 && Into(lay, s.pc + 1, lay[s.pc].Down(2))
    ensures StaysInStep(lay, StepIndexAssign(s))
  {
    hide InStep, StaysInStep, Continue, ValIndexAssign, Into;
    StackSize(lay, s);
    ContinueKeeps(lay, s, 3, ValIndexAssign(Top(s.stack, 0), Top(s.stack, 1), Top(s.stack, 2), s.mem));
  }

  lemma StackSize(lay: seq<Layout>, s: State)
    requires InStep(lay, s)
    ensures 0 <= s.pc < |lay| && |s.stack| >= lay[s.pc].h
  {
    BelowIsNat(lay, s.frames, |s.frames| - 1);
  }

  lemma ConstantKeeps(p: Image, lay: seq<Layout>, s: State)
    requires InStep(lay, s) && OpFlow(p, lay, s.pc, CONSTANT)
    ensures StaysInStep(lay, StepConstant(p, s))
  {
    hide CallersOk, Below, TopOk;
    StackSize(lay, s);
    var y := lay[s.pc];
    KnownTop(s.stack, y.known);
    var v := Str(p.consts[TopNum(y)]);
    PushKnown(Pop(s.stack, 1), y.known[..|y.known| - 1], v);
    Arrive(lay, s, State(s.pc + 1, Pop(s.stack, 1) + [v], s.frames, s.mem),
           y.(known := y.known[..|y.known| - 1] + [v]));
  }

  lemma GetVarKeeps(p: Image, lay: seq<Layout>, s: State)
    requires InStep(lay, s) && OpFlow(p, lay, s.pc, GETVAR)
    ensures StaysInStep(lay, StepGetVar(s))
  {
    hide CallersOk, Below, Continue;
    StackSize(lay, s);
    var y := lay[s.pc];
    KnownTop(s.stack, y.known);
    var r := Value(ArrGet(Undef, s.frames[|s.frames| - 1].slots, TopNum(y)), s.mem);
    assert StepGetVar(s) == Continue(s, 1, r);
    hide *;
    ContinueKeeps(lay, s, 1, r);
  }

  lemma SetVarKeeps(p: Image, lay: seq<Layout>, s: State)
    requires InStep(lay, s) && OpFlow(p, lay, s.pc, SETVAR)
    ensures StaysInStep(lay, StepSetVar(s))
  {
    hide CallersOk, Below, ArrSet;
    StackSize(lay, s);
    var y := lay[s.pc];
    KnownTop(s.stack, y.known);
    var f := s.frames[|s.frames| - 1];
    var f' := f.(slots := ArrSet(Undef, f.slots, TopNum(y), Top(s.stack, 1)));
    ArriveWith(lay, s, State(s.pc + 1, Pop(s.stack, 2), WithTop(s.frames, f'), s.mem), f', y.Down(2));
  }

  lemma JumpKeeps(lay: seq<Layout>, s: State)
    requires InStep(lay, s) && lay[s.pc].h >= 1 && KnowsNum(lay[s.pc])
    requires Into(lay, TopNum(lay[s.pc]), lay[s.pc].Down(1))
    ensures StaysInStep(lay, StepJump(s))
  {
    hide CallersOk, Below, TopOk;
    StackSize(lay, s);
    KnownTop(s.stack, lay[s.pc].known);
    Arrive(lay, s, StepJump(s).s, lay[s.pc].Down(1));
  }

  lemma BranchKeeps(lay: seq<Layout>, s: State)
    requires InStep(lay, s) && lay[s.pc].h >= 2 && KnowsNum(lay[s.pc])
    requires Into(lay, TopNum(lay[s.pc]), lay[s.pc].Down(2)) && Into(lay, s.pc + 1, lay[s.pc].Down(2))
    ensures StaysInStep(lay, StepJumpF(s))
  {
    hide CallersOk, Below, TopOk, ToBool;
    StackSize(lay, s);
    KnownTop(s.stack, lay[s.pc].known);
    Arrive(lay, s, StepJumpF(s).s, lay[s.pc].Down(2));
  }

  lemma DiscardKeeps(lay: seq<Layout>, s: State)
    requires InStep(lay, s) && lay[s.pc].h >= 1 && Into(lay, s.pc + 1, lay[s.pc].Down(1))
    ensures StaysInStep(lay, StepDiscard(s))
  {
    hide CallersOk, Below, TopOk;
    StackSize(lay, s);
    Arrive(lay, s, StepDiscard(s).s, lay[s.pc].Down(1));
  }

  lemma CondBeginKeeps(p: Image, lay: seq<Layout>, s: State)
    requires InStep(lay, s) && lay[s.pc].h >= 1 && Into(lay, s.pc + 1, lay[s.pc].Down(1))
    requires Into(lay, Scan(p.code, s.pc, 1, TO_ELSE) + 1, lay[s.pc].Down(1))
    ensures StaysInStep(lay, StepCondBegin(p, s))
  {
    hide CallersOk, Below, TopOk, Scan, ToBool;
    StackSize(lay, s);
    Arrive(lay, s, StepCondBegin(p, s).s, lay[s.pc].Down(1));
  }

  /** CONDELSE and CONDEND only move on. */
  lemma MoveKeeps(lay: seq<Layout>, s: State, pc: int)
    requires InStep(lay, s) && Into(lay, pc, lay[s.pc].Down(0))
    ensures InStep(lay, s.(pc := pc))
  {
    hide CallersOk, Below, TopOk;
    Arrive(lay, s, s.(pc := pc), lay[s.pc].Down(0));
  }

  lemma LoopBeginKeeps(lay: seq<Layout>, s: State)
    requires InStep(lay, s)
    requires Into(lay, s.pc + 1, lay[s.pc].Down(0).(loops := lay[s.pc].loops + [s.pc]))
    ensures StaysInStep(lay, StepLoopBegin(s))
  {
    hide CallersOk, Below;
    var f, y := s.frames[|s.frames| - 1], lay[s.pc];
    ArriveWith(lay, s, StepLoopBegin(s).s, f.(loops := f.loops + [s.pc]), y.Down(0).(loops := y.loops + [s.pc]));
  }

  lemma LoopBodyKeeps(p: Image, lay: seq<Layout>, s: State)
    requires InStep(lay, s) && lay[s.pc].h >= 1 && lay[s.pc].loops != [] && Into(lay, s.pc + 1, lay[s.pc].Down(1))
    requires var y := lay[s.pc];
             Into(lay, Scan(p.code, s.pc, 1, TO_LOOPEND) + 1, y.Down(1).(loops := y.loops[..|y.loops| - 1]))
    ensures StaysInStep(lay, StepLoopBody(p, s))
  {
    hide CallersOk, Below, Scan, ToBool;
    StackSize(lay, s);
    var f, y := s.frames[|s.frames| - 1], lay[s.pc];
    if ToBool(Top(s.stack, 0), s.mem) {
      Arrive(lay, s, StepLoopBody(p, s).s, y.Down(1));
    } else {
      var inner := y.loops[..|y.loops| - 1];
      ArriveWith(lay, s, StepLoopBody(p, s).s, f.(loops := inner), y.Down(1).(loops := inner));
    }
  }

  lemma LoopEndKeeps(lay: seq<Layout>, s: State)
    requires InStep(lay, s) && lay[s.pc].loops != []
    requires Into(lay, lay[s.pc].loops[|lay[s.pc].loops| - 1] + 1, lay[s.pc].Down(0))
    ensures StaysInStep(lay, StepLoopEnd(s))
  {
    hide CallersOk, Below;
    Arrive(lay, s, StepLoopEnd(s).s, lay[s.pc].Down(0));
  }

  lemma MkArrayKeeps(lay: seq<Layout>, s: State)
    requires InStep(lay, s) && KnowsNum(lay[s.pc]) && lay[s.pc].h >= TopNum(lay[s.pc]) + 1
    requires Into(lay, s.pc + 1, lay[s.pc].Down(TopNum(lay[s.pc])))
    ensures StaysInStep(lay, StepMkArray(s))
  {
    hide CallersOk, Below, TopOk, PopList, MakeArray, Continue;
    StackSize(lay, s);
    KnownTop(s.stack, lay[s.pc].known);
    var n := TopNum(lay[s.pc]);
    ContinueKeeps(lay, s, n + 1, MakeArray(PopList(Pop(s.stack, 1), n), s.mem));
  }

  lemma CallStepKeeps(p: Image, lay: seq<Layout>, s: State)
    requires InStep(lay, s) && CallFlow(p, lay, s.pc)
    ensures StaysInStep(lay, StepCall(p, s))
  {
    StackSize(lay, s);
    var y := lay[s.pc];
    KnownTop(s.stack, y.known);
    var n := y.known[|y.known| - 2].n;
    var rest := Pop(s.stack, 2);
    hide PopList, ArrFill;
    var args := ArrFill(Undef, [], 0, PopList(rest, n));
    if y.known[|y.known| - 1].s in p.funs {
      EnterKeeps(p, lay, s, args, n);
    } else {
      match p.native(y.known[|y.known| - 1].s, args, s.mem)
      case Returns(v, mem) =>
        Arrive(lay, s, State(s.pc + 1, Pop(rest, n) + [v], s.frames, mem), y.Down(n + 1));
      case Missing =>
        Arrive(lay, s, State(s.pc + 1, Pop(rest, n) + [Undef], s.frames, s.mem), y.Down(n + 1));
      case _ =>
    }
  }

  /** Entering a function: the caller is left short of the result. */
  lemma EnterKeeps(p: Image, lay: seq<Layout>, s: State, args: seq<Val>, n: nat)
    requires InStep(lay, s) && lay[s.pc].h >= n + 2 && |s.stack| >= n + 2
    requires Into(lay, s.pc + 1, lay[s.pc].Down(n + 1))
    ensures forall entry :: Into(lay, entry, BODY_START) ==>
              InStep(lay, State(entry, Pop(Pop(s.stack, 2), n), s.frames + [Frame(s.pc, [], args)], s.mem))
  {
    var frames := s.frames + [Frame(s.pc, [], args)];
    assert lay[s.pc + 1] == lay[s.pc].Down(n + 1);
    BelowSame(lay, s.frames, frames, |s.frames| - 1);
    forall k | 0 < k < |frames| ensures CallerOk(lay, frames, k) {
      if k < |s.frames| { assert CallerOk(lay, s.frames, k); }
    }
  }

  lemma RetStepKeeps(p: Image, lay: seq<Layout>, s: State)
    requires InStep(lay, s) && lay[s.pc].h == 1 && lay[s.pc].inFun
    ensures StaysInStep(lay, StepRet(s))
  {
    var frames := s.frames[..|s.frames| - 1];
    assert CallerOk(lay, s.frames, |s.frames| - 1);
    BelowSame(lay, s.frames, frames, |frames| - 1);
    forall k | 0 < k < |frames| ensures CallerOk(lay, frames, k) {
      assert CallerOk(lay, s.frames, k);
    }
  }

  /** Every step from a state in step stays in step; in particular no assertion fails. */
  lemma StepKeeps(p: Image, lay: seq<Layout>, s: State)
    requires |lay| == |p.code| + 1 && InStep(lay, s) && s.pc < |p.code| && Flow(p, lay, s.pc)
    ensures StaysInStep(lay, Step(p, s))
  {
    hide InStep, Into, StepBinary, StepNegate, StepIndex, StepIndexAssign, CallFlow, Scan, KnowsNum;
    hide StepJump, StepJumpF, StepDiscard, StepCondBegin, StepLoopBegin, StepLoopBody, StepLoopEnd;
    hide StepMkArray, StepCall;
    hide StepConstant, StepGetVar, StepSetVar, StepRet;
    StackSize(lay, s);
    match p.code[s.pc]
    case Push(n) => PushKeeps(p, lay, s, n);
    case Do(op) =>
      match op
      case ADD => BinaryKeeps(lay, s, Plus);
      case SUB => BinaryKeeps(lay, s, Minus);
      case MUL => BinaryKeeps(lay, s, Times);
      case DIVIDE => BinaryKeeps(lay, s, Over);
      case EQUAL => BinaryKeeps(lay, s, Equal);
      case NOTEQUAL => BinaryKeeps(lay, s, NotEqual);
      case LESS => BinaryKeeps(lay, s, Less);
      case NEGATE => NegateKeeps(lay, s);
      case INDEX1 => IndexKeeps(lay, s);
      case INDEXAS => IndexAssignKeeps(lay, s);
      case CONSTANT => ConstantKeeps(p, lay, s);
      case GETVAR => GetVarKeeps(p, lay, s);
      case SETVAR => SetVarKeeps(p, lay, s);
      case JUMP => JumpKeeps(lay, s);
      case JUMPF => BranchKeeps(lay, s);
      case DISCARD => DiscardKeeps(lay, s);
      case CONDBEGIN => CondBeginKeeps(p, lay, s);
      case CONDELSE => MoveKeeps(lay, s, Scan(p.code, s.pc, 1, TO_CONDEND) + 1);
      case CONDEND => MoveKeeps(lay, s, s.pc + 1);
      case LOOPBEGIN => LoopBeginKeeps(lay, s);
      case LOOPBODY => LoopBodyKeeps(p, lay, s);
      case LOOPEND => LoopEndKeeps(lay, s);
      case MKARRAY => MkArrayKeeps(lay, s);
      case CALL => CallStepKeeps(p, lay, s);
      case RET => RetStepKeeps(p, lay, s);
      case _ =>
  }

  lemma PushKeeps(p: Image, lay: seq<Layout>, s: State, n: int)
    requires InStep(lay, s) && Into(lay, s.pc + 1, lay[s.pc].Know(Num(n)))
    ensures InStep(lay, s.(pc := s.pc + 1, stack := s.stack + [Num(n)]))
  {
    hide CallersOk, Below, TopOk;
    PushKnown(s.stack, lay[s.pc].known, Num(n));
    Arrive(lay, s, s.(pc := s.pc + 1, stack := s.stack + [Num(n)]), lay[s.pc].Know(Num(n)));
  }

  /** All states of a run. */
  lemma {:induction false} RunKeeps(p: Image, lay: seq<Layout>, s: State, n: nat)
    requires |lay| == |p.code| + 1 && InStep(lay, s) && forall pc: nat :: pc < |p.code| ==> Flow(p, lay, pc)
    ensures match StepN(p, s, n)
            case Next(t) => InStep(lay, t)
            case Ended(t) => InStep(lay, t) && t.pc == |p.code|
            case Fault => false
            case Outside => false
            case _ => true
    decreases n
  {
    hide Flow, Step;
    if n > 0 {
      if s.pc < |p.code| {
        StepKeeps(p, lay, s);
        if Step(p, s).Next? { RunKeeps(p, lay, Step(p, s).s, n - 1); }
      } else {
        AtEnd(p, lay, s);
      }
    }
  }

  lemma AtEnd(p: Image, lay: seq<Layout>, s: State)
    requires |lay| == |p.code| + 1 && InStep(lay, s) && s.pc >= |p.code|
    ensures Step(p, s) == Ended(s) && s.pc == |p.code|
  {
  }
}
