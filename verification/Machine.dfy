/** The stack machine (vm/prog.c): operand stack, frame stack, program counter and store, and the
    meaning of one execution step as a function.  `Exec.dfy` holds the machine that updates its fields
    in place. */
module Machine {
  import opened Arrays
  import opened Values
  import opened Bytecode

  /** Cell 0 of the C frame array is the return pc, cell 1 the loop stack; `slots` is the rest. */
  datatype Frame = Frame(ret: int, loops: seq<int>, slots: seq<Val>)

  /** The operand stack grows to the right, as does the frame stack. */
  datatype State = State(pc: int, stack: seq<Val>, frames: seq<Frame>, mem: Mem)

  /** The stored procedure behind a database block: names and values in, values and world out. */
  type Remote = (string, seq<string>, seq<Val>, World) -> (seq<Val>, World)

  datatype Image = Image(code: seq<Instr>, consts: seq<string>, funs: map<string, nat>,
                         native: Natives, remote: Remote)

  /** `Fault` is a failed assertion or an error exit, `Outside` an opcode that is not modelled. */
  datatype StepResult = Next(s: State) | Ended(s: State) | Halted(mem: Mem) | Undefined | Fault | Outside

  function Pop(st: seq<Val>, n: nat): seq<Val>
    requires n <= |st|
  {
    st[..|st| - n]
  }

  /** The `i`-th value from the top. */
  function Top(st: seq<Val>, i: nat): Val
    requires i < |st|
  {
    st[|st| - 1 - i]
  }

  /** `n` values popped one after the other, first popped first. */
  function PopList(st: seq<Val>, n: nat): seq<Val>
    requires n <= |st|
  {
    if n == 0 then [] else [Top(st, 0)] + PopList(Pop(st, 1), n - 1)
  }

  function Continue(s: State, n: nat, r: ValResult): StepResult
    requires n <= |s.stack|
  {
    match r
    case Value(v, mem) => Next(State(s.pc + 1, Pop(s.stack, n) + [v], s.frames, mem))
    case Undefined => StepResult.Undefined
  }

  function StepBinary(s: State, op: BinOp): StepResult {
    if |s.stack| < 2 then Fault
    else Continue(s, 2, Binary(op, Top(s.stack, 0), Top(s.stack, 1), s.mem))
  }

  function StepNegate(s: State): StepResult {
    if |s.stack| < 1 then Fault else Continue(s, 1, ValNeg(Top(s.stack, 0), s.mem))
  }

  function StepConstant(p: Image, s: State): StepResult {
    if |s.stack| < 1 || !Top(s.stack, 0).Num? then Fault
    else
      var i := Top(s.stack, 0).n;
      if i < 0 then StepResult.Undefined
      else Continue(s, 1, Value(if i < |p.consts| then Str(p.consts[i]) else Undef, s.mem))
  }

  function StepGetVar(s: State): StepResult {
    if |s.stack| < 1 || s.frames == [] || !Top(s.stack, 0).Num? then Fault
    else
      var i := Top(s.stack, 0).n;
      if i < 0 then StepResult.Undefined
      else Continue(s, 1, Value(ArrGet(Undef, s.frames[|s.frames| - 1].slots, i), s.mem))
  }

  function WithTop(frames: seq<Frame>, f: Frame): seq<Frame>
    requires frames != []
  {
    frames[..|frames| - 1] + [f]
  }

  function StepSetVar(s: State): StepResult {
    if |s.stack| < 2 || s.frames == [] || !Top(s.stack, 0).Num? then Fault
    else
      var i := Top(s.stack, 0).n;
      var f := s.frames[|s.frames| - 1];
      if i < 0 then StepResult.Undefined
      else Next(State(s.pc + 1, Pop(s.stack, 2),
                      WithTop(s.frames, f.(slots := ArrSet(Undef, f.slots, i, Top(s.stack, 1)))), s.mem))
  }

  function StepJump(s: State): StepResult {
    if |s.stack| < 1 || !Top(s.stack, 0).Num? then Fault
    else Next(State(Top(s.stack, 0).n, Pop(s.stack, 1), s.frames, s.mem))
  }

  function StepJumpF(s: State): StepResult {
    if |s.stack| < 2 || !Top(s.stack, 0).Num? then Fault
    else
      var target := if ToBool(Top(s.stack, 1), s.mem) then s.pc + 1 else Top(s.stack, 0).n;
      Next(State(target, Pop(s.stack, 2), s.frames, s.mem))
  }

  function StepDup(s: State): StepResult {
    if |s.stack| < 1 then Fault
    else Next(State(s.pc + 1, s.stack + [Top(s.stack, 0)], s.frames, s.mem))
  }

  function StepDiscard(s: State): StepResult {
    if |s.stack| < 1 then Fault
    else Next(State(s.pc + 1, Pop(s.stack, 1), s.frames, s.mem))
  }

  // ----- structured control: scans for the matching bracket -----

  /** What a forward scan counts: opening and closing brackets, and whether it also stops at an ELSE
      of the bracket it started in. */
  datatype Bracket = Bracket(open: Opcode, close: Opcode, stopAtElse: bool)

  const TO_ELSE := Bracket(CONDBEGIN, CONDEND, true)
  const TO_CONDEND := Bracket(CONDBEGIN, CONDEND, false)
  const TO_LOOPEND := Bracket(LOOPBEGIN, LOOPEND, false)

  /** The scans of `condbegin`, `condelse` and `loopexit`: from the cell after `pc`, with `count`
      brackets open, to the cell the scan stops at, or the code length. */
  function Scan(code: seq<Instr>, pc: nat, count: nat, br: Bracket): nat
    decreases |code| - pc
  {
    if pc + 1 >= |code| then |code|
    else
      var i := code[pc + 1];
      if i == Do(br.open) then Scan(code, pc + 1, count + 1, br)
      else if i == Do(br.close) then
        if count <= 1 then pc + 1 else Scan(code, pc + 1, count - 1, br)
      else if i == Do(CONDELSE) && count == 1 && br.stopAtElse then pc + 1
      else Scan(code, pc + 1, count, br)
  }

  function StepCondBegin(p: Image, s: State): StepResult
    requires 0 <= s.pc
  {
    if |s.stack| < 1 then Fault
    else
      var pc := if ToBool(Top(s.stack, 0), s.mem) then s.pc else Scan(p.code, s.pc, 1, TO_ELSE);
      Next(State(pc + 1, Pop(s.stack, 1), s.frames, s.mem))
  }

  function StepCondElse(p: Image, s: State): StepResult
    requires 0 <= s.pc
  {
    Next(s.(pc := Scan(p.code, s.pc, 1, TO_CONDEND) + 1))
  }

  function StepLoopBegin(s: State): StepResult {
    if s.frames == [] then Fault
    else
      var f := s.frames[|s.frames| - 1];
      Next(s.(pc := s.pc + 1, frames := WithTop(s.frames, f.(loops := f.loops + [s.pc]))))
  }

  function StepLoopBody(p: Image, s: State): StepResult
    requires 0 <= s.pc
  {
    if |s.stack| < 1 then Fault
    else if ToBool(Top(s.stack, 0), s.mem) then Next(s.(pc := s.pc + 1, stack := Pop(s.stack, 1)))
    else if s.frames == [] then Fault
    else
      var f := s.frames[|s.frames| - 1];
      var loops := if f.loops == [] then [] else f.loops[..|f.loops| - 1];
      Next(State(Scan(p.code, s.pc, 1, TO_LOOPEND) + 1, Pop(s.stack, 1), WithTop(s.frames, f.(loops := loops)), s.mem))
  }

  function StepLoopEnd(s: State): StepResult {
    if s.frames == [] || s.frames[|s.frames| - 1].loops == [] then Fault
    else
      var loops := s.frames[|s.frames| - 1].loops;
      Next(s.(pc := loops[|loops| - 1] + 1))
  }

  // ----- calls -----

  function StepCall(p: Image, s: State): StepResult {
    if |s.stack| < 2 || !Top(s.stack, 0).Str? || !Top(s.stack, 1).Num? then Fault
    else
      var name, nr := Top(s.stack, 0).s, Top(s.stack, 1).n;
      var rest := Pop(s.stack, 2);
      if |rest| < nr then Fault
      else
        var n := if nr < 0 then 0 else nr;
        var args := ArrFill(Undef, [], 0, PopList(rest, n));
        if name in p.funs then
          Next(State(p.funs[name], Pop(rest, n), s.frames + [Frame(s.pc, [], args)], s.mem))
        else
          match p.native(name, args, s.mem)
          case Returns(v, mem) => Next(State(s.pc + 1, Pop(rest, n) + [v], s.frames, mem))
          case Missing => Next(State(s.pc + 1, Pop(rest, n) + [Undef], s.frames, s.mem))
          case Exits(mem) => Halted(mem)
          case Crashes => StepResult.Undefined
  }

  function StepRet(s: State): StepResult {
    if s.frames == [] then Fault
    else Next(State(s.frames[|s.frames| - 1].ret + 1, s.stack, s.frames[..|s.frames| - 1], s.mem))
  }

  function StepMkArray(s: State): StepResult {
    if |s.stack| < 1 || !Top(s.stack, 0).Num? then Fault
    else
      var nr, rest := Top(s.stack, 0).n, Pop(s.stack, 1);
      if |rest| < nr then Fault
      else
        var n := if nr < 0 then 0 else nr;
        Continue(s, n + 1, MakeArray(PopList(rest, n), s.mem))
  }

  function StepIndex(s: State): StepResult {
    if |s.stack| < 2 then Fault
    else Continue(s, 2, ValIndex(Top(s.stack, 0), Top(s.stack, 1), s.mem))
  }

  function StepIndexAssign(s: State): StepResult {
    if |s.stack| < 3 then Fault
    else Continue(s, 3, ValIndexAssign(Top(s.stack, 0), Top(s.stack, 1), Top(s.stack, 2), s.mem))
  }

  // ----- database blocks -----

  /** `n` name/value pairs popped one after the other, the name of each pair on top. */
  function PopPairs(st: seq<Val>, n: nat): (r: (seq<Val>, seq<Val>))
    requires 2 * n <= |st|
    ensures |r.0| == |r.1| == n
  {
    if n == 0 then ([], [])
    else
      var (names, vals) := PopPairs(Pop(st, 2), n - 1);
      ([Top(st, 0)] + names, [Top(st, 1)] + vals)
  }

  predicate AllStrings(vs: seq<Val>) {
    forall i :: 0 <= i < |vs| ==> vs[i].Str?
  }

  predicate AllScalars(vs: seq<Val>) {
    forall i :: 0 <= i < |vs| ==> vs[i].Num? || vs[i].Str?
  }

  function Strings(vs: seq<Val>): (r: seq<string>)
    requires AllStrings(vs)
  {
    seq(|vs|, i requires 0 <= i < |vs| => vs[i].s)
  }

  function Reverse(vs: seq<Val>): (r: seq<Val>)
    ensures |r| == |vs|
  {
    if vs == [] then [] else Reverse(vs[1..]) + [vs[0]]
  }

  /** Pops the procedure text, its name, the number of variables and name/value pairs; pushes the
      returned columns last to first, so that the first one ends on top. */
  function StepDblock(p: Image, s: State): StepResult {
    if |s.stack| < 3 then Fault
    else if !Top(s.stack, 0).Str? || !Top(s.stack, 1).Str? || !Top(s.stack, 2).Num? || Top(s.stack, 2).n < 0
    then StepResult.Undefined
    else
      var n, rest := Top(s.stack, 2).n, Pop(s.stack, 3);
      if |rest| < 2 * n then Fault
      else
        var (names, vals) := PopPairs(rest, n);
        if !AllStrings(names) then StepResult.Undefined
        else if !AllScalars(vals) then Fault
        else
          var (cols, world) := p.remote(Top(s.stack, 1).s, Strings(names), vals, s.mem.world);
          Next(State(s.pc + 1, Pop(rest, 2 * n) + Reverse(cols), s.frames, s.mem.(world := world)))
  }

  function StepOp(p: Image, s: State, op: Opcode): StepResult
    requires 0 <= s.pc
  {
    match op
    case DBLOCK => StepDblock(p, s)
    case ADD => StepBinary(s, Plus)
    case SUB => StepBinary(s, Minus)
    case MUL => StepBinary(s, Times)
    case DIVIDE => StepBinary(s, Over)
    case NEGATE => StepNegate(s)
    case EQUAL => StepBinary(s, Equal)
    case NOTEQUAL => StepBinary(s, NotEqual)
    case LESS => StepBinary(s, Less)
    case CONSTANT => StepConstant(p, s)
    case GETVAR => StepGetVar(s)
    case SETVAR => StepSetVar(s)
    case JUMP => StepJump(s)
    case JUMPF => StepJumpF(s)
    case DUP => StepDup(s)
    case DISCARD => StepDiscard(s)
    case CONDBEGIN => StepCondBegin(p, s)
    case CONDELSE => StepCondElse(p, s)
    case CONDEND => Next(s.(pc := s.pc + 1))
    case LOOPBEGIN => StepLoopBegin(s)
    case LOOPBODY => StepLoopBody(p, s)
    case LOOPEND => StepLoopEnd(s)
    case CALL => StepCall(p, s)
    case RET => StepRet(s)
    case MKARRAY => StepMkArray(s)
    case INDEX1 => StepIndex(s)
    case INDEXAS => StepIndexAssign(s)
    case Other(_) => Outside
  }

  /** `exec_step`. */
  function Step(p: Image, s: State): StepResult {
    if s.pc >= |p.code| then Ended(s)
    else if s.pc < 0 then StepResult.Undefined
    else
      match p.code[s.pc]
      case Push(n) => Next(s.(pc := s.pc + 1, stack := s.stack + [Num(n)]))
      case Do(op) => StepOp(p, s, op)
  }

  /** `n` steps; a result other than `Next` is final. */
  function StepN(p: Image, s: State, n: nat): StepResult
    decreases n
  {
    if n == 0 then Next(s)
    else
      match Step(p, s)
      case Next(t) => StepN(p, t, n - 1)
      case r => r
  }

  /** `exec_new`. */
  function Initial(mem: Mem): State {
    State(0, [], [Frame(0, [], [])], mem)
  }

  // ----- reasoning about runs -----

  /** What is claimed of a run from some state: it comes to a result, or it still runs after k steps. */
  datatype Goal = Comes(r: StepResult) | Runs(k: nat)

  ghost predicate Meets(p: Image, s: State, g: Goal) {
    match g
    case Comes(r) => exists n: nat :: StepN(p, s, n) == r
    case Runs(k) => StepN(p, s, k).Next?
  }

  ghost predicate Reaches(p: Image, s: State, t: State) {
    Meets(p, s, Comes(Next(t)))
  }

  lemma {:induction false} StepNSplit(p: Image, s: State, m: nat, n: nat)
    ensures StepN(p, s, m).Next? ==> StepN(p, s, m + n) == StepN(p, StepN(p, s, m).s, n)
    ensures !StepN(p, s, m).Next? ==> StepN(p, s, m + n) == StepN(p, s, m)
    decreases m
  {
    hide Step;
    if m > 0 && Step(p, s).Next? {
      StepNSplit(p, Step(p, s).s, m - 1, n);
    }
  }

  /** Runs compose. */
  lemma Chain(p: Image, s: State, t: State, g: Goal)
    requires Reaches(p, s, t) && Meets(p, t, g)
    ensures Meets(p, s, g)
  {
    hide Step;
    var m: nat :| StepN(p, s, m) == Next(t);
    match g
    case Comes(r) =>
      var n: nat :| StepN(p, t, n) == r;
      StepNSplit(p, s, m, n);
      assert StepN(p, s, m + n) == r;
    case Runs(k) =>
      StepNSplit(p, s, m, k);
      StepNSplit(p, s, k, m);
  }

  /** One step, then the rest; a run that goes on gains a step. */
  lemma ChainStep(p: Image, s: State, t: State, g: Goal)
    requires Step(p, s) == Next(t) && Meets(p, t, g)
    ensures Meets(p, s, g)
    ensures g.Runs? ==> Meets(p, s, Runs(g.k + 1))
  {
    hide Step;
    assert StepN(p, s, 1) == Next(t) by { assert StepN(p, t, 0) == Next(t); }
    assert Reaches(p, s, t);
    Chain(p, s, t, g);
  }

  lemma OneStep(p: Image, s: State)
    ensures Meets(p, s, Comes(Step(p, s)))
  {
    hide Step;
    assert StepN(p, s, 1) == Step(p, s) by {
      if Step(p, s).Next? { assert StepN(p, Step(p, s).s, 0) == Step(p, s); }
    }
  }

  lemma NoStep(p: Image, s: State)
    ensures Reaches(p, s, s)
  {
    hide Step;
    assert StepN(p, s, 0) == Next(s);
  }
}
