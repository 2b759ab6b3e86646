/** What a collection may do to a machine state: drop any arrays, as long as what it keeps contains the roots
    and is closed under the cells of what is kept, which is what marking guarantees.  Steps from a state and
    from what a collection left of it give the same results. */
module Transparency {
  import opened Arrays
  import opened Values
  import opened Bytecode
  import opened Machine

  predicate In(v: Val, keys: set<nat>) {
    v.Ref? ==> v.a in keys
  }

  predicate AllIn(vs: seq<Val>, keys: set<nat>) {
    forall i :: 0 <= i < |vs| ==> In(vs[i], keys)
  }

  /** No array holds a reference to an address that is not there. */
  ghost predicate ClosedMem(m: Mem) {
    forall a :: a in m.arrs ==> AllIn(m.arrs[a], m.arrs.Keys) && a < m.next
  }

  /** `t` is `m` with some arrays dropped, none of which is referred to from what is left. */
  ghost predicate MemRel(m: Mem, t: Mem) {
    && m.next == t.next && m.world == t.world
    && ClosedMem(m) && ClosedMem(t)
    && forall a :: a in t.arrs ==> a in m.arrs && m.arrs[a] == t.arrs[a]
  }

  predicate RootsIn(s: State, keys: set<nat>) {
    && AllIn(s.stack, keys)
    && forall i :: 0 <= i < |s.frames| ==> AllIn(s.frames[i].slots, keys)
  }

  /** The states of a run without and of a run with collections. */
  ghost predicate Related(s: State, t: State) {
    && t == s.(mem := t.mem)
    && MemRel(s.mem, t.mem) && RootsIn(t, t.mem.arrs.Keys)
  }

  /** A collection: the arrays kept contain the roots and are closed. */
  ghost predicate Collects(t: State, u: State) {
    && u == t.(mem := t.mem.(arrs := u.mem.arrs))
    && (forall a :: a in u.mem.arrs ==> a in t.mem.arrs && t.mem.arrs[a] == u.mem.arrs[a])
    && (forall a :: a in u.mem.arrs ==> AllIn(u.mem.arrs[a], u.mem.arrs.Keys))
    && RootsIn(u, u.mem.arrs.Keys)
  }

  lemma CollectionKeepsRelated(s: State, t: State, u: State)
    requires Related(s, t) && Collects(t, u)
    ensures Related(s, u)
  {
  }

  // ----- value operations -----

  lemma AllInConcat(a: seq<Val>, b: seq<Val>, keys: set<nat>)
    requires AllIn(a, keys) && AllIn(b, keys)
    ensures AllIn(a + b, keys)
  {
  }

  lemma AllInMore(a: seq<Val>, keys: set<nat>, keys': set<nat>)
    requires AllIn(a, keys) && keys <= keys'
    ensures AllIn(a, keys')
  {
  }

  lemma ArrSetIn(s: seq<Val>, i: nat, v: Val, keys: set<nat>)
    requires AllIn(s, keys) && In(v, keys)
    ensures AllIn(ArrSet(Undef, s, i, v), keys)
  {
    if v != Undef {
      var p := Pad(Undef, s, i + 1);
      assert AllIn(p, keys);
      assert AllIn(p[i := v], keys);
    }
  }

  lemma {:induction false} ArrFillIn(s: seq<Val>, i: nat, vs: seq<Val>, keys: set<nat>)
    requires AllIn(s, keys) && AllIn(vs, keys)
    ensures AllIn(ArrFill(Undef, s, i, vs), keys)
    decreases |vs|
  {
    hide ArrSet;
    if vs != [] {
      ArrSetIn(s, i, vs[0], keys);
      ArrFillIn(ArrSet(Undef, s, i, vs[0]), i + 1, vs[1..], keys);
    }
  }

  lemma {:induction false} ArrAddIn(s: seq<Val>, t: seq<Val>, keys: set<nat>)
    requires AllIn(s, keys) && AllIn(t, keys)
    ensures AllIn(ArrAdd(Undef, s, t), keys)
    decreases |t|
  {
    hide ArrSet;
    if t != [] {
      ArrSetIn(s, |s|, t[0], keys);
      ArrAddIn(ArrSet(Undef, s, |s|, t[0]), t[1..], keys);
    }
  }

  lemma ArrGetIn(s: seq<Val>, i: nat, keys: set<nat>)
    requires AllIn(s, keys)
    ensures In(ArrGet(Undef, s, i), keys)
  {
  }

  lemma CellsSame(m: Mem, t: Mem, v: Val)
    requires MemRel(m, t) && In(v, t.arrs.Keys) && v.Ref?
    ensures m.Cells(v.a) == t.Cells(v.a) && AllIn(t.Cells(v.a), t.arrs.Keys)
  {
  }

  /** The same array allocated on both sides. */
  lemma AllocSame(m: Mem, t: Mem, cells: seq<Val>)
    requires MemRel(m, t) && AllIn(cells, t.arrs.Keys)
    ensures MemRel(m.Alloc(cells), t.Alloc(cells))
    ensures t.Alloc(cells).arrs.Keys == t.arrs.Keys + {t.next}
  {
    var m', t' := m.Alloc(cells), t.Alloc(cells);
    forall a | a in m'.arrs ensures AllIn(m'.arrs[a], m'.arrs.Keys) {
      if a != m.next { AllInMore(m.arrs[a], m.arrs.Keys, m'.arrs.Keys); }
    }
    forall a | a in t'.arrs ensures AllIn(t'.arrs[a], t'.arrs.Keys) {
      if a != t.next { AllInMore(t.arrs[a], t.arrs.Keys, t'.arrs.Keys); }
    }
  }

  lemma StoreSame(m: Mem, t: Mem, a: nat, cells: seq<Val>)
    requires MemRel(m, t) && a in t.arrs && AllIn(cells, t.arrs.Keys)
    ensures MemRel(m.Store(a, cells), t.Store(a, cells)) && t.Store(a, cells).arrs.Keys == t.arrs.Keys
  {
    var m', t' := m.Store(a, cells), t.Store(a, cells);
    assert m'.arrs.Keys == m.arrs.Keys && t'.arrs.Keys == t.arrs.Keys;
  }

  /** The same outcome on both sides, with nothing lost. */
  ghost predicate SameResult(r: ValResult, r': ValResult, keys: set<nat>) {
    match (r, r')
    case (Value(v, m), Value(v', t)) => v == v' && MemRel(m, t) && keys <= t.arrs.Keys && In(v', t.arrs.Keys)
    case (Undefined, Undefined) => true
    case _ => false
  }

  lemma AddSame(v1: Val, v2: Val, m: Mem, t: Mem)
    requires MemRel(m, t) && In(v1, t.arrs.Keys) && In(v2, t.arrs.Keys)
    ensures SameResult(ValAdd(v1, v2, m), ValAdd(v1, v2, t), t.arrs.Keys)
  {
    hide MemRel, ArrFill, ArrAdd, ArrPush;
    var keys := t.arrs.Keys;
    if v1.Ref? {
      CellsSame(m, t, v1);
      var dup := ArrFill(Undef, [], 0, t.Cells(v1.a));
      ArrFillIn([], 0, t.Cells(v1.a), keys);
      if v2.Ref? {
        CellsSame(m, t, v2);
        ArrAddIn(dup, t.Cells(v2.a), keys);
        NextSame(m, t);
        AllocSame(m, t, ArrAdd(Undef, dup, t.Cells(v2.a)));
      } else {
        PushIn(dup, v2, keys);
        NextSame(m, t);
        AllocSame(m, t, ArrPush(Undef, dup, v2));
      }
    }
  }

  lemma NextSame(m: Mem, t: Mem)
    requires MemRel(m, t)
    ensures m.next == t.next
  {
  }

  lemma PushIn(s: seq<Val>, v: Val, keys: set<nat>)
    requires AllIn(s, keys) && In(v, keys)
    ensures AllIn(ArrPush(Undef, s, v), keys)
  {
  }

  lemma BinarySame(op: BinOp, v1: Val, v2: Val, m: Mem, t: Mem)
    requires MemRel(m, t) && In(v1, t.arrs.Keys) && In(v2, t.arrs.Keys)
    ensures SameResult(Binary(op, v1, v2, m), Binary(op, v1, v2, t), t.arrs.Keys)
  {
    hide MemRel, ValAdd, ValCmp, CmpDefined, Joined, Repeated;
    match op
    case Plus => AddSame(v1, v2, m, t);
    case Times => if v1.Ref? { CellsSame(m, t, v1); }
    case _ =>
  }

  lemma BoolSame(v: Val, m: Mem, t: Mem)
    requires MemRel(m, t) && In(v, t.arrs.Keys)
    ensures ToBool(v, m) == ToBool(v, t)
  {
    hide MemRel;
    if v.Ref? { CellsSame(m, t, v); }
  }

  lemma IndexSame(v: Val, i: Val, m: Mem, t: Mem)
    requires MemRel(m, t) && In(v, t.arrs.Keys)
    ensures SameResult(ValIndex(v, i, m), ValIndex(v, i, t), t.arrs.Keys)
  {
    hide MemRel;
    if v.Ref? {
      CellsSame(m, t, v);
      if i.Num? && i.n >= 0 { ArrGetIn(t.Cells(v.a), i.n, t.arrs.Keys); }
    }
  }

  lemma IndexAssignSame(x: Val, i: Val, v: Val, m: Mem, t: Mem)
    requires MemRel(m, t) && In(x, t.arrs.Keys) && In(v, t.arrs.Keys)
    ensures SameResult(ValIndexAssign(x, i, v, m), ValIndexAssign(x, i, v, t), t.arrs.Keys)
  {
    hide MemRel, ArrSet;
    if x.Ref? {
      CellsSame(m, t, x);
      if i.Num? && i.n >= 0 {
        ArrSetIn(t.Cells(x.a), i.n, v, t.arrs.Keys);
        StoreSame(m, t, x.a, ArrSet(Undef, t.Cells(x.a), i.n, v));
      }
    }
  }

  lemma MakeArraySame(vs: seq<Val>, m: Mem, t: Mem)
    requires MemRel(m, t) && AllIn(vs, t.arrs.Keys)
    ensures SameResult(MakeArray(vs, m), MakeArray(vs, t), t.arrs.Keys)
  {
    hide MemRel, ArrFill;
    ArrFillIn([], 0, vs, t.arrs.Keys);
    NextSame(m, t);
    AllocSame(m, t, ArrFill(Undef, [], 0, vs));
  }

  // ----- foreign code -----

  /** Natives see only what their arguments lead to and free nothing; a stored procedure returns
      numbers and strings. */
  ghost predicate ForeignOk(p: Image) {
    && (forall name, args, m, t :: MemRel(m, t) && AllIn(args, t.arrs.Keys) ==>
          SameNative(p.native(name, args, m), p.native(name, args, t), t.arrs.Keys))
    && (forall name, names, vals, world :: AllScalars(p.remote(name, names, vals, world).0))
  }

  ghost predicate SameNative(r: NativeResult, r': NativeResult, keys: set<nat>) {
    match (r, r')
    case (Returns(v, m), Returns(v', t)) => v == v' && MemRel(m, t) && keys <= t.arrs.Keys && In(v', t.arrs.Keys)
    case (Missing, Missing) => true
    case (Exits(m), Exits(t)) => MemRel(m, t)
    case (Crashes, Crashes) => true
    case _ => false
  }

  // ----- steps -----

  ghost predicate SameStep(r: StepResult, r': StepResult) {
    match (r, r')
    case (Next(s), Next(t)) => Related(s, t)
    case (Ended(s), Ended(t)) => Related(s, t)
    case (Halted(m), Halted(t)) => MemRel(m, t)
    case _ => r == r' && !r.Next?
  }

  lemma PopIn(st: seq<Val>, n: nat, keys: set<nat>)
    requires AllIn(st, keys) && n <= |st|
    ensures AllIn(Pop(st, n), keys)
    ensures forall i :: 0 <= i < n ==> In(Top(st, i), keys)
  {
  }

  lemma {:induction false} PopListIn(st: seq<Val>, n: nat, keys: set<nat>)
    requires AllIn(st, keys) && n <= |st|
    ensures AllIn(PopList(st, n), keys)
  {
    if n > 0 {
      PopIn(st, 1, keys);
      PopListIn(Pop(st, 1), n - 1, keys);
    }
  }

  lemma ContinueSame(s: State, t: State, n: nat, r: ValResult, r': ValResult)
    requires Related(s, t) && n <= |s.stack| && SameResult(r, r', t.mem.arrs.Keys)
    ensures SameStep(Continue(s, n, r), Continue(t, n, r'))
  {
    hide MemRel;
    if r.Value? {
      var keys := r'.mem.arrs.Keys;
      PopIn(t.stack, n, t.mem.arrs.Keys);
      AllInMore(Pop(t.stack, n), t.mem.arrs.Keys, keys);
      forall i | 0 <= i < |t.frames| ensures AllIn(t.frames[i].slots, keys) {
        AllInMore(t.frames[i].slots, t.mem.arrs.Keys, keys);
      }
    }
  }

  lemma FramesMore(frames: seq<Frame>, keys: set<nat>, keys': set<nat>)
    requires (forall i :: 0 <= i < |frames| ==> AllIn(frames[i].slots, keys)) && keys <= keys'
    ensures forall i :: 0 <= i < |frames| ==> AllIn(frames[i].slots, keys')
  {
    forall i | 0 <= i < |frames| ensures AllIn(frames[i].slots, keys') {
      AllInMore(frames[i].slots, keys, keys');
    }
  }

  /** Opcodes that compute a value. */
  lemma ValueStepSame(s: State, t: State)
    requires Related(s, t)
    ensures forall op :: SameStep(StepBinary(s, op), StepBinary(t, op))
    ensures SameStep(StepNegate(s), StepNegate(t))
    ensures SameStep(StepIndex(s), StepIndex(t))
    ensures SameStep(StepIndexAssign(s), StepIndexAssign(t))
  {
    hide MemRel, Binary, ValIndex, ValIndexAssign, Continue, SameResult;
    var keys := t.mem.arrs.Keys;
    var st := t.stack;
    if |st| >= 2 {
      PopIn(st, 2, keys);
      forall op ensures SameStep(StepBinary(s, op), StepBinary(t, op)) {
        BinarySame(op, Top(st, 0), Top(st, 1), s.mem, t.mem);
        ContinueSame(s, t, 2, Binary(op, Top(st, 0), Top(st, 1), s.mem), Binary(op, Top(st, 0), Top(st, 1), t.mem));
      }
      IndexSame(Top(st, 0), Top(st, 1), s.mem, t.mem);
      ContinueSame(s, t, 2, ValIndex(Top(st, 0), Top(st, 1), s.mem), ValIndex(Top(st, 0), Top(st, 1), t.mem));
    }
    if |st| >= 1 {
      NegateSame(s, t);
    }
    if |st| >= 3 {
      PopIn(st, 3, keys);
      IndexAssignSame(Top(st, 0), Top(st, 1), Top(st, 2), s.mem, t.mem);
      ContinueSame(s, t, 3, ValIndexAssign(Top(st, 0), Top(st, 1), Top(st, 2), s.mem),
                   ValIndexAssign(Top(st, 0), Top(st, 1), Top(st, 2), t.mem));
    }
  }

  lemma NegateSame(s: State, t: State)
    requires Related(s, t) && |t.stack| >= 1
    ensures SameStep(StepNegate(s), StepNegate(t))
  {
    hide MemRel, Continue;
    ContinueSame(s, t, 1, ValNeg(Top(t.stack, 0), s.mem), ValNeg(Top(t.stack, 0), t.mem));
  }

  lemma ReadStepSame(p: Image, s: State, t: State)
    requires Related(s, t)
    ensures SameStep(StepConstant(p, s), StepConstant(p, t))
    ensures SameStep(StepGetVar(s), StepGetVar(t))
  {
    hide MemRel;
    var keys := t.mem.arrs.Keys;
    if |t.stack| >= 1 && Top(t.stack, 0).Num? && Top(t.stack, 0).n >= 0 {
      var i := Top(t.stack, 0).n;
      var v := if i < |p.consts| then Str(p.consts[i]) else Undef;
      ContinueSame(s, t, 1, Value(v, s.mem), Value(v, t.mem));
      if t.frames != [] {
        var slots := t.frames[|t.frames| - 1].slots;
        ArrGetIn(slots, i, keys);
        ContinueSame(s, t, 1, Value(ArrGet(Undef, slots, i), s.mem), Value(ArrGet(Undef, slots, i), t.mem));
      }
    }
  }

  lemma SetVarSame(s: State, t: State)
    requires Related(s, t)
    ensures SameStep(StepSetVar(s), StepSetVar(t))
  {
    hide MemRel, ArrSet;
    var keys := t.mem.arrs.Keys;
    if |t.stack| >= 2 && t.frames != [] && Top(t.stack, 0).Num? && Top(t.stack, 0).n >= 0 {
      PopIn(t.stack, 2, keys);
      ArrSetIn(t.frames[|t.frames| - 1].slots, Top(t.stack, 0).n, Top(t.stack, 1), keys);
    }
  }

  /** Opcodes that only move control or drop and copy operands. */
  lemma ControlStepSame(p: Image, s: State, t: State)
    requires Related(s, t) && 0 <= s.pc
    ensures SameStep(StepJump(s), StepJump(t)) && SameStep(StepJumpF(s), StepJumpF(t))
    ensures SameStep(StepDup(s), StepDup(t)) && SameStep(StepDiscard(s), StepDiscard(t))
    ensures SameStep(StepCondBegin(p, s), StepCondBegin(p, t)) && SameStep(StepCondElse(p, s), StepCondElse(p, t))
    ensures SameStep(StepRet(s), StepRet(t))
  {
    hide MemRel, Scan, ToBool;
    var keys := t.mem.arrs.Keys;
    if |t.stack| >= 1 {
      PopIn(t.stack, 1, keys);
      BoolSame(Top(t.stack, 0), s.mem, t.mem);
    }
    if |t.stack| >= 2 {
      PopIn(t.stack, 2, keys);
      BoolSame(Top(t.stack, 1), s.mem, t.mem);
    }
  }

  lemma LoopStepSame(p: Image, s: State, t: State)
    requires Related(s, t) && 0 <= s.pc
    ensures SameStep(StepLoopBegin(s), StepLoopBegin(t)) && SameStep(StepLoopEnd(s), StepLoopEnd(t))
    ensures SameStep(StepLoopBody(p, s), StepLoopBody(p, t))
  {
    hide MemRel, Scan, ToBool;
    if |t.stack| >= 1 {
      PopIn(t.stack, 1, t.mem.arrs.Keys);
      BoolSame(Top(t.stack, 0), s.mem, t.mem);
    }
  }

  lemma MkArrayStepSame(s: State, t: State)
    requires Related(s, t)
    ensures SameStep(StepMkArray(s), StepMkArray(t))
  {
    hide MemRel, MakeArray, PopList, Continue;
    var keys := t.mem.arrs.Keys;
    if |t.stack| >= 1 && Top(t.stack, 0).Num? && |Pop(t.stack, 1)| >= Top(t.stack, 0).n {
      var n := if Top(t.stack, 0).n < 0 then 0 else Top(t.stack, 0).n;
      PopIn(t.stack, 1, keys);
      PopListIn(Pop(t.stack, 1), n, keys);
      var vs := PopList(Pop(t.stack, 1), n);
      MakeArraySame(vs, s.mem, t.mem);
      ContinueSame(s, t, n + 1, MakeArray(vs, s.mem), MakeArray(vs, t.mem));
    }
  }

  lemma CallStepSame(p: Image, s: State, t: State)
    requires Related(s, t) && ForeignOk(p)
    ensures SameStep(StepCall(p, s), StepCall(p, t))
  {
    hide MemRel, PopList, ArrFill;
    var keys := t.mem.arrs.Keys;
    var st := t.stack;
    if |st| >= 2 && Top(st, 0).Str? && Top(st, 1).Num? && |Pop(st, 2)| >= Top(st, 1).n {
      var name, n, rest := Top(st, 0).s, if Top(st, 1).n < 0 then 0 else Top(st, 1).n, Pop(st, 2);
      PopIn(st, 2, keys);
      PopListIn(rest, n, keys);
      PopIn(rest, n, keys);
      ArrFillIn([], 0, PopList(rest, n), keys);
      var args := ArrFill(Undef, [], 0, PopList(rest, n));
      if name !in p.funs {
        var r, r' := p.native(name, args, s.mem), p.native(name, args, t.mem);
        assert SameNative(r, r', keys);
        if r.Returns? {
          AllInMore(Pop(rest, n), keys, r'.mem.arrs.Keys);
          FramesMore(t.frames, keys, r'.mem.arrs.Keys);
        }
      }
    }
  }

  lemma ScalarsIn(vs: seq<Val>, keys: set<nat>)
    requires AllScalars(vs)
    ensures AllIn(vs, keys)
  {
  }

  lemma {:induction false} ReverseIn(vs: seq<Val>, keys: set<nat>)
    requires AllIn(vs, keys)
    ensures AllIn(Reverse(vs), keys)
  {
    if vs != [] {
      ReverseIn(vs[1..], keys);
    }
  }

  lemma WorldSame(m: Mem, t: Mem, world: World)
    requires MemRel(m, t)
    ensures MemRel(m.(world := world), t.(world := world))
  {
  }

  lemma DblockStepSame(p: Image, s: State, t: State)
    requires Related(s, t) && ForeignOk(p)
    ensures SameStep(StepDblock(p, s), StepDblock(p, t))
  {
    hide MemRel, PopPairs, Strings, Reverse, AllStrings, AllScalars;
    var keys := t.mem.arrs.Keys;
    var st := t.stack;
    if |st| >= 3 && Top(st, 1).Str? && Top(st, 2).Num? && Top(st, 2).n >= 0 && |Pop(st, 3)| >= 2 * Top(st, 2).n {
      var n, rest := Top(st, 2).n, Pop(st, 3);
      var (names, vals) := PopPairs(rest, n);
      if AllStrings(names) {
        SameWorld(s.mem, t.mem);
        var (cols, world) := p.remote(Top(st, 1).s, Strings(names), vals, t.mem.world);
        PopIn(st, 3, keys);
        PopIn(rest, 2 * n, keys);
        ScalarsIn(cols, keys);
        ReverseIn(cols, keys);
        AllInConcat(Pop(rest, 2 * n), Reverse(cols), keys);
        WorldSame(s.mem, t.mem, world);
      }
    }
  }

  lemma SameWorld(m: Mem, t: Mem)
    requires MemRel(m, t)
    ensures m.world == t.world
  {
  }

  /** The steps that need no opcode's lemma: the end of the code, pushes, CONDEND and what is not modelled. */
  lemma PlainStepSame(p: Image, s: State, t: State)
    requires Related(s, t)
    requires 0 <= s.pc < |p.code| ==> p.code[s.pc].Push? || p.code[s.pc].op == CONDEND || p.code[s.pc].op.Other?
    ensures SameStep(Step(p, s), Step(p, t))
  {
    hide MemRel;
  }

  /** One step on both sides. */
  lemma StepSame(p: Image, s: State, t: State)
    requires Related(s, t) && ForeignOk(p)
    ensures SameStep(Step(p, s), Step(p, t))
  {
    hide MemRel, RootsIn, SameStep, ForeignOk;
    hide StepBinary, StepNegate, StepConstant, StepGetVar, StepSetVar, StepJump, StepJumpF, StepDup, StepDiscard;
    hide StepCondBegin, StepCondElse, StepLoopBegin, StepLoopBody, StepLoopEnd, StepCall, StepRet, StepMkArray;
    hide StepIndex, StepIndexAssign, StepDblock;
    if 0 <= s.pc < |p.code| && p.code[s.pc].Do? && p.code[s.pc].op != CONDEND && !p.code[s.pc].op.Other? {
      match p.code[s.pc].op
      case DBLOCK => DblockStepSame(p, s, t);
      case CALL => CallStepSame(p, s, t);
      case MKARRAY => MkArrayStepSame(s, t);
      case SETVAR => SetVarSame(s, t);
      case CONSTANT => ReadStepSame(p, s, t);
      case GETVAR => ReadStepSame(p, s, t);
      case LOOPBEGIN => LoopStepSame(p, s, t);
      case LOOPBODY => LoopStepSame(p, s, t);
      case LOOPEND => LoopStepSame(p, s, t);
      case JUMP => ControlStepSame(p, s, t);
      case JUMPF => ControlStepSame(p, s, t);
      case DUP => ControlStepSame(p, s, t);
      case DISCARD => ControlStepSame(p, s, t);
      case CONDBEGIN => ControlStepSame(p, s, t);
      case CONDELSE => ControlStepSame(p, s, t);
      case RET => ControlStepSame(p, s, t);
      case _ => ValueStepSame(s, t);
    } else {
      PlainStepSame(p, s, t);
    }
  }

  /** A fresh machine is related to itself. */
  lemma InitialRelated(mem: Mem)
    requires ClosedMem(mem)
    ensures Related(Initial(mem), Initial(mem))
  {
  }
}
