/** The machine on heap objects (vm/prog.c over vm/val/val.c): opcodes allocate values, share them and write
    array cells in place, and `vals_gc` runs after every step.  Each opcode is proved against the step
    function on the state its objects represent. */
module ObjectMachine {
  import opened Arrays
  import opened Values
  import opened Bytecode
  import opened Machine
  import opened Transparency
  import opened Objects
  import opened Collection
  import opened LiveArrays
  import opened Tables
  import Executor
  import Heap

  /** How an opcode or a step ends; only `Proceeds` lets the machine go on. */
  datatype Exit = Proceeds | AtEnd | Halting | Undefining | Failing | Unknown

  // ----- steps of the loops, on values -----

  /** Storing to the array just made is making it with other cells. */
  lemma AllocStore(m: Mem, c: seq<Val>, d: seq<Val>)
    ensures m.Alloc(c).Store(m.next, d) == m.Alloc(d)
    ensures m.Alloc(c).Cells(m.next) == c && m.Alloc(c).next == m.next + 1
  {
  }

  lemma FillStep(c: seq<Val>, i: nat, vs: seq<Val>)
    requires i < |vs|
    ensures ArrFill(Undef, ArrSet(Undef, c, i, vs[i]), i + 1, vs[i + 1..]) == ArrFill(Undef, c, i, vs[i..])
  {
    assert vs[i..][1..] == vs[i + 1..];
  }

  lemma FillEnd(c: seq<Val>, vs: seq<Val>)
    ensures ArrFill(Undef, c, |vs|, vs[|vs|..]) == c && ArrAdd(Undef, c, vs[|vs|..]) == c
  {
  }

  lemma PopTwice(st: seq<Val>)
    ensures |st| >= 2 ==> Pop(Pop(st, 1), 1) == Pop(st, 2) && Top(Pop(st, 1), 0) == Top(st, 1)
    ensures |st| >= 3 ==> Pop(Pop(st, 2), 1) == Pop(st, 3) && Top(Pop(st, 2), 0) == Top(st, 2)
  {
  }

  /** Comparing a raw cell with an opcode is comparing instructions. */
  lemma CellIs(i: Instr, op: Opcode)
    requires Encodable(i) && Encodable(Do(op))
    ensures Encode(i) == MakeOp(OpcodeNr(op)) <==> i == Do(op)
  {
    DecodeEncode(i);
    RawComparison(Encode(i), Do(op));
  }

  /** The loop that the three scans share, on raw cells. */
  method FindBracket(cells: seq<Obj>, ghost code: seq<Instr>, start: nat, br: Bracket) returns (p: nat)
    requires CodeStands(cells, code) && start <= |code| && Encodable(Do(br.open)) && Encodable(Do(br.close))
    ensures p == Scan(code, start, 1, br)
  {
    assert Encodable(Do(CONDELSE));
    hide Encodable, Encode, OpcodeNr, MakeOp;
    var count := 1;
    p := start;
    while count > 0
      invariant p <= |cells| && 0 <= count
      invariant (if count == 0 then p else Scan(code, p, count, br)) == Scan(code, start, 1, br)
      decreases |cells| + 1 - p
    {
      if p + 1 >= |cells| {
        return |cells|;
      }
      p := p + 1;
      var x := cells[p].kind.n;
      CellIs(code[p], br.open);
      CellIs(code[p], br.close);
      CellIs(code[p], CONDELSE);
      if x == MakeOp(OpcodeNr(br.open)) {
        count := count + 1;
      } else if x == MakeOp(OpcodeNr(br.close)) {
        count := count - 1;
      } else if x == MakeOp(OpcodeNr(CONDELSE)) && count == 1 && br.stopAtElse {
        return;
      }
    }
  }

  lemma NumbersPush(os: seq<Obj>, ns: seq<int>, c: Obj, nodes: set<Obj>)
    requires NumbersStand(os, ns, nodes) && c in nodes && c.kind.NumKind?
    ensures NumbersStand(os + [c], ns + [c.kind.n], nodes)
  {
  }

  lemma NumbersPop(os: seq<Obj>, ns: seq<int>, nodes: set<Obj>)
    requires NumbersStand(os, ns, nodes)
    ensures |os| == |ns| && (os != [] ==> NumbersStand(os[..|os| - 1], ns[..|ns| - 1], nodes))
  {
  }

  lemma PopOne(st: seq<Val>)
    requires st != []
    ensures |Pop(st, 1)| == |st| - 1
  {
  }

  lemma PopAll(st: seq<Val>, n: nat)
    requires n < |st|
    ensures |Pop(st, 1)| == |st| - 1 && Pop(Pop(st, 1), n) == Pop(st, n + 1)
  {
  }

  lemma ReverseNone(st: seq<Val>, cols: seq<Val>)
    ensures st + Reverse(cols[|cols|..]) == st
  {
  }

  lemma ReverseStep(st: seq<Val>, cols: seq<Val>, i: nat)
    requires i < |cols|
    ensures st + Reverse(cols[i + 1..]) + [cols[i]] == st + Reverse(cols[i..])
  {
    assert cols[i..][1..] == cols[i + 1..];
  }

  lemma WorldRepresents(at: Table, t: State, vstack: seq<Obj>, vars: seq<Obj>, g: Cells, undef: Obj, w: World)
    requires Represents(at, t, vstack, vars, g, undef)
    ensures Represents(at, t.(mem := t.mem.(world := w)), vstack, vars, g, undef)
  {
    hide StandFor, FramesStand, ArrayStands;
  }

  lemma AddStep(c: seq<Val>, i: nat, vs: seq<Val>)
    requires i < |vs|
    ensures ArrAdd(Undef, ArrSet(Undef, c, |c|, vs[i]), vs[i + 1..]) == ArrAdd(Undef, c, vs[i..])
  {
    assert vs[i..][1..] == vs[i + 1..];
  }

  /** Natives as `Transparency` has them, and even one that ends the program frees no array. */
  ghost predicate NativesOk(p: Image) {
    && ForeignOk(p)
    && forall name, args, m :: p.native(name, args, m).Exits? ==> m.arrs.Keys <= p.native(name, args, m).mem.arrs.Keys
  }

  class Vm {
    ghost const prog: Image
    const native: Natives
    const remote: Remote
    const heap: Heap.Values
    const globals: Obj
    const constants: Obj
    const functions: Obj
    const ops: Obj
    var pc: int
    var vstack: seq<Obj>
    var vars: seq<Obj>
    /** The number of the next array a program makes. */
    var next: nat
    var world: World
    /** The state the objects are, and the object behind each of its arrays. */
    ghost var now: State
    ghost var at: Table

    ghost function Snap(): Cells
      reads heap`list, heap.Nodes()`cells
    {
      CellsOf(heap.Nodes())
    }

    ghost predicate Sound()
      reads heap, heap.Nodes()
    {
      && heap.Valid() && native == prog.native && remote == prog.remote
      && TablesStand(prog, globals, constants, functions, ops, heap.Nodes())
    }

    ghost predicate Inv()
      reads this, heap, heap.Nodes()
    {
      && Sound()
      && Represents(at, now, vstack, vars, Snap(), heap.undef)
      && now.pc == pc && now.mem.next == next && now.mem.world == world
    }

    /** The objects an operand can be. */
    ghost function Vals(): set<Obj>
      reads heap
    {
      set o | o in heap.Nodes() && IsValue(o, heap.undef)
    }

    /** What `exec_step` makes of the end of an opcode. */
    ghost function Outcome(e: Exit): StepResult
      reads this
    {
      match e
      case Proceeds => Next(now.(pc := now.pc + 1))
      case AtEnd => Ended(now)
      case Halting => StepResult.Halted(now.mem)
      case Undefining => StepResult.Undefined
      case Failing => Fault
      case Unknown => Outside
    }

    /** Loading a program and `exec_new`; the arrays of `mem`, if any, are there from the start. */
    constructor (prog: Image, mem: Mem)
      requires AllEncodable(prog.code) && ClosedMem(mem)
      ensures Inv() && this.prog == prog && now == Initial(mem)
      ensures fresh(heap) && fresh(heap.Nodes())
    {
      hide heap.Valid, FrameStands, Represents, TablesStand;
      var h, gs, cs, fs, code, frame := MakeMachine(prog);
      ghost var empty := Mem(map[], 0, mem.world);
      InitialStands(frame, empty, CellsOf(h.Nodes()), h.undef);
      this.prog := prog;
      native, remote, heap, globals, constants, functions, ops := prog.native, prog.remote, h, gs, cs, fs, code;
      pc, vstack, vars, next := 0, [], [frame], 0;
      world := mem.world;
      now, at := Initial(empty), map[];
      new;
      Realize(map[], mem);
    }

    lemma UndefIs()
      requires Inv()
      ensures heap.undef in Vals() && heap.undef.kind.UndefKind? && ValOf(heap.undef) == Undef
    {
      hide heap.Valid, TablesStand, Represents;
      heap.UndefIs();
    }

    // ----- operands -----

    method Pop1() returns (o: Obj)
      requires Inv() && vstack != []
      modifies `vstack, `now
      ensures Inv() && o in Vals() && |vstack| == |now.stack| == |old(vstack)| - 1
      ensures |old(now.stack)| == |old(vstack)| && ValOf(o) == Top(old(now.stack), 0)
      ensures now == old(now).(stack := Pop(old(now.stack), 1))
    {
      hide heap.Valid, TablesStand, StoreStands, FramesStand, StandFor, IsValue, heap.Nodes;
      PopStands(vstack, now.stack, heap.Nodes(), heap.undef);
      o := vstack[|vstack| - 1];
      vstack := vstack[..|vstack| - 1];
      now := now.(stack := Pop(now.stack, 1));
    }

    method Push(o: Obj)
      requires Inv() && o in Vals()
      modifies `vstack, `now
      ensures Inv() && now == old(now).(stack := old(now.stack) + [ValOf(o)]) && |vstack| == |now.stack|
    {
      hide heap.Valid, TablesStand, StoreStands, FramesStand, StandFor, IsValue, heap.Nodes;
      PushStands(vstack, now.stack, o, heap.Nodes(), heap.undef);
      vstack := vstack + [o];
      now := now.(stack := now.stack + [ValOf(o)]);
    }

    method Goto(n: int)
      requires Inv()
      modifies `pc, `now
      ensures Inv() && pc == n && now == old(now).(pc := n)
    {
      hide heap.Valid, TablesStand, StoreStands, FramesStand, StandFor, heap.Nodes;
      pc := n;
      now := now.(pc := n);
    }

    /** A new value. */
    method Extend(kind: Heap.Kind, role: Heap.Role) returns (o: Obj)
      requires Sound() && !kind.UndefKind?
      modifies heap`head, heap`list
      ensures Sound() && fresh(o) && o.kind == kind && o.role == role && o.cells == []
      ensures heap.Nodes() == old(heap.Nodes()) + {o} && Snap() == old(Snap())[o := []]
    {
      hide heap.Valid, TablesStand;
      ghost var nodes := heap.Nodes();
      o := heap.New(kind, role);
      TablesMore(prog, globals, constants, functions, ops, nodes, heap.Nodes());
    }

    /** A new number or string. */
    method NewScalar(kind: Heap.Kind) returns (o: Obj)
      requires Inv() && (kind.NumKind? || kind.StrKind?)
      modifies heap`head, heap`list
      ensures Inv() && fresh(o) && o in Vals() && o.kind == kind && heap.Nodes() == old(heap.Nodes()) + {o}
    {
      hide Sound, Represents;
      ghost var g := Snap();
      o := Extend(kind, Heap.NoRole);
      RepresentsMore(at, now, vstack, vars, g, Snap(), heap.undef);
    }

    // ----- frames -----

    /** Object `a` is an array that can become the next frame, `f`. */
    ghost predicate Pending(a: Obj, f: Frame)
      reads `vars, heap`list, heap.Nodes()`cells
    {
      FrameStands(a, |vars|, f, Snap(), heap.undef)
    }

    /** The array `op_call` makes. */
    method NewFrame() returns (a: Obj)
      requires Inv()
      modifies heap`head, heap`list
      ensures Inv() && Pending(a, Frame(pc, [], [])) && fresh(a) && old(heap.Nodes()) <= heap.Nodes()
      ensures forall o :: o in heap.Nodes() && o !in old(heap.Nodes()) ==> fresh(o)
    {
      hide heap.Valid, FrameStands, Represents, TablesStand;
      ghost var nodes, g := heap.Nodes(), Snap();
      a := MakeFrame(heap, pc, |vars|);
      RepresentsMore(at, now, vstack, vars, g, Snap(), heap.undef);
      TablesMore(prog, globals, constants, functions, ops, nodes, heap.Nodes());
    }

    /** Give an array that is no table other cells. */
    method Write(w: Obj, cells: seq<Obj>)
      requires Sound() && w in heap.Nodes() && w.kind.ArrayKind? && !w.role.NoRole? && Heap.AllIn(cells, heap.Nodes())
      modifies w`cells
      ensures Sound() && Snap() == old(Snap())[w := cells]
    {
      hide heap.Valid, StringsStand, CodeStands, FunctionsStand;
      heap.Write(w, cells);
    }

    /** One argument. */
    method SetArg(a: Obj, ghost f: Frame, i: nat, v: Obj)
      requires Inv() && Pending(a, f) && v in Vals()
      modifies a`cells
      ensures Inv() && Pending(a, f.(slots := ArrSet(Undef, f.slots, i, ValOf(v))))
    {
      hide heap.Valid, StoreStands, FramesStand, StandFor, IsValue, TablesStand, ArrSet;
      ghost var g := Snap();
      heap.UndefIs();
      SlotSet(a.cells, i, v, f.slots, heap.Nodes(), heap.undef);
      var cells := ArrSet(heap.undef, a.cells, i + 2, v);
      SlotsChange(a, |vars|, f, g, cells, ArrSet(Undef, f.slots, i, ValOf(v)), heap.undef);
      Write(a, cells);
      StoreKeeps(at, now.mem, g, a, cells, heap.undef);
      FramesKeep(vars, now.frames, g, a, cells, heap.undef);
    }

    method Enter(a: Obj, ghost f: Frame)
      requires Inv() && Pending(a, f)
      modifies `vars, `now
      ensures Inv() && now == old(now).(frames := old(now.frames) + [f])
    {
      hide heap.Valid, StoreStands, FramesStand, FrameStands, TablesStand, StandFor;
      FramesPush(vars, now.frames, a, f, Snap(), heap.undef);
      vars := vars + [a];
      now := now.(frames := now.frames + [f]);
    }

    /** `op_ret` without the jump: the return address of the frame popped. */
    method Leave() returns (ret: int)
      requires Inv() && vars != []
      modifies `vars, `now
      ensures Inv() && |old(now.frames)| == |old(vars)| && ret == old(now.frames)[|old(vars)| - 1].ret
      ensures now == old(now).(frames := old(now.frames)[..|old(vars)| - 1])
    {
      hide heap.Valid, StoreStands, FramesStand, TablesStand, StandFor, LoopsStand;
      TopFrame(vars, now.frames, Snap(), heap.undef);
      ret := vars[|vars| - 1].cells[0].kind.n;
      FramesPop(vars, now.frames, Snap(), heap.undef);
      vars := vars[..|vars| - 1];
      now := now.(frames := now.frames[..|now.frames| - 1]);
    }

    method GetSlot(i: nat) returns (v: Obj)
      requires Inv() && vars != []
      ensures |now.frames| == |vars| && v in Vals() && ValOf(v) == ArrGet(Undef, now.frames[|vars| - 1].slots, i)
    {
      hide heap.Valid, StoreStands, FramesStand, TablesStand, LoopsStand;
      TopFrame(vars, now.frames, Snap(), heap.undef);
      heap.UndefIs();
      var cells := vars[|vars| - 1].cells;
      v := if |cells| <= i + 2 then heap.undef else cells[i + 2];
      assert |cells| > i + 2 ==> v == cells[2..][i];
    }

    method SetSlot(top: Obj, i: nat, v: Obj)
      requires Inv() && vars != [] && top == vars[|vars| - 1] && v in Vals()
      modifies top`cells, `now
      ensures Inv() && |old(now.frames)| == |vars|
      ensures var f := old(now.frames)[|vars| - 1];
              now == old(now).(frames := WithTop(old(now.frames), f.(slots := ArrSet(Undef, f.slots, i, ValOf(v)))))
    {
      hide heap.Valid, StoreStands, FramesStand, StandFor, IsValue, TablesStand, ArrSet;
      ghost var g := Snap();
      TopFrame(vars, now.frames, g, heap.undef);
      heap.UndefIs();
      ghost var f := now.frames[|vars| - 1];
      SlotSet(top.cells, i, v, f.slots, heap.Nodes(), heap.undef);
      var cells := ArrSet(heap.undef, top.cells, i + 2, v);
      ghost var f' := f.(slots := ArrSet(Undef, f.slots, i, ValOf(v)));
      SlotsChange(top, |vars| - 1, f, g, cells, f'.slots, heap.undef);
      Write(top, cells);
      StoreKeeps(at, now.mem, g, top, cells, heap.undef);
      TopFrameStands(vars, now.frames, f', g, top, cells, heap.undef);
      now := now.(frames := WithTop(now.frames, f'));
    }

    // ----- loop stacks -----

    /** The loop stack of the newest frame gets other cells. */
    method SetLoops(l: Obj, cells: seq<Obj>, ghost loops: seq<int>)
      requires Inv() && vars != [] && NumbersStand(cells, loops, heap.Nodes())
      requires |vars[|vars| - 1].cells| >= 2 && l == vars[|vars| - 1].cells[1]
      modifies l`cells, `now
      ensures Inv() && |old(now.frames)| == |vars|
      ensures now == old(now).(frames := WithTop(old(now.frames), old(now.frames)[|vars| - 1].(loops := loops)))
    {
      hide heap.Valid, StoreStands, FramesStand, StandFor, TablesStand;
      ghost var g := Snap();
      TopFrame(vars, now.frames, g, heap.undef);
      ghost var f := now.frames[|vars| - 1];
      LoopsChange(vars[|vars| - 1], |vars| - 1, f, g, cells, loops, heap.undef);
      Write(l, cells);
      StoreKeeps(at, now.mem, g, l, cells, heap.undef);
      TopFrameStands(vars, now.frames, f.(loops := loops), g, l, cells, heap.undef);
      now := now.(frames := WithTop(now.frames, f.(loops := loops)));
    }

    /** The loop stack of the newest frame. */
    method LoopStack() returns (l: Obj)
      requires Inv() && vars != []
      ensures |now.frames| == |vars| && |vars[|vars| - 1].cells| >= 2 && l == vars[|vars| - 1].cells[1]
      ensures NumbersStand(l.cells, now.frames[|vars| - 1].loops, heap.Nodes())
    {
      hide heap.Valid, StoreStands, FramesStand, TablesStand, NumbersStand;
      TopFrame(vars, now.frames, Snap(), heap.undef);
      l := vars[|vars| - 1].cells[1];
    }

    // ----- arrays of the program -----

    /** `v_arr_create`. */
    method NewArray() returns (o: Obj)
      requires Inv()
      modifies heap`head, heap`list, `next, `now, `at
      ensures Inv() && fresh(o) && o in Vals() && heap.Nodes() == old(heap.Nodes()) + {o}
      ensures o.kind.ArrayKind? && ValOf(o) == Ref(old(now.mem.next)) && o.cells == []
      ensures now == old(now).(mem := old(now.mem).Alloc([]))
    {
      hide Sound, StoreStands;
      NextIsFree(at, now.mem, Snap(), heap.undef);
      hide Represents;
      o := AddArray(next, next + 1);
    }

    /** A new array with a given number. */
    method AddArray(a: nat, beyond: nat) returns (o: Obj)
      requires Inv() && a !in at && a < beyond && next <= beyond
      modifies heap`head, heap`list, `next, `now, `at
      ensures Inv() && fresh(o) && o in Vals() && heap.Nodes() == old(heap.Nodes()) + {o}
      ensures o.kind.ArrayKind? && ValOf(o) == Ref(a) && o.cells == [] && at == old(at)[a := o] && next == beyond
      ensures now == old(now).(mem := old(now.mem).(arrs := old(now.mem.arrs)[a := []], next := beyond))
    {
      hide Sound, Represents;
      ghost var g := Snap();
      o := Extend(Heap.ArrayKind, Heap.Numbered(a));
      AddRepresents(at, now, vstack, vars, g, o, a, beyond, heap.undef);
      at := at[a := o];
      next := beyond;
      now := now.(mem := now.mem.(arrs := now.mem.arrs[a := []], next := beyond));
    }

    method SetCells(o: Obj, cells: seq<Obj>, ghost vs: seq<Val>)
      requires Inv() && o in Vals() && o.kind.ArrayKind? && StandFor(cells, vs, heap.Nodes(), heap.undef)
      modifies o`cells, `now
      ensures Inv() && o.cells == cells && now == old(now).(mem := old(now.mem).Store(o.role.a, vs))
    {
      hide heap.Valid, StoreStands, FramesStand, TablesStand;
      ghost var g := Snap();
      ArrayIs(at, now.mem, g, o, heap.undef);
      Write(o, cells);
      StoreChange(at, now.mem, g, o, cells, vs, heap.undef);
      FramesKeep(vars, now.frames, g, o, cells, heap.undef);
      now := now.(mem := now.mem.Store(o.role.a, vs));
    }

    lemma CellsAre(o: Obj)
      requires Inv() && o in Vals() && o.kind.ArrayKind?
      ensures o.role.Numbered? && o.role.a in now.mem.arrs && now.mem.Cells(o.role.a) == ValsOf(o.cells)
      ensures AllValues(o.cells, heap.Nodes(), heap.undef)
    {
      hide heap.Valid, StoreStands, FramesStand, TablesStand, AllValues;
      ArrayIs(at, now.mem, Snap(), o, heap.undef);
    }

    /** `arr_set`. */
    method SetCell(o: Obj, i: nat, v: Obj)
      requires Inv() && o in Vals() && o.kind.ArrayKind? && v in Vals()
      modifies o`cells, `now
      ensures Inv()
      ensures now == old(now).(mem := old(now.mem).Store(o.role.a,
                                        ArrSet(Undef, old(now.mem).Cells(o.role.a), i, ValOf(v))))
    {
      hide heap.Valid, Represents, TablesStand, ArrSet, AllValues;
      CellsAre(o);
      heap.UndefIs();
      ArrSetStands(o.cells, i, v, heap.Nodes(), heap.undef);
      SetCells(o, ArrSet(heap.undef, o.cells, i, v), ArrSet(Undef, ValsOf(o.cells), i, ValOf(v)));
    }

    // ----- operations on values (vm/val/val.c) -----

    /** An operation on state `s` came out as `r`. */
    ghost predicate Yields(e: Exit, v: Obj, s: State, r: ValResult)
      reads `now, heap
    {
      match r
      case Value(w, m) => e.Proceeds? && v in Vals() && ValOf(v) == w && now == s.(mem := m)
      case Undefined => e.Undefining?
    }

    method NewInt(n: int) returns (e: Exit, v: Obj)
      requires Inv()
      modifies heap`head, heap`list
      ensures Inv() && Yields(e, v, now, Int(n, now.mem)) && old(heap.Nodes()) <= heap.Nodes()
      ensures forall o :: o in heap.Nodes() && o !in old(heap.Nodes()) ==> fresh(o)
    {
      hide Inv;
      if n < INT_MIN || INT_MAX < n {
        return Undefining, heap.undef;
      }
      e := Proceeds;
      v := NewScalar(Heap.NumKind(n));
    }

    /** `v_arr_dup`. */
    method Dup(a: Obj) returns (r: Obj)
      requires Inv() && a in Vals() && a.kind.ArrayKind?
      modifies heap`head, heap`list, `next, `now, `at
      ensures Inv() && fresh(r) && r in Vals() && heap.Nodes() == old(heap.Nodes()) + {r}
      ensures r.kind.ArrayKind? && ValOf(r) == Ref(old(now.mem.next))
      ensures now == old(now).(mem := old(now.mem).Alloc(ArrFill(Undef, [], 0, old(now.mem).Cells(a.role.a))))
    {
      hide Inv, ArrFill, ArrSet, AllValues;
      CellsAre(a);
      var src := a.cells;
      ghost var m, vs, c := now.mem, ValsOf(src), [];
      r := NewArray();
      for i := 0 to |src|
        invariant Inv() && r in Vals() && heap.Nodes() == old(heap.Nodes()) + {r}
        invariant now == old(now).(mem := m.Alloc(c)) && ArrFill(Undef, c, i, vs[i..]) == ArrFill(Undef, [], 0, vs)
      {
        AllocStore(m, c, ArrSet(Undef, c, i, vs[i]));
        FillStep(c, i, vs);
        ValueAt(src, i, old(heap.Nodes()));
        SetCell(r, i, src[i]);
        c := ArrSet(Undef, c, i, vs[i]);
      }
      FillEnd(c, vs);
    }

    lemma ValueAt(os: seq<Obj>, i: nat, nodes: set<Obj>)
      requires i < |os| && AllValues(os, nodes, heap.undef) && nodes <= heap.Nodes()
      ensures os[i] in Vals()
    {
    }

    /** `arr_add` onto the array just made. */
    method AddAll(r: Obj, src: seq<Obj>, ghost s: State, ghost c0: seq<Val>)
      requires Inv() && r in Vals() && r.kind.ArrayKind? && ValOf(r) == Ref(s.mem.next)
      requires now == s.(mem := s.mem.Alloc(c0)) && AllValues(src, heap.Nodes(), heap.undef)
      modifies r`cells, `now
      ensures Inv() && now == s.(mem := s.mem.Alloc(ArrAdd(Undef, c0, ValsOf(src))))
    {
      hide Inv, ArrAdd, ArrSet, AllValues;
      ghost var vs, c, m := ValsOf(src), c0, s.mem;
      assert vs[0..] == vs;
      for i := 0 to |src|
        invariant Inv() && now == s.(mem := m.Alloc(c)) && ArrAdd(Undef, c, vs[i..]) == ArrAdd(Undef, c0, vs)
      {
        CellsAre(r);
        AllocStore(m, c, ArrSet(Undef, c, |c|, vs[i]));
        AddStep(c, i, vs);
        ValueAt(src, i, heap.Nodes());
        SetCell(r, |r.cells|, src[i]);
        c := ArrSet(Undef, c, |c|, vs[i]);
      }
      FillEnd(c, vs);
    }

    /** `arr_push` onto the array just made. */
    method PushCell(r: Obj, v: Obj, ghost s: State, ghost c: seq<Val>)
      requires Inv() && r in Vals() && r.kind.ArrayKind? && ValOf(r) == Ref(s.mem.next) && v in Vals()
      requires now == s.(mem := s.mem.Alloc(c))
      modifies r`cells, `now
      ensures Inv() && now == s.(mem := s.mem.Alloc(ArrPush(Undef, c, ValOf(v))))
    {
      hide Inv;
      UndefIs();
      if v == heap.undef {
        return;
      }
      CellsAre(r);
      AllocStore(s.mem, c, c + [ValOf(v)]);
      SetCells(r, r.cells + [v], c + [ValOf(v)]);
    }

    /** `val_add`. */
    method Add(a1: Obj, a2: Obj) returns (e: Exit, v: Obj)
      requires Inv() && a1 in Vals() && a2 in Vals()
      modifies heap`head, heap`list, `next, `now, `at
      ensures Inv() && Yields(e, v, old(now), ValAdd(ValOf(a1), ValOf(a2), old(now.mem)))
      ensures forall o :: o in heap.Nodes() && o !in old(heap.Nodes()) ==> fresh(o)
    {
      hide Inv, ArrFill, ArrAdd, ArrPush;
      UndefIs();
      e, v := Proceeds, heap.undef;
      if a1.kind.StrKind? && a2.kind.StrKind? {
        v := NewScalar(Heap.StrKind(a1.kind.s + a2.kind.s));
      } else if a1.kind.NumKind? && a2.kind.NumKind? {
        e, v := NewInt(a1.kind.n + a2.kind.n);
      } else if a1.kind.ArrayKind? {
        ghost var dup := ArrFill(Undef, [], 0, now.mem.Cells(a1.role.a));
        if a2.kind.ArrayKind? {
          CellsAre(a2);
          var src := a2.cells;
          v := Dup(a1);
          AddAll(v, src, old(now), dup);
        } else {
          v := Dup(a1);
          PushCell(v, a2, old(now), dup);
        }
      }
    }

    /** `val_mul`; the pieces of a joined array are made and dropped. */
    method Mul(a1: Obj, a2: Obj) returns (e: Exit, v: Obj)
      requires Inv() && a1 in Vals() && a2 in Vals()
      modifies heap`head, heap`list
      ensures Inv() && Yields(e, v, now, ValMul(ValOf(a1), ValOf(a2), now.mem))
      ensures forall o :: o in heap.Nodes() && o !in old(heap.Nodes()) ==> fresh(o)
    {
      hide Inv, Repeated, Joined;
      UndefIs();
      e, v := Proceeds, heap.undef;
      if a1.kind.StrKind? && a2.kind.NumKind? {
        if a2.kind.n < 0 {
          return Undefining, heap.undef;
        }
        v := NewScalar(Heap.StrKind(Repeated(a1.kind.s, a2.kind.n)));
      } else if a1.kind.NumKind? && a2.kind.NumKind? {
        e, v := NewInt(a1.kind.n * a2.kind.n);
      } else if a1.kind.ArrayKind? && a2.kind.StrKind? {
        CellsAre(a1);
        v := NewScalar(Heap.StrKind(Joined(ValsOf(a1.cells), a2.kind.s)));
      }
    }

    /** `val_sub`, `val_div` and `val_neg`. */
    method Arithmetic(op: BinOp, a1: Obj, a2: Obj) returns (e: Exit, v: Obj)
      requires Inv() && a1 in Vals() && a2 in Vals() && (op == Minus || op == Over)
      modifies heap`head, heap`list
      ensures Inv() && Yields(e, v, now, Binary(op, ValOf(a1), ValOf(a2), now.mem))
      ensures forall o :: o in heap.Nodes() && o !in old(heap.Nodes()) ==> fresh(o)
    {
      hide Inv, TruncDiv;
      UndefIs();
      e, v := Proceeds, heap.undef;
      if a1.kind.NumKind? && a2.kind.NumKind? {
        if op == Minus {
          e, v := NewInt(a1.kind.n - a2.kind.n);
        } else if a2.kind.n == 0 {
          e := Undefining;
        } else {
          e, v := NewInt(TruncDiv(a1.kind.n, a2.kind.n));
        }
      }
    }

    method Negated(a: Obj) returns (e: Exit, v: Obj)
      requires Inv() && a in Vals()
      modifies heap`head, heap`list
      ensures Inv() && Yields(e, v, now, ValNeg(ValOf(a), now.mem))
      ensures forall o :: o in heap.Nodes() && o !in old(heap.Nodes()) ==> fresh(o)
    {
      hide Inv;
      UndefIs();
      e, v := Proceeds, heap.undef;
      if a.kind.NumKind? {
        e, v := NewInt(-a.kind.n);
      }
    }

    /** The comparisons, by `val_cmp`. */
    method Compare(op: BinOp, a1: Obj, a2: Obj) returns (e: Exit, v: Obj)
      requires Inv() && a1 in Vals() && a2 in Vals() && (op == Less || op == Equal || op == NotEqual)
      modifies heap`head, heap`list
      ensures Inv() && Yields(e, v, now, Binary(op, ValOf(a1), ValOf(a2), now.mem))
      ensures forall o :: o in heap.Nodes() && o !in old(heap.Nodes()) ==> fresh(o)
    {
      hide Inv, ValCmp, CmpDefined;
      if !CmpDefined(ValOf(a1), ValOf(a2)) {
        return Undefining, heap.undef;
      }
      var d := ValCmp(ValOf(a1), ValOf(a2));
      var b := if op == Less then d < 0 else if op == Equal then d == 0 else d != 0;
      e := Proceeds;
      v := NewScalar(Heap.NumKind(if b then 1 else 0));
    }

    method Apply(op: BinOp, a1: Obj, a2: Obj) returns (e: Exit, v: Obj)
      requires Inv() && a1 in Vals() && a2 in Vals()
      modifies heap`head, heap`list, `next, `now, `at
      ensures Inv() && Yields(e, v, old(now), Binary(op, ValOf(a1), ValOf(a2), old(now.mem)))
      ensures forall o :: o in heap.Nodes() && o !in old(heap.Nodes()) ==> fresh(o)
    {
      hide Inv, Yields, ValAdd, ValSub, ValMul, ValDiv, ValCmp, CmpDefined;
      match op
      case Plus => e, v := Add(a1, a2);
      case Times => e, v := Mul(a1, a2);
      case Minus => e, v := Arithmetic(op, a1, a2);
      case Over => e, v := Arithmetic(op, a1, a2);
      case _ => e, v := Compare(op, a1, a2);
    }

    /** `val_to_bool`. */
    method Truthy(o: Obj) returns (b: bool)
      requires Inv() && o in Vals()
      ensures b == ToBool(ValOf(o), now.mem)
    {
      hide Inv;
      match o.kind
      case NumKind(n) => b := n != 0;
      case StrKind(s) => b := s != "";
      case ArrayKind =>
        CellsAre(o);
        b := o.cells != [];
      case _ => b := false;
    }

    /** `val_index`. */
    method Index(a: Obj, i: Obj) returns (e: Exit, v: Obj)
      requires Inv() && a in Vals() && i in Vals()
      modifies heap`head, heap`list
      ensures Inv() && Yields(e, v, now, ValIndex(ValOf(a), ValOf(i), now.mem))
      ensures forall o :: o in heap.Nodes() && o !in old(heap.Nodes()) ==> fresh(o)
    {
      hide Inv;
      UndefIs();
      e, v := Proceeds, heap.undef;
      if !i.kind.NumKind? || !(a.kind.ArrayKind? || a.kind.StrKind?) {
        return;
      }
      if i.kind.n < 0 {
        return Undefining, heap.undef;
      }
      if a.kind.StrKind? {
        v := NewScalar(Heap.StrKind(if i.kind.n < |a.kind.s| then [a.kind.s[i.kind.n]] else ""));
      } else {
        CellsAre(a);
        if i.kind.n < |a.cells| {
          ValueAt(a.cells, i.kind.n, heap.Nodes());
          v := a.cells[i.kind.n];
        }
      }
    }

    /** `val_index_assign`, in place. */
    method IndexAssign(a: Obj, i: Obj, v: Obj) returns (e: Exit)
      requires Inv() && a in Vals() && i in Vals() && v in Vals()
      modifies a`cells, `now
      ensures Inv() && Yields(e, v, old(now), ValIndexAssign(ValOf(a), ValOf(i), ValOf(v), old(now.mem)))
    {
      hide Inv, ArrSet;
      UndefIs();
      if a.kind.StrKind? {
        return if i.kind.NumKind? then Undefining else Proceeds;
      }
      if !a.kind.ArrayKind? || !i.kind.NumKind? || v == heap.undef {
        return Proceeds;
      }
      if i.kind.n < 0 {
        return Undefining;
      }
      SetCell(a, i.kind.n, v);
      e := Proceeds;
    }

    // ----- opcodes -----

    lemma StackSize()
      requires Inv()
      ensures |vstack| == |now.stack| && |vars| == |now.frames|
    {
      hide heap.Valid, TablesStand, StoreStands, FrameStands;
    }

    method OpBinary(op: BinOp) returns (e: Exit)
      requires Inv()
      modifies this, heap, heap.Nodes()
      ensures Inv() && Outcome(e) == StepBinary(old(now), op)
      ensures forall o :: o in heap.Nodes() && o !in old(heap.Nodes()) ==> fresh(o)
    {
      hide Inv, Vals, ValOf, Pop, Top, Binary;
      StackSize();
      PopTwice(now.stack);
      if |vstack| < 2 {
        return Failing;
      }
      var a1 := Pop1();
      var a2 := Pop1();
      var v;
      e, v := Apply(op, a1, a2);
      if e.Proceeds? {
        Push(v);
      }
    }

    method OpNegate() returns (e: Exit)
      requires Inv()
      modifies this, heap, heap.Nodes()
      ensures Inv() && Outcome(e) == StepNegate(old(now))
      ensures forall o :: o in heap.Nodes() && o !in old(heap.Nodes()) ==> fresh(o)
    {
      hide Inv, Vals, ValOf, Pop, Top, ValNeg;
      StackSize();
      if |vstack| < 1 {
        return Failing;
      }
      var a := Pop1();
      var v;
      e, v := Negated(a);
      if e.Proceeds? {
        Push(v);
      }
    }

    method OpIndex() returns (e: Exit)
      requires Inv()
      modifies this, heap, heap.Nodes()
      ensures Inv() && Outcome(e) == StepIndex(old(now))
      ensures forall o :: o in heap.Nodes() && o !in old(heap.Nodes()) ==> fresh(o)
    {
      hide Inv, Vals, ValOf, Pop, Top, ValIndex;
      StackSize();
      PopTwice(now.stack);
      if |vstack| < 2 {
        return Failing;
      }
      var a := Pop1();
      var i := Pop1();
      var v;
      e, v := Index(a, i);
      if e.Proceeds? {
        Push(v);
      }
    }

    method OpIndexAssign() returns (e: Exit)
      requires Inv()
      modifies this, heap, heap.Nodes()
      ensures Inv() && Outcome(e) == StepIndexAssign(old(now))
      ensures forall o :: o in heap.Nodes() && o !in old(heap.Nodes()) ==> fresh(o)
    {
      hide Inv, ValOf, Pop, Top, ValIndexAssign;
      StackSize();
      PopTwice(now.stack);
      if |vstack| < 3 {
        return Failing;
      }
      var a := Pop1();
      var i := Pop1();
      var v := Pop1();
      e := IndexAssign(a, i, v);
      if e.Proceeds? {
        Push(v);
      }
    }

    // ----- natives and stored procedures -----

    /** The store as a native sees it: the arrays by number, and what they hold. */
    method ReadStore() returns (objs: Table, m: Mem)
      requires Inv()
      ensures objs == at && m == now.mem
    {
      hide heap.Valid, TablesStand, StandFor;
      objs := heap.NumberedArrays();
      AllNumbered(objs);
      m := Mem(map a | a in objs :: ValsOf(objs[a].cells), next, world);
      StoreIs(m);
    }

    lemma AllNumbered(objs: Table)
      requires Inv()
      requires forall a :: a in objs ==> objs[a] in heap.list && objs[a].role == Heap.Numbered(a)
      requires forall o :: o in heap.list && o.role.Numbered? ==> o.role.a in objs
      ensures objs == at
    {
      hide TablesStand, StandFor, FramesStand;
      forall a | a in at ensures a in objs {
        assert ArrayStands(at[a], a, now.mem.arrs[a], Snap(), heap.undef);
      }
      assert forall a :: a in objs ==> objs[a] in Snap() && a in at && at[a] == objs[a];
    }

    lemma StoreIs(m: Mem)
      requires Inv()
      requires m.arrs == (map a | a in at :: ValsOf(at[a].cells)) && m.next == next && m.world == world
      ensures m == now.mem
    {
      hide heap.Valid, TablesStand, FramesStand;
      forall a | a in at ensures m.arrs[a] == now.mem.arrs[a] {
        assert ArrayStands(at[a], a, now.mem.arrs[a], Snap(), heap.undef);
      }
    }

    /** The object that is a given value. */
    method Reify(v: Val, objs: Table) returns (o: Obj)
      requires Inv() && objs == at && In(v, at.Keys)
      modifies heap`head, heap`list
      ensures Inv() && o in Vals() && ValOf(o) == v && old(heap.Nodes()) <= heap.Nodes()
      ensures forall o :: o in heap.Nodes() && o !in old(heap.Nodes()) ==> fresh(o)
    {
      hide Sound, StoreStands, FramesStand, StandFor;
      match v
      case Undef =>
        UndefIs();
        o := heap.undef;
      case Num(n) => o := NewScalar(Heap.NumKind(n));
      case Str(s) => o := NewScalar(Heap.StrKind(s));
      case Ref(a) =>
        TableIs(a);
        o := objs[a];
    }

    lemma TableIs(a: nat)
      requires Inv() && a in at
      ensures at[a] in Vals() && at[a].kind.ArrayKind? && at[a].role == Heap.Numbered(a)
    {
      hide Sound, StandFor, FramesStand;
      assert ArrayStands(at[a], a, now.mem.arrs[a], Snap(), heap.undef);
    }

    method ReifyAll(vs: seq<Val>, objs: Table) returns (os: seq<Obj>)
      requires Inv() && objs == at && AllIn(vs, at.Keys)
      modifies heap`head, heap`list
      ensures Inv() && StandFor(os, vs, heap.Nodes(), heap.undef) && old(heap.Nodes()) <= heap.Nodes()
      ensures forall o :: o in heap.Nodes() && o !in old(heap.Nodes()) ==> fresh(o)
    {
      hide Inv;
      os := [];
      for i := 0 to |vs|
        invariant Inv() && StandFor(os, vs[..i], heap.Nodes(), heap.undef) && old(heap.Nodes()) <= heap.Nodes()
        invariant forall o :: o in heap.Nodes() && o !in old(heap.Nodes()) ==> fresh(o)
      {
        var o := Reify(vs[i], objs);
        os := os + [o];
      }
      assert vs[..|vs|] == vs;
    }

    lemma KeysAre()
      requires Inv()
      ensures at.Keys == now.mem.arrs.Keys && now.mem.next == next && now.mem.world == world
    {
      hide Sound, StandFor, FramesStand, ArrayStands;
    }

    /** Only arrays of the store have changed since `s`, and there may be more of them. */
    ghost predicate StoreOnly(s: State, m: Mem)
      reads `now, `next
    {
      now == s.(mem := now.mem) && now.mem.next == next == m.next && now.mem.world == m.world
    }

    /** The arrays a native made, still empty. */
    method AddMissing(known: Table, m: Mem) returns (objs: Table)
      requires Inv() && known == at && at.Keys <= m.arrs.Keys && (forall a :: a in m.arrs ==> a < m.next)
      requires StoreOnly(now, m)
      modifies heap`head, heap`list, `next, `now, `at
      ensures Inv() && objs == at && at.Keys == m.arrs.Keys && old(heap.Nodes()) <= heap.Nodes()
      ensures StoreOnly(old(now), m)
      ensures forall o :: o in heap.Nodes() && o !in old(heap.Nodes()) ==> fresh(o)
    {
      hide Inv, heap.Nodes;
      objs := known;
      var todo := m.arrs.Keys - known.Keys;
      while todo != {}
        invariant Inv() && objs == at && at.Keys + todo == m.arrs.Keys && at.Keys !! todo
        invariant StoreOnly(old(now), m) && old(heap.Nodes()) <= heap.Nodes()
        invariant forall o :: o in heap.Nodes() && o !in old(heap.Nodes()) ==> fresh(o)
        decreases todo
      {
        var a :| a in todo;
        todo := todo - {a};
        var o := AddArray(a, next);
        objs := objs[a := o];
      }
    }

    /** One array as the native left it; an array it left alone keeps its cells. */
    method WriteBack(a: nat, vs: seq<Val>, objs: Table)
      requires Inv() && objs == at && a in at && AllIn(vs, at.Keys)
      modifies heap`head, heap`list, heap.Nodes()`cells, `now
      ensures Inv() && now == old(now).(mem := old(now.mem).Store(a, vs)) && old(heap.Nodes()) <= heap.Nodes()
      ensures forall o :: o in heap.Nodes() && o !in old(heap.Nodes()) ==> fresh(o)
    {
      hide Inv;
      TableIs(a);
      CellsAre(objs[a]);
      if ValsOf(objs[a].cells) != vs {
        var os := ReifyAll(vs, objs);
        SetCells(objs[a], os, vs);
      } else {
        assert now.mem.Store(a, vs) == now.mem;
      }
    }

    method WriteAll(objs: Table, m: Mem)
      requires Inv() && objs == at && at.Keys == m.arrs.Keys && StoreOnly(now, m)
      requires forall a :: a in m.arrs ==> AllIn(m.arrs[a], m.arrs.Keys)
      modifies heap`head, heap`list, heap.Nodes()`cells, `now
      ensures Inv() && now == old(now).(mem := m)
      ensures forall o :: o in heap.Nodes() && o !in old(heap.Nodes()) ==> fresh(o)
    {
      hide Inv, heap.Nodes, AllIn;
      KeysAre();
      var todo := m.arrs.Keys;
      while todo != {}
        invariant Inv() && objs == at && todo <= m.arrs.Keys == now.mem.arrs.Keys
        invariant StoreOnly(old(now), m) && old(heap.Nodes()) <= heap.Nodes()
        invariant forall a :: a in m.arrs && a !in todo ==> now.mem.arrs[a] == m.arrs[a]
        invariant forall o :: o in heap.Nodes() && o !in old(heap.Nodes()) ==> fresh(o)
        decreases todo
      {
        var a :| a in todo;
        todo := todo - {a};
        WriteBack(a, m.arrs[a], objs);
      }
      assert now.mem.arrs == m.arrs;
    }

    /** Make the objects stand for the store a native left. */
    method Realize(known: Table, m: Mem)
      requires Inv() && known == at && ClosedMem(m) && now.mem.arrs.Keys <= m.arrs.Keys
      modifies heap`head, heap`list, heap.Nodes()`cells, `next, `world, `now, `at
      ensures Inv() && now == old(now).(mem := m) && old(vstack) == vstack
      ensures forall o :: o in heap.Nodes() && o !in old(heap.Nodes()) ==> fresh(o)
    {
      hide Sound, Represents;
      KeysAre();
      RoomRepresents(m);
      next, world := m.next, m.world;
      now := now.(mem := now.mem.(next := m.next, world := m.world));
      hide Inv;
      var objs := AddMissing(known, m);
      WriteAll(objs, m);
    }

    lemma RoomRepresents(m: Mem)
      requires Represents(at, now, vstack, vars, Snap(), heap.undef) && forall a :: a in at ==> a < m.next
      ensures Represents(at, now.(mem := now.mem.(next := m.next, world := m.world)), vstack, vars, Snap(), heap.undef)
    {
      hide StandFor, FramesStand, ArrayStands;
    }

    /** `call_native`, with the result pushed. */
    method CallNative(name: string, a: Obj, ghost f: Frame) returns (e: Exit)
      requires Inv() && Pending(a, f) && NativesOk(prog)
      modifies heap`head, heap`list, heap.Nodes()`cells, `next, `world, `now, `at, `vstack
      ensures Inv()
      ensures match prog.native(name, f.slots, old(now.mem))
              case Returns(v, m) => e.Proceeds? && now == old(now).(mem := m, stack := old(now.stack) + [v])
              case Missing => e.Proceeds? && now == old(now).(stack := old(now.stack) + [Undef])
              case Exits(m) => e.Halting? && now.mem == m
              case Crashes => e.Undefining?
      ensures forall o :: o in heap.Nodes() && o !in old(heap.Nodes()) ==> fresh(o)
    {
      hide Inv, NativesOk, FrameStands;
      NativeFits(name, a, f);
      var objs, m := ReadStore();
      match native(name, ValsOf(a.cells[2..]), m)
      case Returns(v, m2) =>
        Realize(objs, m2);
        KeysAre();
        var objs2, _ := ReadStore();
        var o := Reify(v, objs2);
        Push(o);
        e := Proceeds;
      case Missing =>
        UndefIs();
        Push(heap.undef);
        e := Proceeds;
      case Exits(m2) =>
        Realize(objs, m2);
        e := Halting;
      case Crashes => e := Undefining;
    }

    lemma NativeFits(name: string, a: Obj, f: Frame)
      requires Inv() && Pending(a, f) && NativesOk(prog)
      ensures native == prog.native && |a.cells| >= 2 && ValsOf(a.cells[2..]) == f.slots
      ensures match prog.native(name, f.slots, now.mem)
              case Returns(v, m) => ClosedMem(m) && now.mem.arrs.Keys <= m.arrs.Keys && In(v, m.arrs.Keys)
              case Exits(m) => ClosedMem(m) && now.mem.arrs.Keys <= m.arrs.Keys
              case _ => true
    {
      hide heap.Valid, TablesStand, Represents, StoreStands, FramesStand;
      FrameCells(a, |vars|, f, Snap(), heap.undef);
      RepresentedIsClosed(at, now, vstack, vars, Snap(), heap.undef);
      ArgsIn(a, f);
      assert MemRel(now.mem, now.mem);
      var r := prog.native(name, f.slots, now.mem);
      assert SameNative(r, r, now.mem.arrs.Keys);
    }

    lemma ArgsIn(a: Obj, f: Frame)
      requires Represents(at, now, vstack, vars, Snap(), heap.undef) && Pending(a, f)
      ensures AllIn(f.slots, now.mem.arrs.Keys)
    {
      hide StoreStands, FramesStand;
      FrameCells(a, |vars|, f, Snap(), heap.undef);
      StandIn(at, a.cells[2..], f.slots, now.mem, Snap(), heap.undef);
    }

    // ----- opcodes that read and write tables, frames and control -----

    /** `prog_get_constant`: the object in the table itself. */
    method ConstantAt(i: nat) returns (v: Obj)
      requires Inv()
      ensures v in Vals() && ValOf(v) == if i < |prog.consts| then Str(prog.consts[i]) else Undef
    {
      hide heap.Valid, Represents, CodeStands, FunctionsStand;
      UndefIs();
      v := heap.undef;
      if i < |constants.cells| {
        heap.KidIn(constants, i);
        v := constants.cells[i];
      }
    }

    /** `prog_get_op`. */
    method CellAt(i: nat) returns (x: int)
      requires Inv() && i < |prog.code|
      ensures Encodable(prog.code[i]) && x == Encode(prog.code[i])
    {
      hide heap.Valid, Represents, StringsStand, FunctionsStand, Encodable, Encode;
      x := ops.cells[i].kind.n;
    }

    method CodeSize() returns (n: nat)
      requires Inv()
      ensures n == |prog.code|
    {
      hide heap.Valid, Represents, StringsStand, FunctionsStand, Encodable, Encode;
      n := |ops.cells|;
    }

    /** `map_get` on the table of functions. */
    method Lookup(name: string) returns (found: bool, entry: nat)
      requires Inv()
      ensures found == (name in prog.funs) && (found ==> entry == prog.funs[name])
    {
      hide heap.Valid, Represents, StringsStand, CodeStands;
      for i := 0 to |functions.keys|
        invariant forall j :: 0 <= j < i ==> functions.keys[j].kind != Heap.StrKind(name)
      {
        StrCmpZero(name, functions.keys[i].kind.s);
        if StrCmp(name, functions.keys[i].kind.s) == 0 {
          return true, functions.vals[i].kind.n;
        }
      }
      found, entry := false, 0;
    }

    method OpConstant() returns (e: Exit)
      requires Inv()
      modifies this, heap, heap.Nodes()
      ensures Inv() && Outcome(e) == StepConstant(prog, old(now))
      ensures forall o :: o in heap.Nodes() && o !in old(heap.Nodes()) ==> fresh(o)
    {
      hide Inv, Vals, ValOf, Pop, Top;
      StackSize();
      if |vstack| < 1 {
        return Failing;
      }
      var i := Pop1();
      Payload(i);
      if !i.kind.NumKind? {
        return Failing;
      }
      if i.kind.n < 0 {
        return Undefining;
      }
      var v := ConstantAt(i.kind.n);
      Push(v);
      e := Proceeds;
    }

    method OpGetVar() returns (e: Exit)
      requires Inv()
      modifies this, heap, heap.Nodes()
      ensures Inv() && Outcome(e) == StepGetVar(old(now))
      ensures forall o :: o in heap.Nodes() && o !in old(heap.Nodes()) ==> fresh(o)
    {
      hide Inv, Vals, ValOf, Pop, Top, ArrGet;
      StackSize();
      if |vstack| < 1 || vars == [] {
        return Failing;
      }
      var nr := Pop1();
      Payload(nr);
      if !nr.kind.NumKind? {
        return Failing;
      }
      if nr.kind.n < 0 {
        return Undefining;
      }
      var v := GetSlot(nr.kind.n);
      Push(v);
      e := Proceeds;
    }

    method OpSetVar() returns (e: Exit)
      requires Inv()
      modifies this, heap, heap.Nodes()
      ensures Inv() && Outcome(e) == StepSetVar(old(now))
      ensures forall o :: o in heap.Nodes() && o !in old(heap.Nodes()) ==> fresh(o)
    {
      hide Inv, Vals, ValOf, Pop, Top, ArrSet;
      StackSize();
      PopTwice(now.stack);
      if |vstack| < 2 || vars == [] {
        return Failing;
      }
      var top := vars[|vars| - 1];
      TopIn();
      var nr := Pop1();
      Payload(nr);
      if !nr.kind.NumKind? {
        return Failing;
      }
      if nr.kind.n < 0 {
        return Undefining;
      }
      var v := Pop1();
      SetSlot(top, nr.kind.n, v);
      e := Proceeds;
    }

    method OpJump() returns (e: Exit)
      requires Inv()
      modifies this, heap, heap.Nodes()
      ensures Inv() && Outcome(e) == StepJump(old(now))
      ensures forall o :: o in heap.Nodes() && o !in old(heap.Nodes()) ==> fresh(o)
    {
      hide Inv, Vals, ValOf, Pop, Top;
      StackSize();
      if |vstack| < 1 {
        return Failing;
      }
      var dest := Pop1();
      Payload(dest);
      if !dest.kind.NumKind? {
        return Failing;
      }
      Goto(dest.kind.n - 1);
      e := Proceeds;
    }

    method OpJumpF() returns (e: Exit)
      requires Inv()
      modifies this, heap, heap.Nodes()
      ensures Inv() && Outcome(e) == StepJumpF(old(now))
      ensures forall o :: o in heap.Nodes() && o !in old(heap.Nodes()) ==> fresh(o)
    {
      hide Inv, Vals, ValOf, Pop, Top, ToBool;
      StackSize();
      PopTwice(now.stack);
      if |vstack| < 2 {
        return Failing;
      }
      var dest := Pop1();
      Payload(dest);
      if !dest.kind.NumKind? {
        return Failing;
      }
      var cond := Pop1();
      var c := Truthy(cond);
      if !c {
        Goto(dest.kind.n - 1);
      }
      e := Proceeds;
    }

    method OpDup() returns (e: Exit)
      requires Inv()
      modifies this, heap, heap.Nodes()
      ensures Inv() && Outcome(e) == StepDup(old(now))
      ensures forall o :: o in heap.Nodes() && o !in old(heap.Nodes()) ==> fresh(o)
    {
      hide Inv, ValOf;
      StackSize();
      if |vstack| < 1 {
        return Failing;
      }
      var v := Pop1();
      Push(v);
      Push(v);
      assert old(now.stack) == Pop(old(now.stack), 1) + [Top(old(now.stack), 0)];
      e := Proceeds;
    }

    method OpDiscard() returns (e: Exit)
      requires Inv()
      modifies this, heap, heap.Nodes()
      ensures Inv() && Outcome(e) == StepDiscard(old(now))
      ensures forall o :: o in heap.Nodes() && o !in old(heap.Nodes()) ==> fresh(o)
    {
      hide Inv, Vals, ValOf, Pop, Top;
      StackSize();
      if |vstack| < 1 {
        return Failing;
      }
      var _ := Pop1();
      e := Proceeds;
    }

    lemma Payload(o: Obj)
      requires o in Vals()
      ensures o.kind.NumKind? <==> ValOf(o).Num?
      ensures o.kind.NumKind? ==> ValOf(o) == Num(o.kind.n)
      ensures o.kind.StrKind? <==> ValOf(o).Str?
      ensures o.kind.StrKind? ==> ValOf(o) == Str(o.kind.s)
    {
    }

    lemma TopIn()
      requires Inv() && vars != []
      ensures vars[|vars| - 1] in heap.Nodes() && |vars[|vars| - 1].cells| >= 2
      ensures vars[|vars| - 1].cells[1] in heap.Nodes()
    {
      hide heap.Valid, TablesStand, StoreStands, FramesStand;
      TopFrame(vars, now.frames, Snap(), heap.undef);
    }

    method ScanForward(br: Bracket)
      requires Inv() && 0 <= pc <= |prog.code| && Encodable(Do(br.open)) && Encodable(Do(br.close))
      modifies `pc, `now
      ensures Inv() && now == old(now).(pc := Scan(prog.code, old(pc), 1, br))
    {
      hide heap.Valid, Represents, StringsStand, FunctionsStand, CodeStands, Encodable, Scan;
      var p := FindBracket(ops.cells, prog.code, pc, br);
      Goto(p);
    }

    lemma PcIs()
      requires Inv()
      ensures now.pc == pc
    {
      hide Sound, Represents;
    }

    method OpCondBegin() returns (e: Exit)
      requires Inv() && 0 <= pc < |prog.code|
      modifies this, heap, heap.Nodes()
      ensures Inv() && Outcome(e) == StepCondBegin(prog, old(now))
      ensures forall o :: o in heap.Nodes() && o !in old(heap.Nodes()) ==> fresh(o)
    {
      hide Inv, Vals, ValOf, Pop, Top, ToBool, Scan;
      StackSize();
      PcIs();
      if |vstack| < 1 {
        return Failing;
      }
      var cond := Pop1();
      var c := Truthy(cond);
      if !c {
        ScanForward(TO_ELSE);
      }
      e := Proceeds;
    }

    method OpCondElse() returns (e: Exit)
      requires Inv() && 0 <= pc < |prog.code|
      modifies this, heap, heap.Nodes()
      ensures Inv() && Outcome(e) == StepCondElse(prog, old(now))
      ensures forall o :: o in heap.Nodes() && o !in old(heap.Nodes()) ==> fresh(o)
    {
      hide Inv, Scan;
      PcIs();
      ScanForward(TO_CONDEND);
      e := Proceeds;
    }

    method OpLoopBegin() returns (e: Exit)
      requires Inv()
      modifies this, heap, heap.Nodes()
      ensures Inv() && Outcome(e) == StepLoopBegin(old(now))
      ensures forall o :: o in heap.Nodes() && o !in old(heap.Nodes()) ==> fresh(o)
    {
      hide Inv, NumbersStand;
      StackSize();
      PcIs();
      if vars == [] {
        return Failing;
      }
      var c := NewScalar(Heap.NumKind(pc));
      TopIn();
      var l := LoopStack();
      ghost var loops := now.frames[|vars| - 1].loops;
      NumbersPush(l.cells, loops, c, heap.Nodes());
      SetLoops(l, l.cells + [c], loops + [pc]);
      e := Proceeds;
    }

    /** LOOPBODY, with the exit from the loop on a false condition. */
    method OpLoopBody() returns (e: Exit)
      requires Inv() && 0 <= pc < |prog.code|
      modifies this, heap, heap.Nodes()
      ensures Inv() && Outcome(e) == StepLoopBody(prog, old(now))
      ensures forall o :: o in heap.Nodes() && o !in old(heap.Nodes()) ==> fresh(o)
    {
      hide Inv, ValOf, Pop, Top, ToBool, Scan, NumbersStand;
      StackSize();
      PcIs();
      if |vstack| < 1 {
        return Failing;
      }
      var cond := Pop1();
      var c := Truthy(cond);
      if c {
        return Proceeds;
      }
      if vars == [] {
        return Failing;
      }
      ScanForward(TO_LOOPEND);
      TopIn();
      var l := LoopStack();
      ghost var loops := now.frames[|vars| - 1].loops;
      NumbersPop(l.cells, loops, heap.Nodes());
      if l.cells != [] {
        SetLoops(l, l.cells[..|l.cells| - 1], loops[..|loops| - 1]);
      } else {
        SetLoops(l, l.cells, loops);
      }
      e := Proceeds;
    }

    method OpLoopEnd() returns (e: Exit)
      requires Inv()
      modifies this, heap, heap.Nodes()
      ensures Inv() && Outcome(e) == StepLoopEnd(old(now))
      ensures forall o :: o in heap.Nodes() && o !in old(heap.Nodes()) ==> fresh(o)
    {
      hide Inv;
      StackSize();
      if vars == [] {
        return Failing;
      }
      var l := LoopStack();
      if l.cells == [] {
        return Failing;
      }
      Goto(l.cells[|l.cells| - 1].kind.n);
      e := Proceeds;
    }

    method OpRet() returns (e: Exit)
      requires Inv()
      modifies this, heap, heap.Nodes()
      ensures Inv() && Outcome(e) == StepRet(old(now))
      ensures forall o :: o in heap.Nodes() && o !in old(heap.Nodes()) ==> fresh(o)
    {
      hide Inv;
      StackSize();
      if vars == [] {
        return Failing;
      }
      var ret := Leave();
      Goto(ret);
      e := Proceeds;
    }

    // ----- calls, arrays and database blocks -----

    /** The loop of `op_call` that pops the arguments into the new frame. */
    method PopArgs(a: Obj, n: nat, ghost f0: Frame) returns (ghost f: Frame)
      requires Inv() && Pending(a, f0) && f0.slots == [] && n <= |vstack|
      modifies a`cells, `vstack, `now
      ensures Inv() && Pending(a, f) && n <= |old(now.stack)|
      ensures f == f0.(slots := ArrFill(Undef, [], 0, PopList(old(now.stack), n)))
      ensures now == old(now).(stack := Pop(old(now.stack), n))
    {
      hide Inv, Pending, ArrFill, ArrSet, PopList, Pop, Top, ValOf;
      StackSize();
      ghost var st := now.stack;
      Executor.PopNone(st);
      f := f0;
      for i := 0 to n
        invariant Inv() && Pending(a, f) && f == f0.(slots := f.slots) && |vstack| == |now.stack| == |st| - i
        invariant now == old(now).(stack := Pop(st, i))
        invariant ArrFill(Undef, f.slots, i, PopList(now.stack, n - i)) == ArrFill(Undef, [], 0, PopList(st, n))
      {
        Executor.ListStep(now.stack, n - i, f.slots, i);
        Executor.PopMore(st, i);
        var v := Pop1();
        SetArg(a, f, i, v);
        f := f.(slots := ArrSet(Undef, f.slots, i, ValOf(v)));
      }
      Executor.FillNone(f.slots, n, now.stack);
    }

    method PopCell(r: Obj, i: nat, ghost m: Mem, ghost c: seq<Val>) returns (ghost d: seq<Val>)
      requires Inv() && r in Vals() && r.kind.ArrayKind? && ValOf(r) == Ref(m.next) && vstack != []
      requires now.mem == m.Alloc(c)
      modifies r`cells, `vstack, `now
      ensures Inv() && |vstack| == |now.stack| == |old(now.stack)| - 1 && |old(now.stack)| == |old(vstack)|
      ensures now == old(now).(stack := Pop(old(now.stack), 1), mem := m.Alloc(d))
      ensures d == ArrSet(Undef, c, i, Top(old(now.stack), 0))
    {
      hide Inv, ArrSet, Pop, Top;
      var v := Pop1();
      d := ArrSet(Undef, c, i, ValOf(v));
      AllocStore(m, c, d);
      SetCell(r, i, v);
    }

    /** The loop of `op_mkarray` on the array just made. */
    method PopCells(r: Obj, n: nat, ghost m: Mem)
      requires Inv() && r in Vals() && r.kind.ArrayKind? && ValOf(r) == Ref(m.next) && n <= |vstack|
      requires now.mem == m.Alloc([])
      modifies r`cells, `vstack, `now
      ensures Inv() && n <= |old(now.stack)|
      ensures now == old(now).(stack := Pop(old(now.stack), n),
                               mem := m.Alloc(ArrFill(Undef, [], 0, PopList(old(now.stack), n))))
    {
      hide Inv, ArrFill, ArrSet, PopList, Pop, Top, ValOf;
      StackSize();
      ghost var st, c := now.stack, [];
      Executor.PopNone(st);
      for i := 0 to n
        invariant Inv() && |vstack| == |now.stack| == |st| - i
        invariant now == old(now).(stack := Pop(st, i), mem := m.Alloc(c))
        invariant ArrFill(Undef, c, i, PopList(now.stack, n - i)) == ArrFill(Undef, [], 0, PopList(st, n))
      {
        Executor.ListStep(now.stack, n - i, c, i);
        Executor.PopMore(st, i);
        c := PopCell(r, i, m, c);
      }
      Executor.FillNone(c, n, now.stack);
    }

    method OpMkArray() returns (e: Exit)
      requires Inv()
      modifies this, heap, heap.Nodes()
      ensures Inv() && Outcome(e) == StepMkArray(old(now))
      ensures forall o :: o in heap.Nodes() && o !in old(heap.Nodes()) ==> fresh(o)
    {
      hide Inv, ValOf, Pop, Top, PopList, ArrFill;
      StackSize();
      if |vstack| < 1 {
        return Failing;
      }
      var n := Pop1();
      Payload(n);
      PopOne(old(now.stack));
      if !n.kind.NumKind? || |vstack| < n.kind.n {
        return Failing;
      }
      var nr := if n.kind.n < 0 then 0 else n.kind.n;
      PopAll(old(now.stack), nr);
      ghost var m := now.mem;
      var a := NewArray();
      PopCells(a, nr, m);
      Push(a);
      e := Proceeds;
    }

    method OpCall() returns (e: Exit)
      requires Inv() && NativesOk(prog)
      modifies this, heap, heap.Nodes()
      ensures Inv() && Outcome(e) == StepCall(prog, old(now))
      ensures forall o :: o in heap.Nodes() && o !in old(heap.Nodes()) ==> fresh(o)
    {
      hide Inv, ValOf, Pop, Top, PopList, ArrFill, NativesOk, Pending;
      StackSize();
      PopTwice(now.stack);
      if |vstack| < 2 {
        return Failing;
      }
      var idx := Pop1();
      Payload(idx);
      if !idx.kind.StrKind? {
        return Failing;
      }
      var found, entry := Lookup(idx.kind.s);
      var nrargs := Pop1();
      Payload(nrargs);
      if !nrargs.kind.NumKind? || |vstack| < nrargs.kind.n {
        return Failing;
      }
      PcIs();
      var a := NewFrame();
      ghost var f := PopArgs(a, if nrargs.kind.n < 0 then 0 else nrargs.kind.n, Frame(pc, [], []));
      if found {
        Enter(a, f);
        var dest: int := entry;
        Goto(dest - 1);
        e := Proceeds;
      } else {
        e := CallNative(idx.kind.s, a, f);
      }
    }

    /** The loop that reads the names and values of a block's variables. */
    method PopNamesAndValues(n: nat) returns (names: seq<Val>, vals: seq<Val>)
      requires Inv() && 2 * n <= |vstack|
      modifies `vstack, `now
      ensures Inv() && 2 * n <= |old(now.stack)| && (names, vals) == PopPairs(old(now.stack), n)
      ensures now == old(now).(stack := Pop(old(now.stack), 2 * n))
    {
      hide Inv, PopPairs, Pop, Top, ValOf;
      StackSize();
      ghost var st := now.stack;
      Executor.PopNone(st);
      names, vals := [], [];
      for i := 0 to n
        invariant Inv() && |vstack| == |now.stack| == |st| - 2 * i && now == old(now).(stack := Pop(st, 2 * i))
        invariant names + PopPairs(now.stack, n - i).0 == PopPairs(st, n).0
        invariant vals + PopPairs(now.stack, n - i).1 == PopPairs(st, n).1
      {
        Executor.PopTwo(st, 2 * i);
        Executor.PairsStep(now.stack, n - i, names, vals);
        var name := Pop1();
        var v := Pop1();
        names, vals := names + [ValOf(name)], vals + [ValOf(v)];
      }
      Executor.PairsNone(now.stack);
      assert names == PopPairs(st, n).0 && vals == PopPairs(st, n).1;
    }

    method SetWorld(w: World)
      requires Inv()
      modifies `world, `now
      ensures Inv() && now == old(now).(mem := old(now.mem).(world := w)) && |vstack| == |now.stack|
    {
      hide Sound, Represents;
      StackSize();
      WorldRepresents(at, now, vstack, vars, Snap(), heap.undef, w);
      world := w;
      now := now.(mem := now.mem.(world := w));
    }

    /** The columns, last one first, as new values. */
    method PushColumns(cols: seq<Val>)
      requires Inv() && AllScalars(cols)
      modifies heap`head, heap`list, `vstack, `now
      ensures Inv() && now == old(now).(stack := old(now.stack) + Reverse(cols))
      ensures forall o :: o in heap.Nodes() && o !in old(heap.Nodes()) ==> fresh(o)
    {
      hide Inv, Reverse, heap.Nodes;
      var i := |cols|;
      ReverseNone(old(now.stack), cols);
      while i > 0
        invariant 0 <= i <= |cols| && Inv() && now == old(now).(stack := old(now.stack) + Reverse(cols[i..]))
        invariant forall o :: o in heap.Nodes() && o !in old(heap.Nodes()) ==> fresh(o)
      {
        i := i - 1;
        ReverseStep(old(now.stack), cols, i);
        var c := NewScalar(if cols[i].Num? then Heap.NumKind(cols[i].n) else Heap.StrKind(cols[i].s));
        Push(c);
      }
      assert cols[0..] == cols;
    }

    method OpDblock() returns (e: Exit)
      requires Inv() && NativesOk(prog)
      modifies this, heap, heap.Nodes()
      ensures Inv() && Outcome(e) == StepDblock(prog, old(now))
      ensures forall o :: o in heap.Nodes() && o !in old(heap.Nodes()) ==> fresh(o)
    {
      hide Inv, Vals, ValOf, Pop, Top, PopPairs, AllStrings, AllScalars, Reverse, Strings, NativesOk;
      StackSize();
      PopTwice(now.stack);
      if |vstack| < 3 {
        return Failing;
      }
      var fbody := Pop1();
      var name := Pop1();
      var nrvars := Pop1();
      Payload(fbody);
      Payload(name);
      Payload(nrvars);
      if !fbody.kind.StrKind? || !name.kind.StrKind? || !nrvars.kind.NumKind? || nrvars.kind.n < 0 {
        return Undefining;
      }
      if |vstack| < 2 * nrvars.kind.n {
        return Failing;
      }
      var names, vals := PopNamesAndValues(nrvars.kind.n);
      if !AllStrings(names) {
        return Undefining;
      }
      if !AllScalars(vals) {
        return Failing;
      }
      RemoteIs(name.kind.s, Strings(names), vals);
      var (cols, w) := remote(name.kind.s, Strings(names), vals, world);
      SetWorld(w);
      PushColumns(cols);
      e := Proceeds;
    }

    lemma RemoteIs(name: string, names: seq<string>, vals: seq<Val>)
      requires Inv() && NativesOk(prog)
      ensures remote == prog.remote && world == now.mem.world && AllScalars(remote(name, names, vals, world).0)
    {
      hide heap.Valid, TablesStand, Represents;
    }

    // ----- the run -----

    method Dispatch(op: Opcode) returns (e: Exit)
      requires Inv() && NativesOk(prog) && 0 <= pc < |prog.code|
      modifies this, heap, heap.Nodes()
      ensures Inv() && Outcome(e) == StepOp(prog, old(now), op)
      ensures forall o :: o in heap.Nodes() && o !in old(heap.Nodes()) ==> fresh(o)
    {
      hide Inv, NativesOk, heap.Nodes;
      hide StepBinary, StepNegate, StepConstant, StepGetVar, StepSetVar, StepJump, StepJumpF, StepDup, StepDiscard;
      hide StepCondBegin, StepCondElse, StepLoopBegin, StepLoopBody, StepLoopEnd, StepCall, StepRet, StepMkArray;
      hide StepIndex, StepIndexAssign, StepDblock;
      PcIs();
      match op
      case DBLOCK => e := OpDblock();
      case ADD => e := OpBinary(Plus);
      case SUB => e := OpBinary(Minus);
      case MUL => e := OpBinary(Times);
      case DIVIDE => e := OpBinary(Over);
      case NEGATE => e := OpNegate();
      case EQUAL => e := OpBinary(Equal);
      case NOTEQUAL => e := OpBinary(NotEqual);
      case LESS => e := OpBinary(Less);
      case CONSTANT => e := OpConstant();
      case GETVAR => e := OpGetVar();
      case SETVAR => e := OpSetVar();
      case JUMP => e := OpJump();
      case JUMPF => e := OpJumpF();
      case DUP => e := OpDup();
      case DISCARD => e := OpDiscard();
      case CONDBEGIN => e := OpCondBegin();
      case CONDELSE => e := OpCondElse();
      case CONDEND => e := Proceeds;
      case LOOPBEGIN => e := OpLoopBegin();
      case LOOPBODY => e := OpLoopBody();
      case LOOPEND => e := OpLoopEnd();
      case CALL => e := OpCall();
      case RET => e := OpRet();
      case MKARRAY => e := OpMkArray();
      case INDEX1 => e := OpIndex();
      case INDEXAS => e := OpIndexAssign();
      case Other(_) => e := Unknown;
    }

    /** The end of a step, or of a run, as a result of the step function. */
    ghost function Result(e: Exit): StepResult
      reads this
    {
      if e.Proceeds? then Next(now) else Outcome(e)
    }

    /** `exec_step` up to the collection. */
    method ExecOne() returns (e: Exit)
      requires Inv() && NativesOk(prog)
      modifies this, heap, heap.Nodes()
      ensures Inv() && Result(e) == Step(prog, old(now))
      ensures forall o :: o in heap.Nodes() && o !in old(heap.Nodes()) ==> fresh(o)
    {
      hide Inv, NativesOk, StepOp, Encode, Decode, Encodable;
      PcIs();
      var size := CodeSize();
      if pc >= size {
        return AtEnd;
      }
      if pc < 0 {
        return Undefining;
      }
      var x := CellAt(pc);
      DecodeEncode(prog.code[pc]);
      match Decode(x)
      case Push(n) =>
        var o := NewScalar(Heap.NumKind(n));
        Pushes(o, n);
        Push(o);
        Goto(pc + 1);
        e := Proceeds;
      case Do(op) =>
        e := Dispatch(op);
        if e.Proceeds? {
          PcIs();
          Goto(pc + 1);
        }
    }

    lemma Pushes(o: Obj, n: int)
      requires o.kind == Heap.NumKind(n)
      ensures ValOf(o) == Num(n)
    {
    }

    /** Strings made for debug messages and dropped: any number of them. */
    method Chatter(k: nat)
      requires Inv()
      modifies heap`head, heap`list
      ensures Inv()
      ensures forall o :: o in heap.Nodes() && o !in old(heap.Nodes()) ==> fresh(o)
    {
      hide Inv, heap.Nodes;
      for i := 0 to k
        invariant Inv() && forall o :: o in heap.Nodes() && o !in old(heap.Nodes()) ==> fresh(o)
      {
        var _ := NewScalar(Heap.StrKind(""));
      }
    }

    /** `vals_gc` from the machine's roots is a collection of its state: below the threshold it changes
        nothing, and otherwise it leaves exactly the arrays that can be reached. */
    method CollectGarbage()
      requires Inv()
      modifies heap`head, heap`list, heap`lastCount, heap.Nodes()`next, heap.Nodes()`marked, `now, `at
      ensures Inv() && Collects(old(now), now) && heap.Nodes() <= old(heap.Nodes())
      ensures now == if |old(heap.list)| - old(heap.lastCount) < Heap.GC_THRESHOLD then old(now)
                     else LiveOnly(old(now))
      ensures |heap.list| < heap.lastCount + Heap.GC_THRESHOLD
    {
      hide heap.Valid, Represents, TablesStand, Collects, heap.RootsOk, Heap.RootSet, heap.Live, LiveOnly;
      RootsListed();
      ghost var nodes := heap.Nodes();
      ghost var roots := Heap.RootSet(vstack, vars, globals, constants, functions, ops);
      LeftIsLiveOnly(heap, prog, at, now, vstack, vars, globals, constants, functions, ops, roots);
      AllLeft();
      now, at := GcCollects(heap, vstack, vars, globals, constants, functions, ops, roots, nodes, now, at);
      TablesListed(roots, nodes);
    }

    lemma AllLeft()
      requires Represents(at, now, vstack, vars, Snap(), heap.undef)
      ensures Restrict(now, Among(at, heap.Nodes())) == now
    {
      hide FramesStand, StandFor;
      forall a | a in at ensures at[a] in heap.Nodes() {
        ArrayAt(at, now.mem, Snap(), a, heap.undef);
      }
      assert now.mem.arrs == map a | a in now.mem.arrs && a in Among(at, heap.Nodes()) :: now.mem.arrs[a];
    }

    lemma TablesListed(roots: set<Obj>, nodes: set<Obj>)
      requires roots == Heap.RootSet(vstack, vars, globals, constants, functions, ops) && heap.RootsOk(roots)
      requires TablesStand(prog, globals, constants, functions, ops, nodes)
      ensures TablesStand(prog, globals, constants, functions, ops, heap.Nodes())
    {
      hide StringsStand, CodeStands, FunctionsStand;
      assert globals in roots && constants in roots && functions in roots && ops in roots;
    }

    lemma RootsListed()
      requires Inv()
      ensures heap.RootsOk(Heap.RootSet(vstack, vars, globals, constants, functions, ops))
    {
    }

    /** `exec_step`: one step of the machine, and `vals_gc` when it goes on.  `noise` strings are made and dropped
        on the way. */
    method ExecStep(noise: nat) returns (e: Exit)
      requires Inv() && NativesOk(prog)
      modifies this, heap, heap.Nodes()
      ensures Inv() && forall o :: o in heap.Nodes() && o !in old(heap.Nodes()) ==> fresh(o)
      ensures if e.Proceeds? then CollectedStep(prog, old(now), now) else Outcome(e) == Step(prog, old(now))
      ensures e.Proceeds? ==> |heap.list| < heap.lastCount + Heap.GC_THRESHOLD
    {
      hide Inv, NativesOk, Step, Collects, Outcome, LiveOnly;
      e := ExecOne();
      if e.Proceeds? {
        Chatter(noise);
        CollectGarbage();
      }
    }

    /** `exec_run`, cut off after `n` steps: whatever the collector drops after each step, and whatever else is
        allocated in between, the machine comes to what the step function comes to without collections. */
    method Run(n: nat, noise: nat -> nat) returns (e: Exit)
      requires Inv() && NativesOk(prog)
      modifies this, heap, heap.Nodes()
      ensures Inv() && SameStep(StepN(prog, old(now), n), Result(e))
    {
      hide Inv, NativesOk, Step, Collects, Related;
      SelfRelated();
      ghost var s := now;
      e := Proceeds;
      var i := 0;
      while i < n && e.Proceeds?
        invariant i <= n && Inv() && forall o :: o in heap.Nodes() && o !in old(heap.Nodes()) ==> fresh(o)
        invariant if e.Proceeds? then Related(s, now) && StepN(prog, s, n - i) == StepN(prog, old(now), n)
                  else SameStep(StepN(prog, old(now), n), Outcome(e))
      {
        StepKeepsPace(s, now, n - i);
        ghost var t := now;
        e := ExecStep(noise(i));
        if e.Proceeds? {
          CollectionKeepsRelated(Step(prog, s).s, Step(prog, t).s, now);
          s := Step(prog, s).s;
        }
        i := i + 1;
      }
    }

    lemma SelfRelated()
      requires Inv()
      ensures Related(now, now)
    {
      hide Sound;
      RepresentedIsClosed(at, now, vstack, vars, Snap(), heap.undef);
    }

    lemma StepKeepsPace(s: State, t: State, n: nat)
      requires NativesOk(prog) && Related(s, t) && n > 0
      ensures SameStep(Step(prog, s), Step(prog, t))
      ensures StepN(prog, s, n) == if Step(prog, s).Next? then StepN(prog, Step(prog, s).s, n - 1) else Step(prog, s)
    {
      hide Step, Related;
      StepSame(prog, s, t);
    }
  }
}
