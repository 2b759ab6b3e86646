/** The objects of a loaded program: the array of constants, the array of code cells and the map of function
    entries (vm/prog.c). */
module Tables {
  import opened Values
  import opened Bytecode
  import opened Machine
  import opened Objects
  import Heap

  predicate CodeStands(cells: seq<Obj>, code: seq<Instr>) {
    |cells| == |code| &&
    forall i :: 0 <= i < |cells| ==> Encodable(code[i]) && cells[i].kind == Heap.NumKind(Encode(code[i]))
  }

  predicate StringsStand(cells: seq<Obj>, ss: seq<string>) {
    |cells| == |ss| && forall i :: 0 <= i < |cells| ==> cells[i].kind == Heap.StrKind(ss[i])
  }

  /** Every entry is a function's, and every function has one. */
  predicate FunctionsStand(keys: seq<Obj>, vals: seq<Obj>, funs: map<string, nat>) {
    && |keys| == |vals|
    && (forall i :: 0 <= i < |keys| ==> keys[i].kind.StrKind? && keys[i].kind.s in funs
                                        && vals[i].kind == Heap.NumKind(funs[keys[i].kind.s]))
    && forall name :: name in funs ==> exists i :: 0 <= i < |keys| && keys[i].kind == Heap.StrKind(name)
  }

  predicate AllEncodable(code: seq<Instr>) {
    forall i :: 0 <= i < |code| ==> Encodable(code[i])
  }

  /** The values of the tables are no arrays of a program. */
  ghost predicate NoneNumbered(objs: set<Obj>) {
    forall o :: o in objs ==> !o.role.Numbered?
  }

  /** `prog_new_constant` for each string in turn. */
  method MakeConstants(heap: Heap.Values, ss: seq<string>) returns (o: Obj)
    requires heap.Valid() && NoneNumbered(heap.Nodes())
    modifies heap`head, heap`list
    ensures heap.Valid() && fresh(o) && o in heap.Nodes() && old(heap.Nodes()) <= heap.Nodes()
    ensures NoneNumbered(heap.Nodes()) && forall o :: o in heap.Nodes() && o !in old(heap.Nodes()) ==> fresh(o)
    ensures o.kind.ArrayKind? && o.role.NoRole? && StringsStand(o.cells, ss)
  {
    hide heap.Valid, heap.Nodes;
    o := heap.New(Heap.ArrayKind, Heap.NoRole);
    for i := 0 to |ss|
      invariant heap.Valid() && o in heap.Nodes() && old(heap.Nodes()) <= heap.Nodes()
      invariant NoneNumbered(heap.Nodes()) && forall o :: o in heap.Nodes() && o !in old(heap.Nodes()) ==> fresh(o)
      invariant StringsStand(o.cells, ss[..i])
    {
      ghost var _ := heap.AppendNew(o, Heap.StrKind(ss[i]));
    }
    assert ss[..|ss|] == ss;
  }

  /** `prog_add_op` and `prog_add_num` for each cell in turn. */
  method MakeCode(heap: Heap.Values, code: seq<Instr>) returns (o: Obj)
    requires heap.Valid() && NoneNumbered(heap.Nodes()) && AllEncodable(code)
    modifies heap`head, heap`list
    ensures heap.Valid() && fresh(o) && o in heap.Nodes() && old(heap.Nodes()) <= heap.Nodes()
    ensures NoneNumbered(heap.Nodes()) && forall o :: o in heap.Nodes() && o !in old(heap.Nodes()) ==> fresh(o)
    ensures o.kind.ArrayKind? && o.role.NoRole? && CodeStands(o.cells, code)
  {
    hide heap.Valid, heap.Nodes, Encode, Encodable;
    o := heap.New(Heap.ArrayKind, Heap.NoRole);
    for i := 0 to |code|
      invariant heap.Valid() && o in heap.Nodes() && old(heap.Nodes()) <= heap.Nodes()
      invariant NoneNumbered(heap.Nodes()) && forall o :: o in heap.Nodes() && o !in old(heap.Nodes()) ==> fresh(o)
      invariant CodeStands(o.cells, code[..i])
    {
      ghost var _ := heap.AppendNew(o, Heap.NumKind(Encode(code[i])));
    }
    assert code[..|code|] == code;
  }

  function Without(funs: map<string, nat>, names: set<string>): map<string, nat> {
    map name | name in funs && name !in names :: funs[name]
  }

  lemma OneMoreFunction(keys: seq<Obj>, vals: seq<Obj>, funs: map<string, nat>, todo: set<string>, key: Obj, val: Obj)
    requires key.kind.StrKind? && key.kind.s in todo && key.kind.s in funs && val.kind == Heap.NumKind(funs[key.kind.s])
    requires FunctionsStand(keys, vals, Without(funs, todo))
    ensures FunctionsStand(keys + [key], vals + [val], Without(funs, todo - {key.kind.s}))
  {
    var keys' := keys + [key];
    forall name | name in Without(funs, todo - {key.kind.s})
      ensures exists i :: 0 <= i < |keys'| && keys'[i].kind == Heap.StrKind(name)
    {
      if name == key.kind.s {
        assert keys'[|keys|] == key;
      } else {
        assert name in Without(funs, todo);
        var i :| 0 <= i < |keys| && keys[i].kind == Heap.StrKind(name);
        assert keys'[i] == keys[i];
      }
    }
  }

  /** `prog_register_function` for each function, in any order. */
  method MakeFunctions(heap: Heap.Values, funs: map<string, nat>) returns (o: Obj)
    requires heap.Valid() && NoneNumbered(heap.Nodes())
    modifies heap`head, heap`list
    ensures heap.Valid() && fresh(o) && o in heap.Nodes() && old(heap.Nodes()) <= heap.Nodes()
    ensures NoneNumbered(heap.Nodes()) && forall o :: o in heap.Nodes() && o !in old(heap.Nodes()) ==> fresh(o)
    ensures o.kind.MapKind? && FunctionsStand(o.keys, o.vals, funs)
  {
    hide heap.Valid, heap.Nodes;
    o := heap.New(Heap.MapKind, Heap.NoRole);
    var todo := funs.Keys;
    while todo != {}
      invariant heap.Valid() && o in heap.Nodes() && old(heap.Nodes()) <= heap.Nodes() && todo <= funs.Keys
      invariant NoneNumbered(heap.Nodes()) && forall o :: o in heap.Nodes() && o !in old(heap.Nodes()) ==> fresh(o)
      invariant FunctionsStand(o.keys, o.vals, Without(funs, todo))
      decreases todo
    {
      hide FunctionsStand, Without;
      var name :| name in todo;
      ghost var keys, vals := o.keys, o.vals;
      ghost var key, val := heap.EnterNew(o, Heap.StrKind(name), Heap.NumKind(funs[name]));
      OneMoreFunction(keys, vals, funs, todo, key, val);
      todo := todo - {name};
    }
    assert Without(funs, {}) == funs;
  }

  /** The four tables of a loaded program. */
  ghost predicate TablesStand(p: Image, globals: Obj, constants: Obj, functions: Obj, ops: Obj, nodes: set<Obj>)
    reads nodes`cells, nodes`keys, nodes`vals
  {
    && globals in nodes && constants in nodes && functions in nodes && ops in nodes
    && globals.role.NoRole? && constants.role.NoRole? && ops.role.NoRole?
    && globals.kind.ArrayKind? && globals.cells == []
    && constants.kind.ArrayKind? && StringsStand(constants.cells, p.consts)
    && ops.kind.ArrayKind? && CodeStands(ops.cells, p.code)
    && functions.kind.MapKind? && FunctionsStand(functions.keys, functions.vals, p.funs)
  }

  lemma TablesMore(p: Image, globals: Obj, constants: Obj, functions: Obj, ops: Obj, nodes: set<Obj>, more: set<Obj>)
    requires TablesStand(p, globals, constants, functions, ops, nodes) && nodes <= more
    ensures TablesStand(p, globals, constants, functions, ops, more)
  {
  }

  /** The objects of a machine that starts. */
  lemma InitialStands(f: Obj, mem: Mem, g: Cells, undef: Obj)
    requires FrameStands(f, 0, Frame(0, [], []), g, undef) && NoneNumbered(g.Keys) && mem.arrs == map[]
    ensures Represents(map[], Initial(mem), [], [f], g, undef)
  {
    hide FrameStands;
  }

  /** `prog_new`, and the calls that load a program into it. */
  method MakeTables(heap: Heap.Values, p: Image) returns (globals: Obj, constants: Obj, functions: Obj, ops: Obj)
    requires heap.Valid() && NoneNumbered(heap.Nodes()) && AllEncodable(p.code)
    modifies heap`head, heap`list
    ensures heap.Valid() && TablesStand(p, globals, constants, functions, ops, heap.Nodes())
    ensures NoneNumbered(heap.Nodes()) && forall o :: o in heap.Nodes() && o !in old(heap.Nodes()) ==> fresh(o)
  {
    hide heap.Valid, heap.Nodes, AllEncodable, StringsStand, CodeStands, FunctionsStand;
    constants := MakeConstants(heap, p.consts);
    functions := MakeFunctions(heap, p.funs);
    ops := MakeCode(heap, p.code);
    globals := heap.New(Heap.ArrayKind, Heap.NoRole);
  }

  /** The three values of a frame with no variables yet. */
  method MakeFrameArray(heap: Heap.Values, ret: int, i: nat) returns (f: Obj, ghost c: Obj, ghost l: Obj)
    requires heap.Valid()
    modifies heap`head, heap`list
    ensures heap.Valid() && fresh({f, c, l}) && heap.Nodes() == old(heap.Nodes()) + {f, c, l} && f != c && f != l
    ensures f.kind.ArrayKind? && f.role == Heap.FrameOf(i) && f.cells == [c, l]
    ensures c.kind == Heap.NumKind(ret) && c.role.NoRole?
    ensures l.kind.ArrayKind? && l.role == Heap.LoopsOf(i) && l.cells == []
  {
    hide heap.Valid, heap.Nodes;
    f := heap.New(Heap.ArrayKind, Heap.FrameOf(i));
    c := heap.AppendNew(f, Heap.NumKind(ret));
    var loops := heap.New(Heap.ArrayKind, Heap.LoopsOf(i));
    l := loops;
    heap.Write(f, f.cells + [loops]);
  }

  /** The array of a frame with no variables yet: the return address and an empty loop stack. */
  method MakeFrame(heap: Heap.Values, ret: int, i: nat) returns (f: Obj)
    requires heap.Valid()
    modifies heap`head, heap`list
    ensures heap.Valid() && fresh(f) && old(heap.Nodes()) <= heap.Nodes()
    ensures forall o :: o in heap.Nodes() && o !in old(heap.Nodes()) ==> fresh(o)
    ensures ExtendsPlainly(old(CellsOf(heap.Nodes())), CellsOf(heap.Nodes()))
    ensures FrameStands(f, i, Frame(ret, [], []), CellsOf(heap.Nodes()), heap.undef)
  {
    hide heap.Valid, heap.Nodes;
    ghost var g := CellsOf(heap.Nodes());
    ghost var c, l;
    f, c, l := MakeFrameArray(heap, ret, i);
    assert forall o :: o in g ==> o.cells == g[o];
  }

  /** Everything a machine starts with. */
  method MakeMachine(p: Image)
    returns (heap: Heap.Values, globals: Obj, constants: Obj, functions: Obj, ops: Obj, f: Obj)
    requires AllEncodable(p.code)
    ensures fresh(heap) && heap.Valid() && fresh(heap.Nodes())
    ensures TablesStand(p, globals, constants, functions, ops, heap.Nodes())
    ensures FrameStands(f, 0, Frame(0, [], []), CellsOf(heap.Nodes()), heap.undef) && NoneNumbered(heap.Nodes())
  {
    heap := new Heap.Values();
    hide heap.Valid, FrameStands, StringsStand, CodeStands, FunctionsStand, AllEncodable, ExtendsPlainly;
    globals, constants, functions, ops := MakeTables(heap, p);
    ghost var nodes, g := heap.Nodes(), CellsOf(heap.Nodes());
    f := MakeFrame(heap, 0, 0);
    TablesMore(p, globals, constants, functions, ops, nodes, heap.Nodes());
    ExtendsNone(g, CellsOf(heap.Nodes()));
  }

  lemma ExtendsNone(g: Cells, h: Cells)
    requires ExtendsPlainly(g, h) && NoneNumbered(g.Keys)
    ensures NoneNumbered(h.Keys)
  {
  }
}
