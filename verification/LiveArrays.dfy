/** What a collection from the machine's roots drops, said of the state: exactly the arrays that are not
    reachable from the operand stack and the frames. */
module LiveArrays {
  import opened Values
  import opened Machine
  import opened Objects
  import opened Collection
  import opened Tables
  import Heap

  lemma RefIs(at: Table, m: Mem, g: Cells, os: seq<Obj>, vs: seq<Val>, i: nat, undef: Obj)
    requires StoreStands(at, m, g, undef) && StandFor(os, vs, g.Keys, undef) && i < |vs| && vs[i].Ref?
    ensures |os| == |vs| && vs[i].a in at && at[vs[i].a] == os[i]
  {
    assert IsValue(os[i], undef) && ValOf(os[i]) == vs[i];
  }

  /** Arrays the state reaches have live objects. */
  lemma {:induction false} ReachedIsLive(at: Table, t: State, vstack: seq<Obj>, vars: seq<Obj>, g: Cells, undef: Obj,
                                         live: set<Obj>, n: nat)
    requires Represents(at, t, vstack, vars, g, undef)
    requires AllAmong(vstack, live) && AllAmong(vars, live) && ClosedObjs(g, live)
    ensures forall a :: a in Within(t, n) ==> a in at && at[a] in live
  {
    hide StoreStands, StandFor, LoopsStand;
    if n == 0 {
      forall i | 0 <= i < |t.stack| && t.stack[i].Ref? ensures t.stack[i].a in at && at[t.stack[i].a] in live {
        RefIs(at, t.mem, g, vstack, t.stack, i, undef);
      }
      forall i, j | 0 <= i < |t.frames| && 0 <= j < |t.frames[i].slots| && t.frames[i].slots[j].Ref?
        ensures t.frames[i].slots[j].a in at && at[t.frames[i].slots[j].a] in live
      {
        assert FrameStands(vars[i], i, t.frames[i], g, undef);
        RefIs(at, t.mem, g, g[vars[i]][2..], t.frames[i].slots, j, undef);
        assert AllAmong(g[vars[i]], live);
      }
    } else {
      ReachedIsLive(at, t, vstack, vars, g, undef, live, n - 1);
      forall a, j | a in Within(t, n - 1) && a in t.mem.arrs && 0 <= j < |t.mem.arrs[a]| && t.mem.arrs[a][j].Ref?
        ensures t.mem.arrs[a][j].a in at && at[t.mem.arrs[a][j].a] in live
      {
        ArrayAt(at, t.mem, g, a, undef);
        RefIs(at, t.mem, g, g[at[a]], t.mem.arrs[a], j, undef);
        assert AllAmong(g[at[a]], live);
      }
    }
  }

  lemma ArrayAt(at: Table, m: Mem, g: Cells, a: nat, undef: Obj)
    requires StoreStands(at, m, g, undef) && a in at
    ensures a in m.arrs && ArrayStands(at[a], a, m.arrs[a], g, undef)
  {
  }

  ghost predicate Reached(t: State, a: nat) {
    exists n: nat :: a in Within(t, n)
  }

  /** What marking can come to from the roots of a machine. */
  ghost predicate Allowed(o: Obj, t: State, vars: seq<Obj>, loops: set<Obj>, tables: set<Obj>) {
    || o.kind.UndefKind? || o.kind.NumKind? || o.kind.StrKind?
    || o in vars || o in loops || o in tables
    || (o.kind.ArrayKind? && o.role.Numbered? && Reached(t, o.role.a))
  }

  ghost predicate AllAllowed(os: seq<Obj>, t: State, vars: seq<Obj>, loops: set<Obj>, tables: set<Obj>) {
    forall i :: 0 <= i < |os| ==> Allowed(os[i], t, vars, loops, tables)
  }

  ghost function LoopStacks(vars: seq<Obj>, g: Cells): set<Obj> {
    set i | 0 <= i < |vars| && vars[i] in g && |g[vars[i]]| >= 2 :: g[vars[i]][1]
  }

  /** Values whose references are all reached. */
  lemma ValuesAllowed(os: seq<Obj>, vs: seq<Val>, nodes: set<Obj>, undef: Obj, t: State, vars: seq<Obj>,
                      loops: set<Obj>, tables: set<Obj>)
    requires StandFor(os, vs, nodes, undef) && forall i :: 0 <= i < |vs| && vs[i].Ref? ==> Reached(t, vs[i].a)
    ensures AllAllowed(os, t, vars, loops, tables)
  {
    forall i | 0 <= i < |os| ensures Allowed(os[i], t, vars, loops, tables) {
      assert vs[i] == ValOf(os[i]) && IsValue(os[i], undef);
    }
  }

  lemma StackAllowed(at: Table, t: State, vstack: seq<Obj>, vars: seq<Obj>, g: Cells, undef: Obj,
                     loops: set<Obj>, tables: set<Obj>)
    requires Represents(at, t, vstack, vars, g, undef)
    ensures AllAllowed(vstack, t, vars, loops, tables)
  {
    hide StoreStands, FramesStand, AllAllowed;
    forall i | 0 <= i < |t.stack| && t.stack[i].Ref? ensures Reached(t, t.stack[i].a) {
      assert t.stack[i].a in Within(t, 0);
    }
    ValuesAllowed(vstack, t.stack, g.Keys, undef, t, vars, loops, tables);
  }

  lemma FrameAllowed(at: Table, t: State, vstack: seq<Obj>, vars: seq<Obj>, g: Cells, undef: Obj,
                     tables: set<Obj>, k: nat)
    requires Represents(at, t, vstack, vars, g, undef) && k < |vars|
    ensures vars[k] in g && AllAllowed(g[vars[k]], t, vars, LoopStacks(vars, g), tables)
    ensures |g[vars[k]]| >= 2 && g[vars[k]][1] in g && g[vars[k]][1].kind.ArrayKind?
    ensures AllAllowed(g[g[vars[k]][1]], t, vars, LoopStacks(vars, g), tables)
  {
    hide StoreStands, StandFor;
    var f, cells, loops := t.frames[k], g[vars[k]], LoopStacks(vars, g);
    assert FrameStands(vars[k], k, f, g, undef);
    forall j | 0 <= j < |f.slots| && f.slots[j].Ref? ensures Reached(t, f.slots[j].a) {
      assert f.slots[j].a in Within(t, 0);
    }
    ValuesAllowed(cells[2..], f.slots, g.Keys, undef, t, vars, loops, tables);
    forall i | 0 <= i < |cells| ensures Allowed(cells[i], t, vars, loops, tables) {
      if i >= 2 { assert cells[i] == cells[2..][i - 2]; }
    }
  }

  lemma ArrayAllowed(at: Table, t: State, vstack: seq<Obj>, vars: seq<Obj>, g: Cells, undef: Obj,
                     loops: set<Obj>, tables: set<Obj>, o: Obj)
    requires Represents(at, t, vstack, vars, g, undef)
    requires o in g && o.role.Numbered? && Reached(t, o.role.a)
    ensures AllAllowed(g[o], t, vars, loops, tables)
  {
    hide FramesStand, AllAllowed, StandFor, StoreStands;
    ArrayIs(at, t.mem, g, o, undef);
    var vs := t.mem.arrs[o.role.a];
    var n: nat :| o.role.a in Within(t, n);
    forall j | 0 <= j < |vs| && vs[j].Ref? ensures Reached(t, vs[j].a) {
      assert vs[j].a in Within(t, n + 1);
    }
    ValuesAllowed(g[o], vs, g.Keys, undef, t, vars, loops, tables);
  }

  /** The values in the tables. */
  lemma TablesAllowed(p: Image, globals: Obj, constants: Obj, functions: Obj, ops: Obj, nodes: set<Obj>,
                      t: State, vars: seq<Obj>, loops: set<Obj>, tables: set<Obj>)
    requires TablesStand(p, globals, constants, functions, ops, nodes)
    ensures AllAllowed(globals.Kids(), t, vars, loops, tables) && AllAllowed(constants.Kids(), t, vars, loops, tables)
    ensures AllAllowed(functions.Kids(), t, vars, loops, tables) && AllAllowed(ops.Kids(), t, vars, loops, tables)
  {
  }

  lemma AllowedAt(os: seq<Obj>, i: nat, t: State, vars: seq<Obj>, loops: set<Obj>, tables: set<Obj>)
    requires AllAllowed(os, t, vars, loops, tables) && i < |os|
    ensures Allowed(os[i], t, vars, loops, tables)
  {
  }

  /** What is allowed leads only to what is allowed. */
  lemma KidsAllowed(p: Image, at: Table, t: State, vstack: seq<Obj>, vars: seq<Obj>, nodes: set<Obj>, undef: Obj,
                    globals: Obj, constants: Obj, functions: Obj, ops: Obj, o: Obj)
    requires TablesStand(p, globals, constants, functions, ops, nodes)
    requires Represents(at, t, vstack, vars, CellsOf(nodes), undef) && o in nodes
    requires Allowed(o, t, vars, LoopStacks(vars, CellsOf(nodes)), {globals, constants, functions, ops})
    ensures AllAllowed(o.Kids(), t, vars, LoopStacks(vars, CellsOf(nodes)), {globals, constants, functions, ops})
  {
    hide Represents, TablesStand, AllAllowed, Reached;
    var g, tables := CellsOf(nodes), {globals, constants, functions, ops};
    var loops := LoopStacks(vars, g);
    TablesAllowed(p, globals, constants, functions, ops, nodes, t, vars, loops, tables);
    if o in tables {
    } else if o in vars {
      var k :| 0 <= k < |vars| && vars[k] == o;
      VarsKind(at, t, vstack, vars, g, undef, k);
      FrameAllowed(at, t, vstack, vars, g, undef, tables, k);
    } else if o in loops {
      var k :| 0 <= k < |vars| && vars[k] in g && |g[vars[k]]| >= 2 && g[vars[k]][1] == o;
      FrameAllowed(at, t, vstack, vars, g, undef, tables, k);
    } else if o.kind.ArrayKind? {
      ArrayAllowed(at, t, vstack, vars, g, undef, loops, tables, o);
    } else {
      NoKids(o, t, vars, loops, tables);
    }
  }

  lemma NoKids(o: Obj, t: State, vars: seq<Obj>, loops: set<Obj>, tables: set<Obj>)
    requires !o.kind.ArrayKind? && !o.kind.MapKind?
    ensures AllAllowed(o.Kids(), t, vars, loops, tables)
  {
  }

  lemma VarsKind(at: Table, t: State, vstack: seq<Obj>, vars: seq<Obj>, g: Cells, undef: Obj, k: nat)
    requires Represents(at, t, vstack, vars, g, undef) && k < |vars|
    ensures vars[k] in g && vars[k].kind.ArrayKind? && vars[k].role == Heap.FrameOf(k)
    ensures |g[vars[k]]| >= 2 && g[vars[k]][1].role == Heap.LoopsOf(k)
  {
    hide StoreStands, StandFor;
    assert FrameStands(vars[k], k, t.frames[k], g, undef);
  }

  lemma RootsAllowed(at: Table, t: State, vstack: seq<Obj>, vars: seq<Obj>, g: Cells, undef: Obj,
                     globals: Obj, constants: Obj, functions: Obj, ops: Obj, loops: set<Obj>)
    requires Represents(at, t, vstack, vars, g, undef)
    ensures forall o :: o in Heap.RootSet(vstack, vars, globals, constants, functions, ops) ==>
              Allowed(o, t, vars, loops, {globals, constants, functions, ops})
  {
    hide Represents, Reached;
    StackAllowed(at, t, vstack, vars, g, undef, loops, {globals, constants, functions, ops});
  }

  /** An allowed array of the program is reached: it is no frame, no loop stack and no table. */
  lemma NumberedReached(p: Image, at: Table, t: State, vstack: seq<Obj>, vars: seq<Obj>, nodes: set<Obj>, undef: Obj,
                        globals: Obj, constants: Obj, functions: Obj, ops: Obj, a: nat)
    requires TablesStand(p, globals, constants, functions, ops, nodes)
    requires Represents(at, t, vstack, vars, CellsOf(nodes), undef) && a in at
    requires Allowed(at[a], t, vars, LoopStacks(vars, CellsOf(nodes)), {globals, constants, functions, ops})
    ensures Reached(t, a)
  {
    hide Reached, FrameStands, StringsStand, CodeStands, FunctionsStand;
    ArrayAt(at, t.mem, CellsOf(nodes), a, undef);
    hide Represents;
    forall k: nat | k < |vars|
      ensures var g := CellsOf(nodes);
              vars[k] in g && vars[k].role.FrameOf? && |g[vars[k]]| >= 2 && g[vars[k]][1].role.LoopsOf?
    {
      VarsKind(at, t, vstack, vars, CellsOf(nodes), undef, k);
    }
  }

  /** Every live array object is one the state reaches. */
  lemma LiveIsReached(heap: Heap.Values, p: Image, at: Table, t: State, vstack: seq<Obj>, vars: seq<Obj>,
                      globals: Obj, constants: Obj, functions: Obj, ops: Obj, roots: set<Obj>)
    requires heap.Valid() && TablesStand(p, globals, constants, functions, ops, heap.Nodes())
    requires Represents(at, t, vstack, vars, CellsOf(heap.Nodes()), heap.undef)
    requires roots == Heap.RootSet(vstack, vars, globals, constants, functions, ops) && heap.RootsOk(roots)
    ensures forall a :: a in at && at[a] in heap.Live(roots) ==> Reached(t, a)
  {
    hide Represents, TablesStand, heap.Valid, Allowed, AllAllowed, Reached, Heap.RootSet, LoopStacks, Heap.ReachableSet;
    var nodes, tables := heap.Nodes(), {globals, constants, functions, ops};
    var loops := LoopStacks(vars, CellsOf(nodes));
    var s := set o | o in nodes && Allowed(o, t, vars, loops, tables);
    forall o, i | o in s && 0 <= i < |o.Kids()| ensures o.Kids()[i] in s {
      heap.KidIn(o, i);
      KidsAllowed(p, at, t, vstack, vars, nodes, heap.undef, globals, constants, functions, ops, o);
      AllowedAt(o.Kids(), i, t, vars, loops, tables);
    }
    RootsAllowed(at, t, vstack, vars, CellsOf(nodes), heap.undef, globals, constants, functions, ops, loops);
    Heap.ReachableLeast(Heap.Snapshot(nodes), roots, s);
    forall a | a in at && at[a] in heap.Live(roots) ensures Reached(t, a) {
      NumberedReached(p, at, t, vstack, vars, nodes, heap.undef, globals, constants, functions, ops, a);
    }
  }

  /** A collection from the machine's roots leaves exactly the arrays the state reaches. */
  lemma LeftIsLiveOnly(heap: Heap.Values, p: Image, at: Table, t: State, vstack: seq<Obj>, vars: seq<Obj>,
                       globals: Obj, constants: Obj, functions: Obj, ops: Obj, roots: set<Obj>)
    requires heap.Valid() && TablesStand(p, globals, constants, functions, ops, heap.Nodes())
    requires Represents(at, t, vstack, vars, CellsOf(heap.Nodes()), heap.undef)
    requires roots == Heap.RootSet(vstack, vars, globals, constants, functions, ops) && heap.RootsOk(roots)
    ensures Restrict(t, Among(at, heap.Live(roots) + {heap.undef})) == LiveOnly(t)
  {
    hide Represents, TablesStand, heap.Valid, Heap.RootSet, Heap.ReachableSet, heap.Live, Within, heap.RootsOk;
    var live := heap.Live(roots) + {heap.undef};
    ClosedSets(heap, roots);
    RootsAre(vstack, vars, globals, constants, functions, ops, live);
    LiveIsReached(heap, p, at, t, vstack, vars, globals, constants, functions, ops, roots);
    heap.UndefIs();
    KeysStand(at, t, vstack, vars, heap.Nodes(), heap.undef);
    forall a ensures a in at && at[a] in live <==> a in at && Reached(t, a) {
      if n: nat :| a in Within(t, n) {
        ReachedIsLive(at, t, vstack, vars, CellsOf(heap.Nodes()), heap.undef, live, n);
      }
    }
  }

  lemma KeysStand(at: Table, t: State, vstack: seq<Obj>, vars: seq<Obj>, nodes: set<Obj>, undef: Obj)
    requires Represents(at, t, vstack, vars, CellsOf(nodes), undef) && undef.kind.UndefKind?
    ensures at.Keys == t.mem.arrs.Keys && forall a :: a in at ==> at[a] != undef
  {
    hide FramesStand, StandFor;
    forall a | a in at ensures at[a] != undef {
      ArrayAt(at, t.mem, CellsOf(nodes), a, undef);
    }
  }
}
