/** Runs with collections stay in step with runs without; keeping exactly what is reachable is a collection;
    and so is what the collector of `Heap` does to the objects behind a machine state. */
module Collection {
  import opened Values
  import opened Machine
  import opened Transparency
  import opened Objects
  import Heap

  // ----- collections that keep exactly what is reachable -----

  /** Addresses at most `n` array cells away from the operand stack and the frames. */
  ghost function Within(t: State, n: nat): set<nat> {
    if n == 0 then
      (set i | 0 <= i < |t.stack| && t.stack[i].Ref? :: t.stack[i].a) +
      set i, j | 0 <= i < |t.frames| && 0 <= j < |t.frames[i].slots| && t.frames[i].slots[j].Ref?
        :: t.frames[i].slots[j].a
    else
      var k := Within(t, n - 1);
      k + set a, j | a in k && a in t.mem.arrs && 0 <= j < |t.mem.arrs[a]| && t.mem.arrs[a][j].Ref?
        :: t.mem.arrs[a][j].a
  }

  ghost function LiveOnly(t: State): State {
    t.(mem := t.mem.(arrs := map a | a in t.mem.arrs && (exists n: nat :: a in Within(t, n)) :: t.mem.arrs[a]))
  }

  /** Marking and sweeping exactly is a collection. */
  lemma {:induction false} ExactCollection(t: State)
    requires ClosedMem(t.mem) && RootsIn(t, t.mem.arrs.Keys)
    ensures Collects(t, LiveOnly(t))
  {
    var u := LiveOnly(t);
    forall a | a in u.mem.arrs ensures AllIn(u.mem.arrs[a], u.mem.arrs.Keys) {
      var n: nat :| a in Within(t, n);
      forall j | 0 <= j < |t.mem.arrs[a]| ensures In(t.mem.arrs[a][j], u.mem.arrs.Keys) {
        if t.mem.arrs[a][j].Ref? { assert t.mem.arrs[a][j].a in Within(t, n + 1); }
      }
    }
    forall i | 0 <= i < |t.stack| ensures In(t.stack[i], u.mem.arrs.Keys) {
      if t.stack[i].Ref? { assert t.stack[i].a in Within(t, 0); }
    }
    forall i | 0 <= i < |t.frames| ensures AllIn(t.frames[i].slots, u.mem.arrs.Keys) {
      forall j | 0 <= j < |t.frames[i].slots| ensures In(t.frames[i].slots[j], u.mem.arrs.Keys) {
        if t.frames[i].slots[j].Ref? { assert t.frames[i].slots[j].a in Within(t, 0); }
      }
    }
  }

  // ----- runs -----

  /** A run in which a collection may follow every step. */
  ghost predicate CollectedRun(p: Image, tr: seq<State>) {
    && tr != []
    && forall i :: 0 <= i < |tr| - 1 ==> CollectedStep(p, tr[i], tr[i + 1])
  }

  ghost predicate CollectedStep(p: Image, t: State, u: State) {
    Step(p, t).Next? && Collects(Step(p, t).s, u)
  }

  /** Collector transparency: after any number of steps the run with collections is in the state of the
      run without, up to dropped arrays nothing refers to; and the two then step, end, halt or get stuck
      together. */
  lemma {:induction false} CollectorIsTransparent(p: Image, s: State, tr: seq<State>)
    requires ForeignOk(p) && CollectedRun(p, tr) && Related(s, tr[0])
    ensures StepN(p, s, |tr| - 1).Next? && Related(StepN(p, s, |tr| - 1).s, tr[|tr| - 1])
    ensures SameStep(Step(p, StepN(p, s, |tr| - 1).s), Step(p, tr[|tr| - 1]))
    decreases |tr|
  {
    hide Step, Related, ForeignOk, Collects;
    if |tr| == 1 {
      StepSame(p, s, tr[0]);
    } else {
      assert CollectedStep(p, tr[0], tr[1]);
      StepSame(p, s, tr[0]);
      var s1 := Step(p, s).s;
      CollectionKeepsRelated(s1, Step(p, tr[0]).s, tr[1]);
      forall i | 0 <= i < |tr[1..]| - 1 ensures CollectedStep(p, tr[1..][i], tr[1..][i + 1]) {
        assert CollectedStep(p, tr[i + 1], tr[i + 2]);
      }
      CollectorIsTransparent(p, s1, tr[1..]);
    }
  }

  // ----- the collector on the objects behind a state -----

  /** The array objects in a set. */
  ghost function Among(at: Table, live: set<Obj>): Table {
    map a | a in at && at[a] in live :: at[a]
  }

  /** The state without the arrays that are gone. */
  ghost function Restrict(t: State, at: Table): State {
    t.(mem := t.mem.(arrs := map a | a in t.mem.arrs && a in at :: t.mem.arrs[a]))
  }

  ghost predicate AllAmong(os: seq<Obj>, live: set<Obj>) {
    forall i :: 0 <= i < |os| ==> os[i] in live
  }

  /** Cells of arrays in the set are in the set. */
  ghost predicate ClosedObjs(g: Cells, live: set<Obj>) {
    live <= g.Keys && forall o :: o in live && o.kind.ArrayKind? ==> AllAmong(g[o], live)
  }

  ghost function CellsAmong(g: Cells, live: set<Obj>): Cells {
    map o | o in g && o in live :: g[o]
  }

  lemma StillStand(os: seq<Obj>, vs: seq<Val>, nodes: set<Obj>, live: set<Obj>, undef: Obj)
    requires StandFor(os, vs, nodes, undef) && AllAmong(os, live)
    ensures StandFor(os, vs, live, undef)
  {
  }

  lemma FrameKept(o: Obj, i: nat, f: Frame, g: Cells, live: set<Obj>, undef: Obj)
    requires FrameStands(o, i, f, g, undef) && o in live && ClosedObjs(g, live)
    ensures FrameStands(o, i, f, CellsAmong(g, live), undef)
  {
    assert CellsAmong(g, live).Keys == live;
    assert AllAmong(g[o], live) && AllAmong(g[g[o][1]], live);
    StillStand(g[o][2..], f.slots, g.Keys, live, undef);
  }

  lemma ArrayKept(o: Obj, a: nat, vs: seq<Val>, g: Cells, live: set<Obj>, undef: Obj)
    requires ArrayStands(o, a, vs, g, undef) && o in live && ClosedObjs(g, live)
    ensures ArrayStands(o, a, vs, CellsAmong(g, live), undef)
  {
    assert CellsAmong(g, live).Keys == live;
  }

  lemma StoreKept(at: Table, m: Mem, g: Cells, live: set<Obj>, undef: Obj, kept: Table, u: Mem)
    requires StoreStands(at, m, g, undef) && ClosedObjs(g, live)
    requires kept == Among(at, live) && u == m.(arrs := map a | a in m.arrs && a in kept :: m.arrs[a])
    ensures StoreStands(kept, u, CellsAmong(g, live), undef)
  {
    hide ArrayStands;
    forall a | a in kept ensures a < u.next && ArrayStands(kept[a], a, u.arrs[a], CellsAmong(g, live), undef) {
      ArrayKept(at[a], a, m.arrs[a], g, live, undef);
    }
    assert u.arrs.Keys == kept.Keys;
  }

  /** A set that contains the operand stack's and the frames' objects and is closed under array cells keeps
      what the state needs: leaving the rest out is a collection, and what is left represents what is left
      of the state. */
  lemma KeepingCollects(at: Table, t: State, vstack: seq<Obj>, vars: seq<Obj>, g: Cells, live: set<Obj>, undef: Obj)
    requires Represents(at, t, vstack, vars, g, undef)
    requires AllAmong(vstack, live) && AllAmong(vars, live) && ClosedObjs(g, live)
    ensures var kept := Among(at, live);
            && Collects(t, Restrict(t, kept))
            && Represents(kept, Restrict(t, kept), vstack, vars, CellsAmong(g, live), undef)
  {
    hide FrameStands, StoreStands, ArrayStands;
    var kept := Among(at, live);
    var u := Restrict(t, kept);
    StoreKept(at, t.mem, g, live, undef, kept, u.mem);
    StillStand(vstack, t.stack, g.Keys, live, undef);
    assert CellsAmong(g, live).Keys == live;
    forall i | 0 <= i < |vars| ensures FrameStands(vars[i], i, u.frames[i], CellsAmong(g, live), undef) {
      FrameKept(vars[i], i, t.frames[i], g, live, undef);
    }
    RepresentedIsClosed(kept, u, vstack, vars, CellsAmong(g, live), undef);
  }

  /** Everything listed is such a set, and so is everything reachable. */
  lemma ClosedSets(heap: Heap.Values, roots: set<Obj>)
    requires heap.Valid() && heap.RootsOk(roots)
    ensures ClosedObjs(CellsOf(heap.Nodes()), heap.Nodes())
    ensures var live := heap.Live(roots) + {heap.undef};
            roots <= live && live <= heap.Nodes() && ClosedObjs(CellsOf(heap.Nodes()), live)
  {
    hide Heap.ReachableSet;
    heap.ReachInside(roots);
    assert heap.undef.Kids() == [];
    assert forall o :: o in heap.Nodes() && o.kind.ArrayKind? ==> o.Kids() == o.cells;
  }

  lemma RootsAre(vstack: seq<Obj>, vars: seq<Obj>, globals: Obj, constants: Obj, functions: Obj, ops: Obj,
                 live: set<Obj>)
    requires Heap.RootSet(vstack, vars, globals, constants, functions, ops) <= live
    ensures AllAmong(vstack, live) && AllAmong(vars, live)
  {
    var roots := Heap.RootSet(vstack, vars, globals, constants, functions, ops);
    assert forall i :: 0 <= i < |vstack| ==> vstack[i] in roots;
    assert forall i :: 0 <= i < |vars| ==> vars[i] in roots;
  }

  /** `vals_gc` on the objects of a state is a collection of that state: it drops exactly the arrays whose
      objects were unlinked, and the objects left represent the state left. */
  method GcCollects(heap: Heap.Values, vstack: seq<Obj>, vars: seq<Obj>, globals: Obj, constants: Obj,
                    functions: Obj, ops: Obj,
                    ghost roots: set<Obj>, ghost nodes: set<Obj>, ghost t: State, ghost at: Table)
    returns (ghost u: State, ghost kept: Table)
    requires heap.Valid() && nodes == heap.Nodes() && heap.RootsOk(roots)
    requires roots == Heap.RootSet(vstack, vars, globals, constants, functions, ops)
    requires Represents(at, t, vstack, vars, CellsOf(nodes), heap.undef)
    modifies heap`head, heap`list, heap`lastCount, nodes`next, nodes`marked
    ensures heap.Valid() && heap.RootsOk(roots) && heap.Nodes() <= nodes
    ensures |heap.list| < heap.lastCount + Heap.GC_THRESHOLD
    ensures heap.Nodes() == if |old(heap.list)| - old(heap.lastCount) < Heap.GC_THRESHOLD then nodes
                            else old(heap.Live(roots)) + {heap.undef}
    ensures kept == Among(at, heap.Nodes()) && u == Restrict(t, kept)
    ensures Collects(t, u) && Represents(kept, u, vstack, vars, CellsOf(heap.Nodes()), heap.undef)
  {
    hide heap.Valid, Heap.RootSet, Heap.ReachableSet, Heap.Snapshot, Heap.Keep;
    hide Collects, Represents, Restrict, Among, AllAmong, ClosedObjs, CellsOf, CellsAmong;
    ghost var reach, l := heap.Live(roots), heap.list;
    ghost var live := reach + {heap.undef};
    ClosedSets(heap, roots);
    RootsAre(vstack, vars, globals, constants, functions, ops, live);
    RootsAre(vstack, vars, globals, constants, functions, ops, nodes);
    ghost var g := CellsOf(nodes);
    KeepingCollects(at, t, vstack, vars, g, live, heap.undef);
    KeepingCollects(at, t, vstack, vars, g, nodes, heap.undef);
    heap.Gc(vstack, vars, globals, constants, functions, ops, roots, nodes);
    assert reach <= nodes;
    LeftIs(heap, l, reach, nodes);
    CellsLeft(heap.Nodes(), nodes);
    kept := Among(at, heap.Nodes());
    u := Restrict(t, kept);
  }

  lemma CellsLeft(left: set<Obj>, nodes: set<Obj>)
    requires left <= nodes
    ensures CellsOf(left) == CellsAmong(CellsOf(nodes), left)
  {
  }

  /** What is listed after a collection. */
  lemma LeftIs(heap: Heap.Values, l: seq<Obj>, reach: set<Obj>, nodes: set<Obj>)
    requires nodes == (set o | o in l) + {heap.undef} && reach <= nodes
    ensures heap.list == l ==> heap.Nodes() == nodes
    ensures heap.list == Heap.Keep(l, reach) ==> heap.Nodes() == reach + {heap.undef}
  {
    hide Heap.Keep;
  }
}
