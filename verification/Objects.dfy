/** The heap objects behind a machine state: which object is which value, array, frame and loop stack. */
module Objects {
  import opened Arrays
  import opened Values
  import opened Machine
  import opened Transparency
  import Heap

  type Obj = Heap.Obj

  /** What the cells of every object are. */
  type Cells = map<Obj, seq<Obj>>

  ghost function CellsOf(nodes: set<Obj>): (g: Cells)
    reads nodes`cells
    ensures g.Keys == nodes
  {
    map o | o in nodes :: o.cells
  }

  /** The array object behind each address of the store. */
  type Table = map<nat, Obj>

  function ValOf(o: Obj): Val {
    match o.kind
    case NumKind(n) => Num(n)
    case StrKind(s) => Str(s)
    case ArrayKind => if o.role.Numbered? then Ref(o.role.a) else Undef
    case _ => Undef
  }

  function ValsOf(os: seq<Obj>): (vs: seq<Val>)
    ensures |vs| == |os|
    ensures forall i :: 0 <= i < |os| ==> vs[i] == ValOf(os[i])
  {
    seq(|os|, i requires 0 <= i < |os| => ValOf(os[i]))
  }

  /** What a program can hold: undef, numbers, strings and the arrays it made; never a frame, a loop stack
      or a map. */
  predicate IsValue(o: Obj, undef: Obj) {
    match o.kind
    case UndefKind => o == undef
    case ArrayKind => o.role.Numbered?
    case MapKind => false
    case _ => true
  }

  ghost predicate AllValues(os: seq<Obj>, nodes: set<Obj>, undef: Obj) {
    forall i :: 0 <= i < |os| ==> os[i] in nodes && IsValue(os[i], undef)
  }

  /** The objects are the values, one by one. */
  ghost predicate StandFor(os: seq<Obj>, vs: seq<Val>, nodes: set<Obj>, undef: Obj) {
    AllValues(os, nodes, undef) && vs == ValsOf(os)
  }

  ghost predicate NumbersStand(os: seq<Obj>, ns: seq<int>, nodes: set<Obj>) {
    |os| == |ns| && forall i :: 0 <= i < |os| ==> os[i] in nodes && os[i].kind == Heap.NumKind(ns[i])
  }

  ghost predicate LoopsStand(o: Obj, i: nat, loops: seq<int>, g: Cells) {
    o in g && o.kind.ArrayKind? && o.role == Heap.LoopsOf(i) && NumbersStand(g[o], loops, g.Keys)
  }

  /** The `i`-th frame is an array of the return address, the loop stack and the variables. */
  ghost predicate FrameStands(o: Obj, i: nat, f: Frame, g: Cells, undef: Obj) {
    && o in g && o.kind.ArrayKind? && o.role == Heap.FrameOf(i) && |g[o]| >= 2
    && g[o][0] in g && g[o][0].kind == Heap.NumKind(f.ret)
    && LoopsStand(g[o][1], i, f.loops, g)
    && StandFor(g[o][2..], f.slots, g.Keys, undef)
  }

  ghost predicate FramesStand(vars: seq<Obj>, frames: seq<Frame>, g: Cells, undef: Obj) {
    |vars| == |frames| && forall i :: 0 <= i < |vars| ==> FrameStands(vars[i], i, frames[i], g, undef)
  }

  ghost predicate ArrayStands(o: Obj, a: nat, vs: seq<Val>, g: Cells, undef: Obj) {
    o in g && o.kind.ArrayKind? && o.role == Heap.Numbered(a) && StandFor(g[o], vs, g.Keys, undef)
  }

  /** Every array of the store has its object, and every array a program made is in the store. */
  ghost predicate StoreStands(at: Table, m: Mem, g: Cells, undef: Obj) {
    && at.Keys == m.arrs.Keys
    && (forall a :: a in at ==> a < m.next && ArrayStands(at[a], a, m.arrs[a], g, undef))
    && (forall o :: o in g && o.role.Numbered? ==> o.role.a in at && at[o.role.a] == o)
  }

  /** The objects are the state. */
  ghost predicate Represents(at: Table, t: State, vstack: seq<Obj>, vars: seq<Obj>, g: Cells, undef: Obj) {
    && StoreStands(at, t.mem, g, undef)
    && StandFor(vstack, t.stack, g.Keys, undef)
    && FramesStand(vars, t.frames, g, undef)
  }

  /** Objects are at most one state: they determine the operand stack, the frames and the store. */
  lemma RepresentsOne(at: Table, t: State, u: State, vstack: seq<Obj>, vars: seq<Obj>, g: Cells, undef: Obj)
    requires Represents(at, t, vstack, vars, g, undef) && Represents(at, u, vstack, vars, g, undef)
    ensures t.stack == u.stack && t.frames == u.frames && t.mem.arrs == u.mem.arrs
  {
    forall i | 0 <= i < |vars| ensures t.frames[i] == u.frames[i] {
      assert FrameStands(vars[i], i, t.frames[i], g, undef);
      assert FrameStands(vars[i], i, u.frames[i], g, undef);
    }
    forall a | a in at ensures t.mem.arrs[a] == u.mem.arrs[a] {
    }
  }

  /** A represented store refers to nothing that is not there, and neither do the roots. */
  lemma RepresentedIsClosed(at: Table, t: State, vstack: seq<Obj>, vars: seq<Obj>, g: Cells, undef: Obj)
    requires Represents(at, t, vstack, vars, g, undef)
    ensures ClosedMem(t.mem) && RootsIn(t, t.mem.arrs.Keys)
  {
    hide FrameStands, ArrayStands;
    var keys := t.mem.arrs.Keys;
    forall a | a in t.mem.arrs ensures AllIn(t.mem.arrs[a], keys) && a < t.mem.next {
      assert ArrayStands(at[a], a, t.mem.arrs[a], g, undef);
      ArrayCells(at[a], a, t.mem.arrs[a], g, undef);
      StandIn(at, g[at[a]], t.mem.arrs[a], t.mem, g, undef);
    }
    StandIn(at, vstack, t.stack, t.mem, g, undef);
    forall i | 0 <= i < |t.frames| ensures AllIn(t.frames[i].slots, keys) {
      FrameCells(vars[i], i, t.frames[i], g, undef);
      StandIn(at, g[vars[i]][2..], t.frames[i].slots, t.mem, g, undef);
    }
  }

  lemma ArrayCells(o: Obj, a: nat, vs: seq<Val>, g: Cells, undef: Obj)
    requires ArrayStands(o, a, vs, g, undef)
    ensures o in g && StandFor(g[o], vs, g.Keys, undef)
  {
  }

  lemma FrameCells(o: Obj, i: nat, f: Frame, g: Cells, undef: Obj)
    requires FrameStands(o, i, f, g, undef)
    ensures o in g && |g[o]| >= 2 && StandFor(g[o][2..], f.slots, g.Keys, undef)
  {
  }

  lemma StandIn(at: Table, os: seq<Obj>, vs: seq<Val>, m: Mem, g: Cells, undef: Obj)
    requires StoreStands(at, m, g, undef) && StandFor(os, vs, g.Keys, undef)
    ensures AllIn(vs, m.arrs.Keys)
  {
    forall i | 0 <= i < |vs| ensures In(vs[i], m.arrs.Keys) {
      assert vs[i] == ValOf(os[i]) && IsValue(os[i], undef);
    }
  }

  lemma PopStands(os: seq<Obj>, vs: seq<Val>, nodes: set<Obj>, undef: Obj)
    requires os != [] && StandFor(os, vs, nodes, undef)
    ensures |vs| == |os| && StandFor(os[..|os| - 1], Pop(vs, 1), nodes, undef)
    ensures var o := os[|os| - 1]; o in nodes && IsValue(o, undef) && ValOf(o) == Top(vs, 0)
  {
  }

  lemma PushStands(os: seq<Obj>, vs: seq<Val>, o: Obj, nodes: set<Obj>, undef: Obj)
    requires StandFor(os, vs, nodes, undef) && o in nodes && IsValue(o, undef)
    ensures |vs| == |os| && StandFor(os + [o], vs + [ValOf(o)], nodes, undef)
  {
  }

  lemma StandMore(os: seq<Obj>, vs: seq<Val>, nodes: set<Obj>, more: set<Obj>, undef: Obj)
    requires StandFor(os, vs, nodes, undef) && nodes <= more
    ensures StandFor(os, vs, more, undef)
  {
  }

  /** The same objects with the same cells are in `h`. */
  ghost predicate Extends(g: Cells, h: Cells) {
    forall o :: o in g ==> o in h && h[o] == g[o]
  }

  /** And no more arrays of a program. */
  ghost predicate ExtendsPlainly(g: Cells, h: Cells) {
    Extends(g, h) && forall o :: o in h && o !in g ==> !o.role.Numbered?
  }

  lemma FrameExtends(o: Obj, i: nat, f: Frame, g: Cells, h: Cells, undef: Obj)
    requires FrameStands(o, i, f, g, undef) && Extends(g, h)
    ensures FrameStands(o, i, f, h, undef)
  {
  }

  lemma FramesExtend(vars: seq<Obj>, frames: seq<Frame>, g: Cells, h: Cells, undef: Obj)
    requires FramesStand(vars, frames, g, undef) && Extends(g, h)
    ensures FramesStand(vars, frames, h, undef)
  {
    hide FrameStands, Extends;
    forall i | 0 <= i < |vars| ensures FrameStands(vars[i], i, frames[i], h, undef) {
      FrameExtends(vars[i], i, frames[i], g, h, undef);
    }
  }

  lemma StoreMore(at: Table, m: Mem, g: Cells, h: Cells, undef: Obj)
    requires StoreStands(at, m, g, undef) && ExtendsPlainly(g, h)
    ensures StoreStands(at, m, h, undef)
  {
    hide StandFor;
    forall a | a in at ensures ArrayStands(at[a], a, m.arrs[a], h, undef) {
      StandMore(g[at[a]], m.arrs[a], g.Keys, h.Keys, undef);
    }
  }

  /** New values that are no arrays of a program change nothing. */
  lemma RepresentsMore(at: Table, t: State, vstack: seq<Obj>, vars: seq<Obj>, g: Cells, h: Cells, undef: Obj)
    requires Represents(at, t, vstack, vars, g, undef) && ExtendsPlainly(g, h)
    ensures Represents(at, t, vstack, vars, h, undef)
  {
    hide StoreStands, FramesStand, StandFor;
    StoreMore(at, t.mem, g, h, undef);
    StandMore(vstack, t.stack, g.Keys, h.Keys, undef);
    FramesExtend(vars, t.frames, g, h, undef);
  }

  // ----- array operations on objects and on the values they are -----

  lemma UndefIs(o: Obj, undef: Obj)
    requires IsValue(o, undef) && undef.kind.UndefKind?
    ensures ValOf(o) == Undef <==> o == undef
  {
  }

  lemma {:induction false} TrimStands(os: seq<Obj>, nodes: set<Obj>, undef: Obj)
    requires AllValues(os, nodes, undef) && undef.kind.UndefKind?
    ensures ValsOf(Trim(undef, os)) == Trim(Undef, ValsOf(os)) && AllValues(Trim(undef, os), nodes, undef)
    decreases |os|
  {
    if os != [] {
      UndefIs(os[|os| - 1], undef);
      if os[|os| - 1] == undef {
        TrimStands(os[..|os| - 1], nodes, undef);
        assert ValsOf(os)[..|os| - 1] == ValsOf(os[..|os| - 1]);
      }
    }
  }

  lemma {:induction false} PadStands(os: seq<Obj>, n: nat, nodes: set<Obj>, undef: Obj)
    requires AllValues(os, nodes, undef) && undef.kind.UndefKind? && undef in nodes
    ensures ValsOf(Pad(undef, os, n)) == Pad(Undef, ValsOf(os), n) && AllValues(Pad(undef, os, n), nodes, undef)
    decreases n - |os|
  {
    if |os| < n {
      PadStands(os + [undef], n, nodes, undef);
      assert ValsOf(os + [undef]) == ValsOf(os) + [Undef];
    }
  }

  lemma ArrSetStands(os: seq<Obj>, i: nat, v: Obj, nodes: set<Obj>, undef: Obj)
    requires AllValues(os, nodes, undef) && v in nodes && IsValue(v, undef)
    requires undef.kind.UndefKind? && undef in nodes
    ensures StandFor(ArrSet(undef, os, i, v), ArrSet(Undef, ValsOf(os), i, ValOf(v)), nodes, undef)
  {
    UndefIs(v, undef);
    if v != undef {
      var p := Pad(undef, os, i + 1);
      PadStands(os, i + 1, nodes, undef);
      assert ValsOf(p[i := v]) == ValsOf(p)[i := ValOf(v)];
      TrimStands(p[i := v], nodes, undef);
    }
  }

  /** Cells in front that are defined stay where they are. */
  lemma {:induction false} TrimBehind<T>(undef: T, front: seq<T>, s: seq<T>)
    requires front != [] && front[|front| - 1] != undef
    ensures Trim(undef, front + s) == front + Trim(undef, s)
    decreases |s|
  {
    if s == [] {
      assert front + s == front;
    } else if s[|s| - 1] == undef {
      assert (front + s)[..|front + s| - 1] == front + s[..|s| - 1];
      TrimBehind(undef, front, s[..|s| - 1]);
    }
  }

  lemma {:induction false} PadBehind<T>(undef: T, front: seq<T>, s: seq<T>, n: nat)
    ensures Pad(undef, front + s, |front| + n) == front + Pad(undef, s, n)
    decreases n - |s|
  {
    if |s| < n {
      assert front + s + [undef] == front + (s + [undef]);
      PadBehind(undef, front, s + [undef], n);
    }
  }

  /** A store behind the two cells a frame starts with. */
  lemma ArrSetBehind<T>(undef: T, front: seq<T>, s: seq<T>, i: nat, v: T)
    requires front != [] && front[|front| - 1] != undef
    ensures ArrSet(undef, front + s, |front| + i, v) == front + ArrSet(undef, s, i, v)
  {
    if v != undef {
      var p := Pad(undef, s, i + 1);
      PadBehind(undef, front, s, i + 1);
      assert (front + p)[|front| + i := v] == front + p[i := v];
      TrimBehind(undef, front, p[i := v]);
    }
  }

  /** The cells of a frame after a store to one of its variables. */
  lemma SlotSet(cells: seq<Obj>, i: nat, v: Obj, slots: seq<Val>, nodes: set<Obj>, undef: Obj)
    requires |cells| >= 2 && cells[0] in nodes && cells[1] in nodes && cells[1].kind.ArrayKind?
    requires StandFor(cells[2..], slots, nodes, undef)
    requires v in nodes && IsValue(v, undef) && undef.kind.UndefKind? && undef in nodes
    ensures var cs := ArrSet(undef, cells, i + 2, v);
            && |cs| >= 2 && cs[0] == cells[0] && cs[1] == cells[1] && Heap.AllIn(cs, nodes)
            && StandFor(cs[2..], ArrSet(Undef, slots, i, ValOf(v)), nodes, undef)
  {
    hide ArrSet;
    assert cells == cells[..2] + cells[2..];
    ArrSetBehind(undef, cells[..2], cells[2..], i, v);
    var rest := ArrSet(undef, cells[2..], i, v);
    assert (cells[..2] + rest)[2..] == rest;
    ArrSetStands(cells[2..], i, v, nodes, undef);
  }

  // ----- what a write to one object leaves as it was -----

  lemma StoreKeeps(at: Table, m: Mem, g: Cells, w: Obj, cells: seq<Obj>, undef: Obj)
    requires StoreStands(at, m, g, undef) && w in g && !w.role.Numbered?
    ensures StoreStands(at, m, g[w := cells], undef)
  {
    hide StandFor;
    var h := g[w := cells];
    assert h.Keys == g.Keys;
    forall a | a in at ensures ArrayStands(at[a], a, m.arrs[a], h, undef) {
      assert ArrayStands(at[a], a, m.arrs[a], g, undef);
    }
  }

  lemma FrameKeeps(o: Obj, i: nat, f: Frame, g: Cells, w: Obj, cells: seq<Obj>, undef: Obj)
    requires FrameStands(o, i, f, g, undef) && w in g && w.role != Heap.FrameOf(i) && w.role != Heap.LoopsOf(i)
    ensures FrameStands(o, i, f, g[w := cells], undef)
  {
    hide StandFor, NumbersStand;
    assert g[w := cells].Keys == g.Keys;
  }

  lemma FramesKeep(vars: seq<Obj>, frames: seq<Frame>, g: Cells, w: Obj, cells: seq<Obj>, undef: Obj)
    requires FramesStand(vars, frames, g, undef) && w in g
    requires forall i :: 0 <= i < |vars| ==> w.role != Heap.FrameOf(i) && w.role != Heap.LoopsOf(i)
    ensures FramesStand(vars, frames, g[w := cells], undef)
  {
    hide FrameStands;
    forall i | 0 <= i < |vars| ensures FrameStands(vars[i], i, frames[i], g[w := cells], undef) {
      FrameKeeps(vars[i], i, frames[i], g, w, cells, undef);
    }
  }

  /** The newest frame has changed, the others have not. */
  lemma TopFrameStands(vars: seq<Obj>, frames: seq<Frame>, f: Frame, g: Cells, w: Obj, cells: seq<Obj>, undef: Obj)
    requires vars != [] && FramesStand(vars, frames, g, undef) && w in g
    requires w.role == Heap.FrameOf(|vars| - 1) || w.role == Heap.LoopsOf(|vars| - 1)
    requires FrameStands(vars[|vars| - 1], |vars| - 1, f, g[w := cells], undef)
    ensures FramesStand(vars, WithTop(frames, f), g[w := cells], undef)
  {
    hide FrameStands;
    forall i | 0 <= i < |vars| - 1 ensures FrameStands(vars[i], i, frames[i], g[w := cells], undef) {
      FrameKeeps(vars[i], i, frames[i], g, w, cells, undef);
    }
  }

  lemma TopFrame(vars: seq<Obj>, frames: seq<Frame>, g: Cells, undef: Obj)
    requires vars != [] && FramesStand(vars, frames, g, undef)
    ensures |frames| == |vars| && FrameStands(vars[|vars| - 1], |vars| - 1, frames[|frames| - 1], g, undef)
  {
  }

  lemma FramesPop(vars: seq<Obj>, frames: seq<Frame>, g: Cells, undef: Obj)
    requires vars != [] && FramesStand(vars, frames, g, undef)
    ensures FramesStand(vars[..|vars| - 1], frames[..|frames| - 1], g, undef)
  {
    hide FrameStands;
  }

  lemma FramesPush(vars: seq<Obj>, frames: seq<Frame>, a: Obj, f: Frame, g: Cells, undef: Obj)
    requires FramesStand(vars, frames, g, undef) && FrameStands(a, |vars|, f, g, undef)
    ensures FramesStand(vars + [a], frames + [f], g, undef)
  {
    hide FrameStands;
  }

  lemma LoopsChange(o: Obj, i: nat, f: Frame, g: Cells, cells: seq<Obj>, loops: seq<int>, undef: Obj)
    requires FrameStands(o, i, f, g, undef) && NumbersStand(cells, loops, g.Keys)
    ensures FrameStands(o, i, f.(loops := loops), g[g[o][1] := cells], undef)
  {
    hide StandFor, NumbersStand;
    assert g[g[o][1] := cells].Keys == g.Keys;
  }

  lemma SlotsChange(o: Obj, i: nat, f: Frame, g: Cells, cells: seq<Obj>, slots: seq<Val>, undef: Obj)
    requires FrameStands(o, i, f, g, undef) && |cells| >= 2 && cells[0] == g[o][0] && cells[1] == g[o][1]
    requires StandFor(cells[2..], slots, g.Keys, undef)
    ensures FrameStands(o, i, f.(slots := slots), g[o := cells], undef)
  {
    hide StandFor, NumbersStand;
    assert g[o := cells].Keys == g.Keys;
  }

  /** An empty array more, and room for more numbers. */
  lemma StoreAdd(at: Table, m: Mem, g: Cells, o: Obj, a: nat, next: nat, undef: Obj)
    requires StoreStands(at, m, g, undef) && a !in at && a < next && m.next <= next
    requires o !in g && o.kind.ArrayKind? && o.role == Heap.Numbered(a)
    ensures StoreStands(at[a := o], m.(arrs := m.arrs[a := []], next := next), g[o := []], undef)
  {
    hide StandFor;
    var h, at', m' := g[o := []], at[a := o], m.(arrs := m.arrs[a := []], next := next);
    forall b | b in at' ensures b < m'.next && ArrayStands(at'[b], b, m'.arrs[b], h, undef) {
      if b == a {
        EmptyStands(h.Keys, undef);
      } else {
        StandMore(g[at[b]], m.arrs[b], g.Keys, h.Keys, undef);
      }
    }
  }

  lemma AddRepresents(at: Table, t: State, vstack: seq<Obj>, vars: seq<Obj>, g: Cells, o: Obj, a: nat, next: nat,
                      undef: Obj)
    requires Represents(at, t, vstack, vars, g, undef) && a !in at && a < next && t.mem.next <= next
    requires o !in g && o.kind.ArrayKind? && o.role == Heap.Numbered(a)
    ensures Represents(at[a := o], t.(mem := t.mem.(arrs := t.mem.arrs[a := []], next := next)), vstack, vars,
                       g[o := []], undef)
  {
    hide StoreStands, FramesStand, StandFor;
    StoreAdd(at, t.mem, g, o, a, next, undef);
    StandMore(vstack, t.stack, g.Keys, g[o := []].Keys, undef);
    FramesExtend(vars, t.frames, g, g[o := []], undef);
  }

  /** The next number is none of the store's. */
  lemma NextIsFree(at: Table, m: Mem, g: Cells, undef: Obj)
    requires StoreStands(at, m, g, undef)
    ensures m.next !in at
  {
  }

  lemma EmptyStands(nodes: set<Obj>, undef: Obj)
    ensures StandFor([], [], nodes, undef)
  {
  }

  /** Other cells for one array. */
  lemma StoreChange(at: Table, m: Mem, g: Cells, o: Obj, cells: seq<Obj>, vs: seq<Val>, undef: Obj)
    requires StoreStands(at, m, g, undef) && o in g && o.role.Numbered? && StandFor(cells, vs, g.Keys, undef)
    ensures o.role.a in m.arrs && StoreStands(at, m.Store(o.role.a, vs), g[o := cells], undef)
  {
    hide StandFor;
    var h, m' := g[o := cells], m.Store(o.role.a, vs);
    assert h.Keys == g.Keys;
    forall a | a in at ensures a < m'.next && ArrayStands(at[a], a, m'.arrs[a], h, undef) {
      assert ArrayStands(at[a], a, m.arrs[a], g, undef);
    }
  }

  lemma ArrayIs(at: Table, m: Mem, g: Cells, o: Obj, undef: Obj)
    requires StoreStands(at, m, g, undef) && o in g && o.role.Numbered?
    ensures o.kind.ArrayKind? && o.role.a in m.arrs && StandFor(g[o], m.arrs[o.role.a], g.Keys, undef)
  {
    assert ArrayStands(at[o.role.a], o.role.a, m.arrs[o.role.a], g, undef);
  }
}
