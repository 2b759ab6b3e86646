/** The mark-sweep collector (vm/val/val.c): every value but the shared undef value is on one intrusive
    list; marking follows array cells and map keys and values through a graph that may have cycles. */
module Heap {

  /** The type of a value, with what a number or a string holds; neither is ever changed. */
  datatype Kind = UndefKind | NumKind(n: int) | StrKind(s: string) | ArrayKind | MapKind

  /** What an array is for: the `a`-th array a program made, the `i`-th frame from the bottom, that frame's
      loop stack, or none of these. */
  datatype Role = Numbered(a: nat) | FrameOf(i: nat) | LoopsOf(i: nat) | NoRole

  class Obj {
    const kind: Kind
    const role: Role
    var marked: bool
    var next: Obj?
    /** The cells of an array. */
    var cells: seq<Obj>
    /** The keys and values of a map, position by position. */
    var keys: seq<Obj>
    var vals: seq<Obj>

    constructor (kind: Kind, role: Role, next: Obj?)
      ensures this.kind == kind && this.role == role && this.next == next && !marked
      ensures cells == keys == vals == []
    {
      this.kind := kind;
      this.role := role;
      this.next := next;
      marked, cells, keys, vals := false, [], [], [];
    }

    /** What marking follows from this value. */
    function Kids(): (r: seq<Obj>)
      reads this`cells, this`keys, this`vals
    {
      match kind
      case ArrayKind => cells
      case MapKind => keys + vals
      case _ => []
    }
  }

  // ----- reachability in a snapshot of the graph -----

  type Graph = map<Obj, seq<Obj>>

  ghost function Snapshot(nodes: set<Obj>): (g: Graph)
    reads nodes`cells, nodes`keys, nodes`vals
  {
    map o | o in nodes :: o.Kids()
  }

  ghost predicate ClosedGraph(g: Graph) {
    forall o, i :: o in g && 0 <= i < |g[o]| ==> g[o][i] in g
  }

  /** Values at most `n` edges away from the roots. */
  ghost function Within(g: Graph, roots: set<Obj>, n: nat): set<Obj> {
    if n == 0 then roots
    else
      var s := Within(g, roots, n - 1);
      s + set o, i | o in s && o in g && 0 <= i < |g[o]| :: g[o][i]
  }

  ghost predicate Reachable(g: Graph, roots: set<Obj>, o: Obj) {
    exists n: nat :: o in Within(g, roots, n)
  }

  ghost function ReachableSet(g: Graph, roots: set<Obj>): set<Obj> {
    set o | o in g && Reachable(g, roots, o)
  }

  ghost predicate ClosedSet(g: Graph, s: set<Obj>) {
    forall o, i :: o in s && o in g && 0 <= i < |g[o]| ==> g[o][i] in s
  }

  lemma {:induction false} WithinClosed(g: Graph, roots: set<Obj>, s: set<Obj>, n: nat)
    requires roots <= s && ClosedSet(g, s)
    ensures Within(g, roots, n) <= s
  {
    if n > 0 {
      WithinClosed(g, roots, s, n - 1);
    }
  }

  lemma ReachableClosed(g: Graph, roots: set<Obj>)
    requires ClosedGraph(g) && roots <= g.Keys
    ensures roots <= ReachableSet(g, roots) && ClosedSet(g, ReachableSet(g, roots))
  {
    forall o | o in roots ensures Reachable(g, roots, o) {
      assert o in Within(g, roots, 0);
    }
    forall o, i | o in ReachableSet(g, roots) && 0 <= i < |g[o]| ensures g[o][i] in ReachableSet(g, roots) {
      var n: nat :| o in Within(g, roots, n);
      assert g[o][i] in Within(g, roots, n + 1);
    }
  }

  /** A closed set that contains the roots contains everything reachable. */
  lemma ReachableLeast(g: Graph, roots: set<Obj>, s: set<Obj>)
    requires roots <= s && ClosedSet(g, s)
    ensures ReachableSet(g, roots) <= s
  {
    forall o | o in ReachableSet(g, roots) ensures o in s {
      var n: nat :| o in Within(g, roots, n);
      WithinClosed(g, roots, s, n);
    }
  }

  // ----- marking -----

  ghost function Marked(nodes: set<Obj>): set<Obj>
    reads nodes`marked
  {
    set o | o in nodes && o.marked
  }

  ghost function Unmarked(nodes: set<Obj>): set<Obj>
    reads nodes`marked
  {
    set o | o in nodes && !o.marked
  }

  /** Nodes marked since `before` are in `reach` and have only marked successors. */
  ghost predicate Finished(nodes: set<Obj>, before: set<Obj>, reach: set<Obj>)
    reads nodes
  {
    && before <= Marked(nodes)
    && forall o :: o in nodes && o.marked && o !in before ==>
         o in reach && forall i :: 0 <= i < |o.Kids()| ==> o.Kids()[i] in Marked(nodes)
  }

  ghost predicate Inside(nodes: set<Obj>, reach: set<Obj>)
    reads nodes`cells, nodes`keys, nodes`vals
  {
    && reach <= nodes
    && (forall o, i :: o in nodes && 0 <= i < |o.Kids()| ==> o.Kids()[i] in nodes)
    && (forall o, i :: o in reach && 0 <= i < |o.Kids()| ==> o.Kids()[i] in reach)
  }

  /** `val_mark`: marks what is reachable from `v` through unmarked values, and counts it.  The recursion
      ends because every call that goes on has one unmarked value less. */
  method MarkVal(v: Obj, ghost nodes: set<Obj>, ghost reach: set<Obj>) returns (count: nat)
    requires v in reach && Inside(nodes, reach)
    modifies nodes`marked
    ensures v.marked && Finished(nodes, old(Marked(nodes)), reach)
    ensures count + |old(Marked(nodes))| == |Marked(nodes)|
    ensures Unmarked(nodes) <= old(Unmarked(nodes))
    decreases Unmarked(nodes), 1
  {
    if v.marked {
      return 0;
    }
    ghost var m0, u0 := Marked(nodes), Unmarked(nodes);
    v.marked := true;
    assert Marked(nodes) == m0 + {v};
    assert Unmarked(nodes) == u0 - {v};
    count := MarkKids(v, nodes, reach);
    count := count + 1;
  }

  /** `arr_mark` and `map_mark`. */
  method MarkKids(v: Obj, ghost nodes: set<Obj>, ghost reach: set<Obj>) returns (count: nat)
    requires v in reach && Inside(nodes, reach)
    modifies nodes`marked
    ensures forall i :: 0 <= i < |v.Kids()| ==> v.Kids()[i].marked
    ensures Finished(nodes, old(Marked(nodes)), reach)
    ensures count + |old(Marked(nodes))| == |Marked(nodes)|
    ensures Unmarked(nodes) <= old(Unmarked(nodes))
    decreases Unmarked(nodes), 2
  {
    count := 0;
    var kids := v.Kids();
    ghost var m0 := Marked(nodes);
    for i := 0 to |kids|
      invariant Finished(nodes, m0, reach) && kids == v.Kids()
      invariant forall j :: 0 <= j < i ==> kids[j].marked
      invariant count + |m0| == |Marked(nodes)|
      invariant Unmarked(nodes) <= old(Unmarked(nodes))
    {
      ghost var m1 := Marked(nodes);
      var c := MarkVal(kids[i], nodes, reach);
      forall j | 0 <= j < i ensures kids[j].marked {
        assert kids[j] in m1;
      }
      count := count + c;
    }
  }

  /** The loops of `vals_mark` over one stack of roots. */
  method MarkSeq(roots: seq<Obj>, ghost nodes: set<Obj>, ghost before: set<Obj>, ghost reach: set<Obj>)
    returns (count: nat)
    requires Inside(nodes, reach) && (forall r :: r in roots ==> r in reach) && Finished(nodes, before, reach)
    modifies nodes`marked
    ensures Finished(nodes, before, reach) && old(Marked(nodes)) <= Marked(nodes)
    ensures forall r :: r in roots ==> r in Marked(nodes)
    ensures count + |old(Marked(nodes))| == |Marked(nodes)|
  {
    count := 0;
    ghost var m0 := Marked(nodes);
    for i := 0 to |roots|
      invariant Finished(nodes, before, reach) && m0 <= Marked(nodes)
      invariant forall j :: 0 <= j < i ==> roots[j] in Marked(nodes)
      invariant count + |m0| == |Marked(nodes)|
    {
      var c := MarkVal(roots[i], nodes, reach);
      count := count + c;
    }
  }

  ghost function RootSet(vstack: seq<Obj>, vars: seq<Obj>, globals: Obj, constants: Obj, functions: Obj,
                         ops: Obj): set<Obj>
  {
    (set o | o in vstack) + (set o | o in vars) + {globals, constants, functions, ops}
  }

  /** All of `vals_mark`. */
  method MarkRoots(vstack: seq<Obj>, vars: seq<Obj>, globals: Obj, constants: Obj, functions: Obj, ops: Obj,
                   ghost nodes: set<Obj>, ghost reach: set<Obj>) returns (count: nat)
    requires Inside(nodes, reach) && RootSet(vstack, vars, globals, constants, functions, ops) <= reach
    modifies nodes`marked
    ensures Finished(nodes, old(Marked(nodes)), reach)
    ensures RootSet(vstack, vars, globals, constants, functions, ops) <= Marked(nodes)
    ensures count + |old(Marked(nodes))| == |Marked(nodes)|
  {
    ghost var m0 := Marked(nodes);
    count := MarkSeq(vstack, nodes, m0, reach);
    var c := MarkSeq(vars, nodes, m0, reach);
    count := count + c;
    ghost var rest := [globals, constants, functions, ops];
    c := MarkSeq([globals, constants, functions, ops], nodes, m0, reach);
    count := count + c;
    assert rest[0] == globals && rest[1] == constants && rest[2] == functions && rest[3] == ops;
  }

  // ----- the list of all values -----

  const GC_THRESHOLD: nat := 20

  /** The elements of a list that are in a set, in list order. */
  ghost function Keep(l: seq<Obj>, s: set<Obj>): (r: seq<Obj>)
    ensures forall o :: o in r ==> o in l && o in s
    ensures forall o :: o in l && o in s ==> o in r
    ensures |r| <= |l|
  {
    if l == [] then [] else (if l[0] in s then [l[0]] else []) + Keep(l[1..], s)
  }

  lemma {:induction false} KeepConcat(a: seq<Obj>, b: seq<Obj>, s: set<Obj>)
    ensures Keep(a + b, s) == Keep(a, s) + Keep(b, s)
    decreases |a|
  {
    if a == [] {
      assert a + b == b;
    } else {
      assert (a + b)[1..] == a[1..] + b;
      KeepConcat(a[1..], b, s);
    }
  }

  lemma {:induction false} KeepAll(l: seq<Obj>, s: set<Obj>)
    requires forall o :: o in l ==> o in s
    ensures Keep(l, s) == l
    decreases |l|
  {
    if l != [] {
      KeepAll(l[1..], s);
    }
  }

  lemma KeepSnoc(l: seq<Obj>, i: nat, s: set<Obj>)
    requires i < |l|
    ensures Keep(l[..i + 1], s) == Keep(l[..i], s) + if l[i] in s then [l[i]] else []
  {
    assert l[..i + 1] == l[..i] + [l[i]];
    KeepConcat(l[..i], [l[i]], s);
  }

  /** Unlinking an element outside the set does not change what is kept. */
  lemma KeepWithout(l: seq<Obj>, i: nat, s: set<Obj>)
    requires i < |l| && l[i] !in s
    ensures Keep(l[..i] + l[i + 1..], s) == Keep(l, s)
  {
    var a, b, c := l[..i], l[i..], l[i + 1..];
    assert Keep(b, s) == Keep(c, s) by { assert b[1..] == c; }
    assert l == a + b;
    hide Keep;
    KeepConcat(a, b, s);
    KeepConcat(a, c, s);
  }

  ghost predicate AllIn(l: seq<Obj>, s: set<Obj>) {
    forall o :: o in l ==> o in s
  }

  ghost predicate DistinctObjs(l: seq<Obj>) {
    forall i, j :: 0 <= i < j < |l| ==> l[i] != l[j]
  }

  ghost function Common(l: seq<Obj>, s: set<Obj>): set<Obj> {
    set o | o in l && o in s
  }

  lemma CommonStep(l: seq<Obj>, s: set<Obj>)
    requires l != [] && DistinctObjs(l)
    ensures DistinctObjs(l[1..]) && l[0] !in Common(l[1..], s)
    ensures Common(l, s) == Common(l[1..], s) + if l[0] in s then {l[0]} else {}
  {
    var x, t := l[0], l[1..];
    assert l == [x] + t;
  }

  lemma {:induction false} DistinctSize(l: seq<Obj>, s: set<Obj>)
    requires DistinctObjs(l)
    ensures |Common(l, s)| == |Keep(l, s)|
    decreases |l|
  {
    if l == [] {
      assert Common(l, s) == {};
    } else {
      hide Common, DistinctObjs;
      CommonStep(l, s);
      DistinctSize(l[1..], s);
    }
  }

  class Values {
    var head: Obj?
    var lastCount: int
    /** The shared undef value: always marked, never listed. */
    const undef: Obj
    ghost var list: seq<Obj>

    /** The links from `head` spell out `list`. */
    ghost predicate Linked()
      reads this`head, this`list, list`next
    {
      && DistinctObjs(list)
      && head == (if list == [] then null else list[0])
      && forall i {:trigger list[i].next} :: 0 <= i < |list| ==> list[i].next == At(i + 1)
    }

    ghost function At(i: nat): Obj?
      reads this`list
    {
      if i < |list| then list[i] else null
    }

    /** No value points outside the list, except to undef. */
    ghost predicate SelfContained()
      reads this`list, list`cells, list`keys, list`vals
    {
      forall o, i :: o in list && 0 <= i < |o.Kids()| ==> o.Kids()[i] in Nodes()
    }

    ghost function Nodes(): set<Obj>
      reads this`list
    {
      (set o | o in list) + {undef}
    }

    ghost predicate Valid()
      reads this`head, this`list, undef`marked, list`next, list`cells, list`keys, list`vals
    {
      Linked() && SelfContained() && undef !in list && undef.marked && undef.kind == UndefKind
    }

    constructor ()
      ensures Valid() && list == [] && lastCount == 0 && fresh(undef) && undef.role == NoRole
    {
      var u := new Obj(UndefKind, NoRole, null);
      u.marked := true;
      undef := u;
      head, lastCount, list := null, 0, [];
    }

    /** `val_new`. */
    method New(kind: Kind, role: Role) returns (v: Obj)
      requires Valid()
      modifies this`head, this`list
      ensures Valid() && Nodes() == old(Nodes()) + {v}
      ensures kind == UndefKind ==> v == undef && list == old(list)
      ensures kind != UndefKind ==> fresh(v) && v.kind == kind && v.role == role && list == [v] + old(list)
      ensures kind != UndefKind ==> v.cells == v.keys == v.vals == []
    {
      if kind == UndefKind {
        return undef;
      }
      v := new Obj(kind, role, head);
      Prepend(v);
      assert Nodes() == old(Nodes()) + {v};
    }

    /** Link a new value in front. */
    method Prepend(v: Obj)
      requires Valid() && v != undef && v !in list && v.next == head && v.Kids() == []
      modifies this`head, this`list
      ensures Valid() && list == [v] + old(list)
    {
      ghost var before := list;
      head := v;
      list := [v] + list;
      assert Linked() by {
        hide SelfContained;
        assert forall i :: 0 < i < |list| ==> list[i] == before[i - 1];
      }
      assert SelfContained() by {
        hide Linked;
        forall o, i | o in list && 0 <= i < |o.Kids()| ensures o.Kids()[i] in Nodes() {
          assert o in before;
        }
      }
    }

    lemma UndefIs()
      requires Valid()
      ensures undef in Nodes() && undef.kind.UndefKind?
    {
    }

    lemma KidIn(o: Obj, i: nat)
      requires Valid() && o in Nodes() && i < |o.Kids()|
      ensures o.Kids()[i] in Nodes()
    {
    }

    /** Give an array other cells. */
    method Write(o: Obj, cells: seq<Obj>)
      requires Valid() && o in Nodes() && o.kind == ArrayKind && AllIn(cells, Nodes())
      modifies o`cells
      ensures Valid() && o.cells == cells
    {
      o.cells := cells;
      assert o.Kids() == cells;
    }

    /** Append a new number or string to an array. */
    method AppendNew(o: Obj, kind: Kind) returns (ghost c: Obj)
      requires Valid() && o in Nodes() && o.kind == ArrayKind && kind != UndefKind
      modifies this`head, this`list, o`cells
      ensures Valid() && fresh(c) && c.kind == kind && c.role == NoRole && Nodes() == old(Nodes()) + {c}
      ensures o.cells == old(o.cells) + [c]
    {
      hide Linked;
      var v := New(kind, NoRole);
      c := v;
      forall d | d in o.cells ensures d in Nodes() {
        assert o.Kids() == o.cells;
      }
      Write(o, o.cells + [v]);
    }

    /** Append an entry of new values to a map. */
    method EnterNew(o: Obj, keyKind: Kind, valKind: Kind) returns (ghost key: Obj, ghost val: Obj)
      requires Valid() && o in Nodes() && o.kind == MapKind && keyKind != UndefKind && valKind != UndefKind
      modifies this`head, this`list, o`keys, o`vals
      ensures Valid() && fresh(key) && fresh(val) && Nodes() == old(Nodes()) + {key, val}
      ensures key.kind == keyKind && key.role == NoRole && val.kind == valKind && val.role == NoRole
      ensures o.keys == old(o.keys) + [key] && o.vals == old(o.vals) + [val]
    {
      hide Linked, SelfContained;
      var k := New(keyKind, NoRole);
      var v := New(valKind, NoRole);
      key, val := k, v;
      WriteEntry(o, k, v);
    }

    method WriteEntry(o: Obj, key: Obj, val: Obj)
      requires Valid() && o in Nodes() && o.kind == MapKind && key in Nodes() && val in Nodes()
      modifies o`keys, o`vals
      ensures Valid() && o.keys == old(o.keys) + [key] && o.vals == old(o.vals) + [val]
    {
      ghost var kids := o.Kids();
      o.keys, o.vals := o.keys + [key], o.vals + [val];
      forall i | 0 <= i < |o.Kids()| ensures o.Kids()[i] in Nodes() {
        if o.Kids()[i] != key && o.Kids()[i] != val { assert o.Kids()[i] in kids; }
      }
    }

    /** The arrays programs made, by number. */
    method NumberedArrays() returns (objs: map<nat, Obj>)
      requires Valid()
      ensures forall a :: a in objs ==> objs[a] in list && objs[a].role == Numbered(a)
      ensures forall o :: o in list && o.role.Numbered? ==> o.role.a in objs
    {
      objs := map[];
      var p := head;
      ghost var i := 0;
      while p != null
        invariant i <= |list| && p == At(i)
        invariant forall a :: a in objs ==> objs[a] in list && objs[a].role == Numbered(a)
        invariant forall j :: 0 <= j < i && list[j].role.Numbered? ==> list[j].role.a in objs
        decreases |list| - i
      {
        if p.role.Numbered? {
          objs := objs[p.role.a := p];
        }
        p := p.next;
        i := i + 1;
      }
    }

    /** `vals_count`. */
    method Count() returns (c: nat)
      requires Valid()
      ensures c == |list|
    {
      c := 0;
      var p := head;
      while p != null
        invariant c <= |list| && p == At(c)
        decreases |list| - c
      {
        p := p.next;
        c := c + 1;
      }
    }

    /** `vals_unmark`: clears every mark on the list and counts how many there were. */
    method Unmark() returns (count: nat)
      requires Valid()
      modifies list`marked
      ensures Valid() && Marked(Nodes()) == {undef}
      ensures count == |Keep(list, old(Marked(Nodes())))|
    {
      count := 0;
      var p := head;
      ghost var i, m0 := 0, Marked(Nodes());
      while p != null
        invariant Valid() && i <= |list| && p == At(i)
        invariant forall j :: 0 <= j < |list| ==> list[j].marked == (j >= i && list[j] in m0)
        invariant count == |Keep(list[..i], m0)|
        decreases |list| - i
      {
        KeepSnoc(list, i, m0);
        if p.marked {
          count := count + 1;
          p.marked := false;
        }
        p := p.next;
        i := i + 1;
      }
      assert list[..i] == list;
    }

    /** What the reachability of the values on the list is measured from. */
    ghost predicate RootsOk(roots: set<Obj>)
      reads this`list
    {
      roots <= Nodes()
    }

    lemma ReachInside(roots: set<Obj>)
      requires Valid() && RootsOk(roots)
      ensures ClosedGraph(Snapshot(Nodes()))
      ensures var reach := ReachableSet(Snapshot(Nodes()), roots);
              roots <= reach && Inside(Nodes(), reach)
    {
      var g := Snapshot(Nodes());
      assert undef.Kids() == [];
      assert ClosedGraph(g);
      ReachableClosed(g, roots);
      var reach := ReachableSet(g, roots);
      forall o, i | o in reach && 0 <= i < |o.Kids()| ensures o.Kids()[i] in reach {
        assert g[o] == o.Kids();
      }
    }

    /** When marking has finished from the roots, the marks are exact. */
    lemma MarkedExactly(roots: set<Obj>)
      requires Valid() && RootsOk(roots) && roots <= Marked(Nodes())
      requires Finished(Nodes(), {undef}, ReachableSet(Snapshot(Nodes()), roots))
      ensures var reach := ReachableSet(Snapshot(Nodes()), roots);
              && (forall o :: o in list ==> (o.marked <==> o in reach))
              && |Marked(Nodes())| == |Keep(list, reach)| + 1
    {
      var g, m := Snapshot(Nodes()), Marked(Nodes());
      var reach := ReachableSet(g, roots);
      assert undef.Kids() == [];
      forall o, i | o in m && o in g && 0 <= i < |g[o]| ensures g[o][i] in m {
        assert g[o] == o.Kids();
      }
      ReachableLeast(g, roots, m);
      DistinctSize(list, reach);
      assert m == {undef} + Common(list, reach);
    }

    /** `vals_mark` after `vals_unmark`: a value on the list is marked exactly when it is reachable from
        the operand stack, the frames, the globals, the constants, the functions or the code, and the
        count returned is the number of such values. */
    method Mark(vstack: seq<Obj>, vars: seq<Obj>, globals: Obj, constants: Obj, functions: Obj, ops: Obj,
                ghost roots: set<Obj>, ghost nodes: set<Obj>) returns (count: nat)
      requires Valid() && nodes == Nodes() && roots == RootSet(vstack, vars, globals, constants, functions, ops)
      requires RootsOk(roots) && Marked(nodes) == {undef}
      modifies nodes`marked
      ensures Valid()
      ensures forall o :: o in list ==> (o.marked <==> o in Live(roots))
      ensures count == |Keep(list, Live(roots))|
    {
      hide ReachableSet, Keep, Inside, Finished, ClosedGraph, SelfContained, Linked, RootSet, Snapshot, Nodes, Marked;
      ghost var reach := Live(roots);
      ReachInside(roots);
      count := MarkRoots(vstack, vars, globals, constants, functions, ops, nodes, reach);
      UndefMarked(nodes, reach);
      MarkedExactly(roots);
      assert |{undef}| == 1;
    }

    lemma UndefMarked(nodes: set<Obj>, reach: set<Obj>)
      requires Finished(nodes, {undef}, reach)
      ensures undef.marked
    {
      assert undef in Marked(nodes);
    }

    /** The values reachable from the roots of a machine. */
    ghost function Live(roots: set<Obj>): set<Obj>
      reads this`list, Nodes()`cells, Nodes()`keys, Nodes()`vals
    {
      ReachableSet(Snapshot(Nodes()), roots)
    }

    /** Unlink the head. */
    method DropHead()
      requires Linked() && list != []
      modifies this`head, this`list
      ensures Linked() && list == old(list)[1..]
    {
      head := head.next;
      list := list[1..];
    }

    /** Unlink the value after `p`, which stands at `i`. */
    method DropNext(p: Obj, ghost i: nat)
      requires Linked() && i + 1 < |list| && p == list[i]
      modifies p`next, this`list
      ensures Linked() && list == old(list)[..i + 1] + old(list)[i + 2..]
    {
      ghost var l := list;
      assert p.next == list[i + 1] && list[i + 1].next == At(i + 2);
      p.next := p.next.next;
      list := l[..i + 1] + l[i + 2..];
      forall j | 0 <= j < |list| ensures list[j].next == At(j + 1) {
        if j > i { assert list[j] == l[j + 1]; }
      }
    }

    /** Every listed value is in `all`, and its mark says whether it is in `m`. */
    ghost predicate MarksAre(all: set<Obj>, m: set<Obj>)
      reads this`list, list`marked
    {
      forall i :: 0 <= i < |list| ==> list[i] in all && (list[i].marked <==> list[i] in m)
    }

    /** The first loop of `vals_sweep`. */
    method SweepHead(ghost all: set<Obj>, ghost m: set<Obj>) returns (removed: nat)
      requires Linked() && MarksAre(all, m)
      modifies this`head, this`list
      ensures Linked() && MarksAre(all, m) && Keep(list, m) == Keep(old(list), m)
      ensures removed + |list| == |old(list)| && (list != [] ==> list[0].marked)
    {
      removed := 0;
      while head != null && !head.marked
        invariant Linked() && MarksAre(all, m) && Keep(list, m) == Keep(old(list), m)
        invariant removed + |list| == |old(list)|
        decreases |list|
      {
        hide Keep;
        KeepWithout(list, 0, m);
        assert list[..0] + list[1..] == list[1..];
        DropHead();
        removed := removed + 1;
      }
    }

    /** Unlinking an unmarked value after the `i`-th one keeps what is to be kept. */
    method UnlinkNext(p: Obj, ghost i: nat, ghost all: set<Obj>, ghost m: set<Obj>)
      requires Linked() && MarksAre(all, m) && i + 1 < |list| && p == list[i] && !list[i + 1].marked
      modifies p`next, this`list
      ensures Linked() && MarksAre(all, m) && Keep(list, m) == Keep(old(list), m)
      ensures |list| + 1 == |old(list)| && list[..i + 1] == old(list)[..i + 1]
    {
      hide Keep, At;
      KeepWithout(list, i + 1, m);
      DropNext(p, i);
    }

    /** One round of the second loop: either the next value goes, or it becomes the current one. */
    method SweepStep(p: Obj, ghost i: nat, ghost all: set<Obj>, ghost m: set<Obj>) returns (q: Obj)
      requires Linked() && MarksAre(all, m) && i < |list| && p == list[i] && p.next != null
      modifies p`next, this`list
      ensures Linked() && MarksAre(all, m) && Keep(list, m) == Keep(old(list), m)
      ensures if q == p then |list| + 1 == |old(list)| && i < |list| && list[..i + 1] == old(list)[..i + 1]
              else list == old(list) && i + 1 < |list| && q == list[i + 1] && q in m
    {
      assert p.next == At(i + 1);
      hide Keep;
      if !p.next.marked {
        UnlinkNext(p, i, all, m);
        q := p;
      } else {
        q := p.next;
      }
    }

    /** The second loop of `vals_sweep`, from a marked head. */
    method SweepRest(ghost all: set<Obj>, ghost m: set<Obj>) returns (removed: nat)
      requires Linked() && MarksAre(all, m) && list != [] && list[0].marked
      modifies this`list, all`next
      ensures Linked() && list == Keep(old(list), m) && removed + |list| == |old(list)|
    {
      hide Keep, Linked, MarksAre;
      removed := 0;
      var p := head;
      ghost var i := 0;
      MarkOf(0, all, m);
      while p.next != null
        invariant Linked() && MarksAre(all, m) && Keep(list, m) == Keep(old(list), m)
        invariant removed + |list| == |old(list)| && i < |list| && p == list[i]
        invariant AllIn(list[..i + 1], m)
        decreases |list| - i
      {
        MarkOf(i, all, m);
        var q := SweepStep(p, i, all, m);
        if q == p {
          removed := removed + 1;
          MarkOf(i, all, m);
        } else {
          OneMore(i, m);
          p := q;
          i := i + 1;
        }
      }
      EndOfList(i, m);
    }

    lemma OneMore(i: nat, m: set<Obj>)
      requires i + 1 < |list| && AllIn(list[..i + 1], m) && list[i + 1] in m
      ensures AllIn(list[..i + 2], m)
    {
      assert list[..i + 2] == list[..i + 1] + [list[i + 1]];
    }

    /** A list all of whose values are kept up to the one that ends it is kept whole. */
    lemma EndOfList(i: nat, m: set<Obj>)
      requires Linked() && i < |list| && list[i].next == null && AllIn(list[..i + 1], m)
      ensures Keep(list, m) == list
    {
      assert At(i + 1) == null && list[..i + 1] == list;
      KeepAll(list, m);
    }

    lemma MarkOf(i: nat, all: set<Obj>, m: set<Obj>)
      requires Linked() && MarksAre(all, m) && i < |list|
      ensures list[i] in all && list[i] == At(i) && (i == 0 ==> head == list[0])
      ensures i == 0 && list[0].marked ==> AllIn(list[..1], m)
    {
    }

    /** `vals_sweep`: the list keeps exactly the marked values, in order; what was removed and what is
        left add up. */
    method Sweep() returns (removed: nat)
      requires Linked()
      modifies this`head, this`list, list`next
      ensures Linked() && list == Keep(old(list), old(Marked(Nodes())))
      ensures removed + |list| == |old(list)|
    {
      ghost var all, m := (set o | o in list), Marked(Nodes());
      removed := SweepHead(all, m);
      if head != null {
        var more := SweepRest(all, m);
        removed := removed + more;
      }
    }

    /** What the sweep leaves points at nothing that was freed. */
    lemma SweptIsSelfContained(before: seq<Obj>, roots: set<Obj>)
      requires var nodes := (set o | o in before) + {undef};
               roots <= nodes && ClosedGraph(Snapshot(nodes)) &&
               list == Keep(before, ReachableSet(Snapshot(nodes), roots))
      ensures SelfContained() && RootsOk(roots)
    {
      var nodes := (set o | o in before) + {undef};
      var g := Snapshot(nodes);
      ReachableClosed(g, roots);
      forall o, i | o in list && 0 <= i < |o.Kids()| ensures o.Kids()[i] in Nodes() {
        assert g[o] == o.Kids() && g[o][i] in ReachableSet(g, roots);
      }
    }

    method Trace(vstack: seq<Obj>, vars: seq<Obj>, globals: Obj, constants: Obj, functions: Obj, ops: Obj,
                 ghost roots: set<Obj>, ghost nodes: set<Obj>)
      requires Valid() && nodes == Nodes() && roots == RootSet(vstack, vars, globals, constants, functions, ops)
      requires RootsOk(roots)
      modifies nodes`marked
      ensures Valid() && Keep(list, Marked(nodes)) == Keep(list, Live(roots))
    {
      var _ := Unmark();
      hide ReachableSet, Snapshot;
      var _ := Mark(vstack, vars, globals, constants, functions, ops, roots, nodes);
      KeepSame(list, Marked(Nodes()), Live(roots));
    }

    /** A collection proper. */
    method Collect(vstack: seq<Obj>, vars: seq<Obj>, globals: Obj, constants: Obj, functions: Obj, ops: Obj,
                   ghost roots: set<Obj>, ghost nodes: set<Obj>)
      requires Valid() && nodes == Nodes() && roots == RootSet(vstack, vars, globals, constants, functions, ops)
      requires RootsOk(roots)
      modifies this`head, this`list, nodes`next, nodes`marked
      ensures Valid() && RootsOk(roots) && list == Keep(old(list), old(Live(roots)))
    {
      hide ReachableSet, RootSet, ClosedGraph, Keep, SelfContained, Linked, Inside;
      ghost var before := list;
      ReachInside(roots);
      Trace(vstack, vars, globals, constants, functions, ops, roots, nodes);
      var _ := Sweep();
      SweptIsSelfContained(before, roots);
    }

    /** `vals_gc`: below the threshold nothing happens; otherwise the list becomes exactly the values
        reachable from the roots, in order, and their number is remembered.  Either way the list is
        shorter than that number plus the threshold, and no value's contents change. */
    method Gc(vstack: seq<Obj>, vars: seq<Obj>, globals: Obj, constants: Obj, functions: Obj, ops: Obj,
              ghost roots: set<Obj>, ghost nodes: set<Obj>)
      requires Valid() && nodes == Nodes() && roots == RootSet(vstack, vars, globals, constants, functions, ops)
      requires RootsOk(roots)
      modifies this`head, this`list, this`lastCount, nodes`next, nodes`marked
      ensures Valid() && RootsOk(roots)
      ensures |list| < lastCount + GC_THRESHOLD
      ensures if |old(list)| - old(lastCount) < GC_THRESHOLD
              then list == old(list) && lastCount == old(lastCount)
              else lastCount == |list| && list == Keep(old(list), old(Live(roots)))
    {
      hide Valid, RootsOk, Live, RootSet, Keep;
      var count := Count();
      if count - lastCount < GC_THRESHOLD {
        return;
      }
      Collect(vstack, vars, globals, constants, functions, ops, roots, nodes);
      lastCount := Count();
    }
  }

  lemma {:induction false} KeepSame(l: seq<Obj>, s: set<Obj>, t: set<Obj>)
    requires forall o :: o in l ==> (o in s <==> o in t)
    ensures Keep(l, s) == Keep(l, t)
    decreases |l|
  {
    if l != [] {
      KeepSame(l[1..], s, t);
    }
  }
}