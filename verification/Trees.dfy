/** Values as finite trees, and the map discipline of vm/val/map.c on them. */
module Trees {

  newtype byte = x: int | 0 <= x < 256

  /** A value without sharing, of the types this model keeps. */
  datatype Tree =
    | TUndef
    | TStr(s: seq<byte>)
    | TNum(n: int)
    | TArr(cells: seq<Tree>)
    | TMap(entries: seq<Entry>)

  datatype Entry = Entry(key: Tree, val: Tree)

  /** `val_cmp(..) == 0` between a stored key and a sought one: arrays, maps and undef equal nothing. */
  predicate SameKey(a: Tree, b: Tree) {
    (a.TNum? || a.TStr?) && a == b
  }

  // ----- map_get and map_set -----

  /** The first entry with an equal key, or the size. */
  function FindKey(m: seq<Entry>, k: Tree): (i: nat)
    ensures i <= |m| && (i < |m| ==> SameKey(m[i].key, k))
    ensures forall j :: 0 <= j < i ==> !SameKey(m[j].key, k)
  {
    if m == [] || SameKey(m[0].key, k) then 0 else 1 + FindKey(m[1..], k)
  }

  /** The first entry whose key is undef, or the size. */
  function FindFree(m: seq<Entry>): (i: nat)
    ensures i <= |m| && (i < |m| ==> m[i].key == TUndef)
    ensures forall j :: 0 <= j < i ==> m[j].key != TUndef
  {
    if m == [] || m[0].key == TUndef then 0 else 1 + FindFree(m[1..])
  }

  function MapGet(m: seq<Entry>, k: Tree): Tree {
    var i := FindKey(m, k);
    if i < |m| then m[i].val else TUndef
  }

  function MapSet(m: seq<Entry>, k: Tree, v: Tree): seq<Entry> {
    if v == TUndef then m
    else
      var i, free := FindKey(m, k), FindFree(m);
      if i < |m| then m[i := Entry(m[i].key, v)]
      else if free < |m| then m[free := Entry(k, v)]
      else m + [Entry(k, v)]
  }

  /** Insert entries one after the other, as `map_dup` and the deserializer do. */
  function MapFill(m: seq<Entry>, es: seq<Entry>): seq<Entry>
    decreases |es|
  {
    if es == [] then m else MapFill(MapSet(m, es[0].key, es[0].val), es[1..])
  }

  /** What every map built by `map_set` satisfies: no two equal keys, undef as a key only in the last
      position, and no undef value. */
  predicate MapOk(m: seq<Entry>) {
    && (forall i, j :: 0 <= i < j < |m| ==> !SameKey(m[i].key, m[j].key))
    && (forall i :: 0 <= i < |m| && m[i].key == TUndef ==> i == |m| - 1)
    && (forall i :: 0 <= i < |m| ==> m[i].val != TUndef)
  }

  lemma FindKeyIs(m: seq<Entry>, k: Tree, i: nat)
    requires i < |m| && SameKey(m[i].key, k) && forall j :: 0 <= j < i ==> !SameKey(m[j].key, k)
    ensures FindKey(m, k) == i
  {
  }

  lemma FindKeyNone(m: seq<Entry>, k: Tree)
    requires forall j :: 0 <= j < |m| ==> !SameKey(m[j].key, k)
    ensures FindKey(m, k) == |m|
  {
  }

  /** A map is a dictionary: after any store, on any map, reading a key gives the stored value if the
      keys are equal and what it gave before otherwise. */
  lemma Dictionary(m: seq<Entry>, k: Tree, v: Tree, k': Tree)
    ensures MapGet(MapSet(m, k, v), k') == if v != TUndef && SameKey(k, k') then v else MapGet(m, k')
  {
    var m' := MapSet(m, k, v);
    var i := FindKey(m, k');
    if v != TUndef {
      if SameKey(k, k') {
        var j := FindKey(m, k);
        var at := if j < |m| then j else if FindFree(m) < |m| then FindFree(m) else |m|;
        FindKeyIs(m', k', at);
      } else if i < |m| {
        FindKeyIs(m', k', i);
      } else {
        FindKeyNone(m', k');
      }
    }
  }

  /** Stores keep the map invariant. */
  lemma MapSetOk(m: seq<Entry>, k: Tree, v: Tree)
    requires MapOk(m)
    ensures MapOk(MapSet(m, k, v))
  {
  }

  lemma {:induction false} MapFillOk(m: seq<Entry>, es: seq<Entry>)
    requires MapOk(m)
    ensures MapOk(MapFill(m, es))
    decreases |es|
  {
    if es != [] {
      MapSetOk(m, es[0].key, es[0].val);
      MapFillOk(MapSet(m, es[0].key, es[0].val), es[1..]);
    }
  }

  /** Re-inserting the entries of a map in order reproduces it. */
  lemma {:induction false} MapFillRebuilds(m: seq<Entry>, es: seq<Entry>)
    requires MapOk(m + es)
    ensures MapFill(m, es) == m + es
    decreases |es|
  {
    if es != [] {
      var e := es[0];
      assert (m + es)[|m|] == e;
      assert forall i :: 0 <= i < |m| ==> (m + es)[i] == m[i];
      FindKeyNone(m, e.key);
      assert FindFree(m) == |m|;
      assert MapSet(m, e.key, e.val) == m + [e];
      assert m + [e] + es[1..] == m + es;
      MapFillRebuilds(m + [e], es[1..]);
    }
  }

  /** The converse: only maps with the invariant are reproduced, so it is exactly what insertion order
      can build. */
  lemma RebuiltExactly(es: seq<Entry>)
    ensures MapFill([], es) == es <==> MapOk(es)
  {
    MapFillOk([], es);
    if MapOk(es) {
      assert [] + es == es;
      MapFillRebuilds([], es);
    }
  }
}
