/** The growable array and the association list as they are written, updated in place (vm/val/arr.c,
    vm/val/map.c). */
module Containers {
  import opened Arrays
  import opened Trees

  class Arr<T(==)> {
    const undef: T
    var vals: seq<T>

    constructor (undef: T)
      ensures this.undef == undef && vals == []
    {
      this.undef := undef;
      vals := [];
    }

    method Push(v: T)
      modifies this`vals
      ensures vals == ArrPush(undef, old(vals), v)
      ensures Canonical(undef, old(vals)) ==> Canonical(undef, vals)
    {
      if v == undef {
        return;
      }
      vals := vals + [v];
    }

    method Get(i: nat) returns (v: T)
      ensures v == ArrGet(undef, vals, i)
    {
      v := if |vals| <= i then undef else vals[i];
    }

    /** `arr_resize`: drop trailing undef cells. */
    method Resize()
      modifies this`vals
      ensures vals == Trim(undef, old(vals))
    {
      var maxidx := |vals| - 1;
      while maxidx >= 0
        invariant -1 <= maxidx < |vals|
        invariant Trim(undef, vals[..maxidx + 1]) == Trim(undef, vals)
      {
        if vals[maxidx] != undef {
          break;
        }
        assert vals[..maxidx + 1][..maxidx] == vals[..maxidx];
        maxidx := maxidx - 1;
      }
      vals := vals[..maxidx + 1];
    }

    /** `arr_set`: storing undef does nothing; storing past the end fills the gap with undef. */
    method Set(i: nat, v: T)
      modifies this`vals
      ensures vals == ArrSet(undef, old(vals), i, v)
      ensures Canonical(undef, old(vals)) ==> Canonical(undef, vals)
      ensures Canonical(undef, old(vals)) ==> forall j: nat ::
                ArrGet(undef, vals, j) == if v != undef && j == i then v else ArrGet(undef, old(vals), j)
    {
      if Canonical(undef, vals) { ArrSetGet(undef, vals, i, v); }
      if v == undef {
        return;
      }
      var n := |vals|;
      while |vals| <= i
        invariant Pad(undef, vals, i + 1) == Pad(undef, old(vals), i + 1)
        decreases i + 1 - |vals|
      {
        vals := vals + [undef];
      }
      vals := vals[i := v];
      Resize();
    }

    /** `arr_dup`: a cell-by-cell copy. */
    method Dup() returns (r: Arr<T>)
      ensures fresh(r) && r.undef == undef && r.vals == ArrFill(undef, [], 0, vals)
      ensures Canonical(undef, vals) ==> r.vals == vals
    {
      r := new Arr(undef);
      for i := 0 to |vals|
        invariant fresh(r) && r.undef == undef
        invariant ArrFill(undef, r.vals, i, vals[i..]) == ArrFill(undef, [], 0, vals)
      {
        assert vals[i..][1..] == vals[i + 1..];
        r.Set(i, vals[i]);
      }
      if Canonical(undef, vals) { ArrDupIsIdentity(undef, vals); }
    }

    /** `arr_add`: the defined cells of another array, each stored at the then current end. */
    method AddAll(a2: Arr<T>)
      requires a2 != this && a2.undef == undef
      modifies this`vals
      ensures vals == ArrAdd(undef, old(vals), a2.vals)
      ensures Canonical(undef, old(vals)) ==> vals == old(vals) + Defined(undef, a2.vals) && Canonical(undef, vals)
    {
      if Canonical(undef, vals) { ArrAddIsConcat(undef, vals, a2.vals); }
      for i := 0 to |a2.vals|
        invariant ArrAdd(undef, vals, a2.vals[i..]) == ArrAdd(undef, old(vals), a2.vals)
      {
        assert a2.vals[i..][1..] == a2.vals[i + 1..];
        Set(|vals|, a2.vals[i]);
      }
    }
  }

  class Map {
    var entries: seq<Entry>

    constructor ()
      ensures entries == [] && MapOk(entries)
    {
      entries := [];
    }

    method Get(k: Tree) returns (v: Tree)
      ensures v == MapGet(entries, k)
    {
      for i := 0 to |entries|
        invariant forall j :: 0 <= j < i ==> !SameKey(entries[j].key, k)
      {
        if SameKey(entries[i].key, k) {
          FindKeyIs(entries, k, i);
          return entries[i].val;
        }
      }
      FindKeyNone(entries, k);
      return TUndef;
    }

    /** `map_set`: an equal key keeps its place; otherwise the first undef key's place is reused, or the
        list grows.  The list stays one that insertion can build, and reads change at that key only. */
    method Set(k: Tree, v: Tree)
      modifies this`entries
      ensures entries == MapSet(old(entries), k, v)
      ensures MapOk(old(entries)) ==> MapOk(entries)
      ensures forall k' :: MapGet(entries, k') ==
                           if v != TUndef && SameKey(k, k') then v else MapGet(old(entries), k')
    {
      hide MapOk, MapGet;
      if MapOk(entries) { MapSetOk(entries, k, v); }
      forall k' { Dictionary(entries, k, v, k'); }
      if v == TUndef {
        return;
      }
      var slot := -1;
      for i := 0 to |entries|
        invariant forall j :: 0 <= j < i ==> !SameKey(entries[j].key, k)
        invariant slot == if FindFree(entries) < i then FindFree(entries) else -1
        invariant entries == old(entries)
      {
        if SameKey(entries[i].key, k) {
          FindKeyIs(entries, k, i);
          entries := entries[i := Entry(entries[i].key, v)];
          return;
        }
        if entries[i].key == TUndef && slot < 0 {
          slot := i;
        }
      }
      FindKeyNone(entries, k);
      if slot < 0 {
        entries := entries + [Entry(k, v)];
      } else {
        entries := entries[slot := Entry(k, v)];
      }
    }

    /** `map_dup`: re-inserting the entries reproduces the map. */
    method Dup() returns (r: Map)
      ensures fresh(r) && r.entries == MapFill([], entries)
      ensures MapOk(entries) ==> r.entries == entries
    {
      r := new Map();
      for i := 0 to |entries|
        invariant fresh(r) && MapFill(r.entries, entries[i..]) == MapFill([], entries)
      {
        assert entries[i..][1..] == entries[i + 1..];
        r.Set(entries[i].key, entries[i].val);
      }
      RebuiltExactly(entries);
    }
  }
}
