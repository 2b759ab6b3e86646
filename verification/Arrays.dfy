/** The cell discipline of `arr_t` (vm/val/arr.c): a growable list whose missing cells read as one
    distinguished "undef" value, whose stores of undef do nothing and whose trailing undef cells are
    trimmed.  The element type is a parameter, because operand values, frame slots and serialized
    trees all live in such arrays. */
module Arrays {

  /** `arr_resize`: drop trailing undef cells. */
  function Trim<T(==)>(undef: T, s: seq<T>): (r: seq<T>)
    ensures Canonical(undef, r) && r <= s
    ensures forall i :: |r| <= i < |s| ==> s[i] == undef
  {
    if s == [] || s[|s| - 1] != undef then s else Trim(undef, s[..|s| - 1])
  }

  /** The growth loop of `arr_set`: enlarge to `n` cells, filling with undef. */
  function Pad<T>(undef: T, s: seq<T>, n: nat): (r: seq<T>)
    ensures |r| == if n <= |s| then |s| else n
    ensures s <= r && forall i :: |s| <= i < |r| ==> r[i] == undef
    decreases n - |s|
  {
    if n <= |s| then s else Pad(undef, s + [undef], n)
  }

  function ArrGet<T>(undef: T, s: seq<T>, i: nat): T {
    if i < |s| then s[i] else undef
  }

  function ArrSet<T(==)>(undef: T, s: seq<T>, i: nat, v: T): seq<T> {
    if v == undef then s else Trim(undef, Pad(undef, s, i + 1)[i := v])
  }

  function ArrPush<T(==)>(undef: T, s: seq<T>, v: T): seq<T> {
    if v == undef then s else s + [v]
  }

  /** Store the elements of `vs` at consecutive indices starting at `i`, as the loops of `mkarray`,
      `call`, `arr_dup` and `v_arr_deserialize` do. */
  function ArrFill<T(==)>(undef: T, s: seq<T>, i: nat, vs: seq<T>): seq<T>
    decreases |vs|
  {
    if vs == [] then s else ArrFill(undef, ArrSet(undef, s, i, vs[0]), i + 1, vs[1..])
  }

  /** `arr_add`: append the cells of `t` one at a time, each at the then current end. */
  function ArrAdd<T(==)>(undef: T, s: seq<T>, t: seq<T>): seq<T>
    decreases |t|
  {
    if t == [] then s else ArrAdd(undef, ArrSet(undef, s, |s|, t[0]), t[1..])
  }

  /** The last cell is never undef. */
  predicate Canonical<T(==)>(undef: T, s: seq<T>) {
    s == [] || s[|s| - 1] != undef
  }

  function Defined<T(==)>(undef: T, s: seq<T>): seq<T> {
    if s == [] then [] else (if s[0] == undef then [] else [s[0]]) + Defined(undef, s[1..])
  }

  lemma TrimGet<T>(undef: T, s: seq<T>, i: nat)
    ensures ArrGet(undef, Trim(undef, s), i) == ArrGet(undef, s, i)
  {
  }

  /** Two canonical arrays that read the same at every index are the same array. */
  lemma CanonicalUnique<T>(undef: T, s: seq<T>, t: seq<T>)
    requires Canonical(undef, s) && Canonical(undef, t)
    requires forall i: nat :: ArrGet(undef, s, i) == ArrGet(undef, t, i)
    ensures s == t
  {
    var n := if |s| < |t| then |t| else |s|;
    assert n > 0 ==> ArrGet(undef, s, n - 1) == ArrGet(undef, t, n - 1);
    forall i | 0 <= i < |s| ensures s[i] == t[i] {
      assert ArrGet(undef, s, i) == ArrGet(undef, t, i);
    }
  }

  /** Reading after a store; a canonical array stays canonical, and trimming removes nothing. */
  lemma ArrSetGet<T>(undef: T, s: seq<T>, i: nat, v: T)
    requires Canonical(undef, s)
    ensures Canonical(undef, ArrSet(undef, s, i, v))
    ensures forall j: nat :: ArrGet(undef, ArrSet(undef, s, i, v), j) ==
                             if v != undef && j == i then v else ArrGet(undef, s, j)
    ensures v != undef ==> ArrSet(undef, s, i, v) == Pad(undef, s, i + 1)[i := v]
  {
    if v != undef {
      var p := Pad(undef, s, i + 1)[i := v];
      assert Canonical(undef, p);
      assert Trim(undef, p) == p;
      forall j: nat ensures ArrGet(undef, p, j) == if j == i then v else ArrGet(undef, s, j) {
      }
    }
  }

  /** What a run of consecutive stores leaves at every index. */
  lemma {:induction false} ArrFillGet<T>(undef: T, s: seq<T>, i: nat, vs: seq<T>)
    requires Canonical(undef, s)
    ensures Canonical(undef, ArrFill(undef, s, i, vs))
    ensures forall j: nat :: ArrGet(undef, ArrFill(undef, s, i, vs), j) ==
                             if i <= j < i + |vs| && vs[j - i] != undef then vs[j - i] else ArrGet(undef, s, j)
    decreases |vs|
  {
    if vs != [] {
      ArrSetGet(undef, s, i, vs[0]);
      ArrFillGet(undef, ArrSet(undef, s, i, vs[0]), i + 1, vs[1..]);
    }
  }

  /** Filling an empty array keeps the values up to the last defined one, holes included. */
  lemma ArrFillIsTrim<T>(undef: T, vs: seq<T>)
    ensures ArrFill(undef, [], 0, vs) == Trim(undef, vs)
  {
    ArrFillGet(undef, [], 0, vs);
    forall i: nat ensures ArrGet(undef, ArrFill(undef, [], 0, vs), i) == ArrGet(undef, Trim(undef, vs), i) {
      TrimGet(undef, vs, i);
    }
    CanonicalUnique(undef, ArrFill(undef, [], 0, vs), Trim(undef, vs));
  }

  /** Copying a canonical array cell by cell (`arr_dup`) gives back the same array. */
  lemma ArrDupIsIdentity<T>(undef: T, s: seq<T>)
    requires Canonical(undef, s)
    ensures ArrFill(undef, [], 0, s) == s
  {
    ArrFillIsTrim(undef, s);
  }

  /** Concatenation is the first array followed by the defined cells of the second, in order. */
  lemma {:induction false} ArrAddIsConcat<T>(undef: T, s: seq<T>, t: seq<T>)
    requires Canonical(undef, s)
    ensures ArrAdd(undef, s, t) == s + Defined(undef, t)
    ensures Canonical(undef, ArrAdd(undef, s, t))
    decreases |t|
  {
    if t != [] {
      var s' := ArrSet(undef, s, |s|, t[0]);
      var rest := Defined(undef, t[1..]);
      assert Canonical(undef, s') && s' == s + if t[0] == undef then [] else [t[0]] by {
        ArrSetGet(undef, s, |s|, t[0]);
      }
      hide ArrSet, Canonical;
      ArrAddIsConcat(undef, s', t[1..]);
      assert s' + rest == s + Defined(undef, t);
    }
  }
}
