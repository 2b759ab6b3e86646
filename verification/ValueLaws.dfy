/** What the value operations compute, in terms of numbers, characters and elements.  Interpreter and
    machine share these operations, so their agreement says nothing about them. */
module ValueLaws {
  import opened Arrays
  import opened Values

  predicate CInt(n: int) {
    INT_MIN <= n <= INT_MAX
  }

  // ----- sums and differences -----

  /** The number `a` moved by one, `n` times. */
  function Counted(a: Val, n: nat, unit: Val, mem: Mem): ValResult {
    if n == 0 then Value(a, mem)
    else
      match Counted(a, n - 1, unit, mem)
      case Value(v, m) => ValAdd(v, unit, m)
      case Undefined => Undefined
  }

  lemma AddUnits(a: int, mem: Mem)
    requires CInt(a)
    ensures ValAdd(Num(a), Num(1), mem) == if a < INT_MAX then Value(Num(a + 1), mem) else Undefined
    ensures ValAdd(Num(a), Num(-1), mem) == if a > INT_MIN then Value(Num(a - 1), mem) else Undefined
  {
  }

  lemma {:induction false} CountedIs(a: int, n: nat, up: bool, mem: Mem)
    requires CInt(a)
    ensures var b := if up then a + n else a - n;
            Counted(Num(a), n, Num(if up then 1 else -1), mem) == if CInt(b) then Value(Num(b), mem) else Undefined
  {
    if n > 0 {
      CountedIs(a, n - 1, up, mem);
      var c := if up then a + (n - 1) else a - (n - 1);
      if CInt(c) { AddUnits(c, mem); }
    }
  }

  /** Adding is counting: up or down by one, as many times as the second number says, and undefined exactly
      when counting leaves the C ints. */
  lemma SumIsCounting(a: int, b: int, mem: Mem)
    requires CInt(a) && CInt(b)
    ensures ValAdd(Num(a), Num(b), mem) == Counted(Num(a), Abs(b), Num(if b < 0 then -1 else 1), mem)
    ensures ValAdd(Num(a), Num(0), mem) == Value(Num(a), mem)
  {
    CountedIs(a, Abs(b), b >= 0, mem);
  }

  /** A difference added to what was subtracted gives the first number back; it is defined exactly when it
      is a C int. */
  lemma DifferenceAddsBack(a: int, b: int, mem: Mem)
    requires CInt(a) && CInt(b)
    ensures ValSub(Num(a), Num(b), mem).Value? <==> CInt(a - b)
    ensures var r := ValSub(Num(a), Num(b), mem);
            r.Value? ==> r.mem == mem && r.v.Num? && CInt(r.v.n) && ValAdd(r.v, Num(b), mem) == Value(Num(a), mem)
    ensures ValSub(Num(a), Num(0), mem) == Value(Num(a), mem)
  {
  }

  /** The opposite of a number is what adds to 0; INT_MIN alone has none. */
  lemma OppositeCancels(a: int, mem: Mem)
    requires CInt(a)
    ensures ValNeg(Num(a), mem) == Undefined <==> a == INT_MIN
    ensures var r := ValNeg(Num(a), mem);
            r.Value? ==> r.mem == mem && ValAdd(Num(a), r.v, mem) == Value(Num(0), mem)
  {
  }

  // ----- products and quotients -----

  /** A product is a repeated sum, in both directions from 0. */
  lemma ProductSteps(a: int, b: int, mem: Mem)
    requires CInt(a) && CInt(b) && CInt(b + 1)
    ensures ValMul(Num(a), Num(0), mem) == Value(Num(0), mem)
    ensures ValMul(Num(a), Num(b), mem).Value? <==> CInt(a * b)
    ensures var r, next := ValMul(Num(a), Num(b), mem), ValMul(Num(a), Num(b + 1), mem);
            r.Value? && next.Value? ==> r.mem == mem && next == ValAdd(r.v, Num(a), mem)
  {
    assert a * (b + 1) == a * b + a;
  }

  lemma QuotientBound(a: int, b: int)
    requires b != 0
    ensures Abs(TruncDiv(a, b)) <= Abs(a)
    ensures Abs(b) >= 2 && a != 0 ==> Abs(TruncDiv(a, b)) < Abs(a)
    ensures (b == 1 ==> TruncDiv(a, b) == a) && (b == -1 ==> TruncDiv(a, b) == -a)
  {
    hide TruncDiv, Abs;
    NonZero(b);
    SmallerQuotient(Abs(a), Abs(b));
    SignedQuotient(a, b);
    Unsigned(a, b, Abs(a) / Abs(b), TruncDiv(a, b));
  }

  lemma Unsigned(a: int, b: int, q: int, t: int)
    requires b != 0 && q >= 0 && t == if (a < 0) == (b < 0) then q else -q
    ensures Abs(t) == q && (a != 0 <==> Abs(a) > 0)
    ensures q == Abs(a) ==> (b == 1 ==> t == a) && (b == -1 ==> t == -a)
    ensures b == 1 || b == -1 ==> Abs(b) == 1
  {
  }

  lemma SmallerQuotient(x: nat, y: nat)
    requires y > 0
    ensures 0 <= x / y <= x && (y >= 2 && x > 0 ==> x / y < x) && (y == 1 ==> x / y == x)
  {
    DivMod(x, y);
    Grows(x / y, y);
  }

  lemma Grows(q: nat, y: nat)
    ensures y >= 1 ==> q * y >= q
    ensures y >= 2 ==> q * y >= q + q
  {
  }

  /** Division of the first operand by the second: what is left is smaller than the divisor and has the
      dividend's sign; undefined exactly for a zero divisor and for INT_MIN by -1. */
  lemma QuotientLeaves(a: int, b: int, mem: Mem)
    requires CInt(a) && CInt(b)
    ensures ValDiv(Num(a), Num(b), mem) == Undefined <==> b == 0 || (a == INT_MIN && b == -1)
    ensures var r := ValDiv(Num(a), Num(b), mem);
            r.Value? ==> r.mem == mem && r.v.Num? &&
                         var rest := a - r.v.n * b;
                         Abs(rest) < Abs(b) && (rest > 0 ==> a > 0) && (rest < 0 ==> a < 0)
  {
    if b != 0 {
      QuotientBound(a, b);
      TruncDivIs(a, b);
    }
  }

  // ----- strings -----

  /** Joined strings: the characters of the first, then those of the second. */
  lemma ConcatIs(s: string, t: string, mem: Mem)
    ensures exists u ::
              && ValAdd(Str(s), Str(t), mem) == Value(Str(u), mem) && |u| == |s| + |t|
              && (forall i :: 0 <= i < |s| ==> u[i] == s[i])
              && (forall i :: 0 <= i < |t| ==> u[|s| + i] == t[i])
  {
    var u := s + t;
    assert ValAdd(Str(s), Str(t), mem) == Value(Str(u), mem);
  }

  lemma {:induction false} RepeatedStep(s: string, n: nat)
    ensures Repeated(s, n + 1) == Repeated(s, n) + s
  {
    if n > 0 {
      RepeatedStep(s, n - 1);
      assert s + (Repeated(s, n - 1) + s) == s + Repeated(s, n - 1) + s;
    } else {
      assert s + "" == "" + s;
    }
  }

  /** A string times a number is the string joined to itself that often. */
  lemma CopiesStep(s: string, n: nat, mem: Mem)
    ensures ValMul(Str(s), Num(0), mem) == Value(Str(""), mem)
    ensures ValMul(Str(s), Num(n), mem).Value?
    ensures ValMul(Str(s), Num(n + 1), mem) == ValAdd(ValMul(Str(s), Num(n), mem).v, Str(s), mem)
  {
    RepeatedStep(s, n);
  }

  /** The results of indexing at 0 .. n - 1, one after the other. */
  function Pieces(s: string, n: nat, mem: Mem): string {
    if n == 0 then "" else Pieces(s, n - 1, mem) + TextOf(ValIndex(Str(s), Num(n - 1), mem))
  }

  function TextOf(r: ValResult): string {
    if r.Value? && r.v.Str? then r.v.s else ""
  }

  lemma {:induction false} PiecesAre(s: string, n: nat, mem: Mem)
    requires n <= |s|
    ensures Pieces(s, n, mem) == s[..n]
  {
    if n > 0 {
      PiecesAre(s, n - 1, mem);
      assert s[..n - 1] + [s[n - 1]] == s[..n];
    }
  }

  /** Indexing a string gives its characters: one at each index below the length, together the string, and
      the empty string at every other. */
  lemma StringElements(s: string, mem: Mem)
    ensures Pieces(s, |s|, mem) == s
    ensures forall k :: 0 <= k < |s| ==> |TextOf(ValIndex(Str(s), Num(k), mem))| == 1
    ensures forall k :: k >= |s| ==> ValIndex(Str(s), Num(k), mem) == Value(Str(""), mem)
  {
    PiecesAre(s, |s|, mem);
    assert s[..|s|] == s;
  }

  lemma {:induction false} JoinedSplits(xs: seq<Val>, ys: seq<Val>, sep: string)
    requires xs != [] && ys != []
    ensures Joined(xs + ys, sep) == Joined(xs, sep) + sep + Joined(ys, sep)
    decreases |xs|
  {
    hide ToText;
    assert (xs + ys)[0] == xs[0] && (xs + ys)[1..] == xs[1..] + ys;
    if |xs| == 1 {
      assert xs[1..] + ys == ys;
    } else {
      JoinedSplits(xs[1..], ys, sep);
      var t, u, v := ToText(xs[0]), Joined(xs[1..], sep), Joined(ys, sep);
      assert t + sep + (u + sep + v) == t + sep + u + sep + v;
    }
  }

  /** An array times a string is the texts of its cells with the string between any two and nowhere else. */
  lemma JoinSeparates(a: nat, b: nat, c: nat, sep: string, mem: Mem)
    requires mem.Cells(c) == mem.Cells(a) + mem.Cells(b) && mem.Cells(a) != [] && mem.Cells(b) != []
    ensures var r, q := ValMul(Ref(a), Str(sep), mem), ValMul(Ref(b), Str(sep), mem);
            ValMul(Ref(c), Str(sep), mem) == Value(Str(TextOf(r) + sep + TextOf(q)), mem)
  {
    JoinedSplits(mem.Cells(a), mem.Cells(b), sep);
  }

  /** The text of one cell: a string is its own, a number's is its decimal digits behind any minus sign. */
  lemma JoinFew(a: nat, sep: string, mem: Mem)
    ensures mem.Cells(a) == [] ==> ValMul(Ref(a), Str(sep), mem) == Value(Str(""), mem)
    ensures forall s :: mem.Cells(a) == [Str(s)] ==> ValMul(Ref(a), Str(sep), mem) == Value(Str(s), mem)
    ensures forall n: nat :: mem.Cells(a) == [Num(n)] ==>
              ValMul(Ref(a), Str(sep), mem) == Value(Str(DigitsOf(n)), mem)
    ensures forall n: int :: n < 0 && mem.Cells(a) == [Num(n)] ==>
              ValMul(Ref(a), Str(sep), mem) == Value(Str("-" + DigitsOf(-n)), mem)
    ensures forall v: Val :: (v.Undef? || v.Ref?) && mem.Cells(a) == [v] ==>
              ValMul(Ref(a), Str(sep), mem) == Value(Str("N/A"), mem)
  {
  }

  // ----- comparisons -----

  /** The first string is a proper prefix of the second or has the smaller character at the first
      difference. */
  ghost predicate Before(s: string, t: string) {
    exists k: nat :: DiffersFrom(s, t, k)
  }

  predicate DiffersFrom(s: string, t: string, k: nat) {
    && k <= |s| && k < |t|
    && (forall i :: 0 <= i < k ==> s[i] == t[i])
    && (k < |s| ==> s[k] < t[k])
  }

  lemma {:induction false} StrCmpBefore(s: string, t: string)
    ensures StrCmp(s, t) < 0 <==> Before(s, t)
  {
    if s == "" || t == "" || s[0] != t[0] {
      if StrCmp(s, t) < 0 { assert DiffersFrom(s, t, 0); }
    } else {
      StrCmpBefore(s[1..], t[1..]);
      if Before(s[1..], t[1..]) {
        var k: nat :| DiffersFrom(s[1..], t[1..], k);
        assert DiffersFrom(s, t, k + 1);
      }
      if Before(s, t) {
        var k: nat :| DiffersFrom(s, t, k);
        assert k > 0;
        assert DiffersFrom(s[1..], t[1..], k - 1);
      }
    }
  }

  /** The three comparisons on numbers and on strings; the difference of two numbers may overflow. */
  lemma ComparisonsAre(a: int, b: int, s: string, t: string, mem: Mem)
    requires CInt(a) && CInt(b)
    ensures forall op :: op in {Less, Equal, NotEqual} ==>
              (Binary(op, Num(a), Num(b), mem) == Undefined <==> !CInt(a - b))
    ensures CInt(a - b) ==>
              && Binary(Less, Num(a), Num(b), mem) == Value(Num(if a < b then 1 else 0), mem)
              && Binary(Equal, Num(a), Num(b), mem) == Value(Num(if a == b then 1 else 0), mem)
              && Binary(NotEqual, Num(a), Num(b), mem) == Value(Num(if a != b then 1 else 0), mem)
    ensures Binary(Less, Str(s), Str(t), mem) == Value(Num(if Before(s, t) then 1 else 0), mem)
    ensures Binary(Equal, Str(s), Str(t), mem) == Value(Num(if s == t then 1 else 0), mem)
    ensures Binary(NotEqual, Str(s), Str(t), mem) == Value(Num(if s != t then 1 else 0), mem)
  {
    StrCmpBefore(s, t);
    StrCmpZero(s, t);
    hide StrCmp;
  }

  predicate Comparable(v: Val, w: Val) {
    (v.Num? && w.Num?) || (v.Str? && w.Str?)
  }

  /** Everything that is not comparable is "less" and unequal, in both directions. */
  lemma Incomparable(v: Val, w: Val, mem: Mem)
    requires !Comparable(v, w)
    ensures Binary(Less, v, w, mem) == Value(Num(1), mem)
    ensures Binary(NotEqual, v, w, mem) == Value(Num(1), mem)
    ensures Binary(Equal, v, w, mem) == Value(Num(0), mem)
  {
  }

  predicate Holds(op: BinOp, v: Val, w: Val, mem: Mem) {
    Binary(op, v, w, mem) == Value(Num(1), mem)
  }

  /** Exactly one of less, equal and greater holds of comparable values. */
  lemma Trichotomy(v: Val, w: Val, mem: Mem)
    requires Comparable(v, w) && Binary(Less, v, w, mem).Value? && Binary(Less, w, v, mem).Value?
    ensures Holds(Less, v, w, mem) || Holds(Equal, v, w, mem) || Holds(Less, w, v, mem)
    ensures !(Holds(Less, v, w, mem) && Holds(Equal, v, w, mem))
    ensures !(Holds(Less, w, v, mem) && Holds(Equal, v, w, mem))
    ensures !(Holds(Less, v, w, mem) && Holds(Less, w, v, mem))
    ensures Holds(Equal, v, w, mem) == Holds(Equal, w, v, mem) != Holds(NotEqual, v, w, mem)
  {
    if v.Str? {
      StrCmpZero(v.s, w.s);
      StrCmpZero(w.s, v.s);
      hide StrCmp;
    }
  }

  // ----- arrays -----

  /** What an array shows at an index. */
  function At(a: nat, k: nat, mem: Mem): Val {
    ValIndex(Ref(a), Num(k), mem).v
  }

  /** Indexing changes nothing; only arrays and strings have elements, and only at numbers. */
  lemma IndexReads(a: nat, k: nat, v: Val, i: Val, mem: Mem)
    ensures ValIndex(Ref(a), Num(k), mem) == Value(At(a, k, mem), mem)
    ensures ValIndex(v, i, mem) == Value(Undef, mem) <==>
            (!v.Ref? && !v.Str?) || !i.Num? || (v.Ref? && i.n >= 0 && At(v.a, i.n, mem) == Undef)
    ensures ValIndex(v, i, mem) == Undefined <==> (v.Ref? || v.Str?) && i.Num? && i.n < 0
  {
  }

  /** A new array gives its elements back, each at its own index from 0, and undef beyond them; no other
      array changes. */
  lemma ArrayElements(vs: seq<Val>, mem: Mem)
    ensures var r := MakeArray(vs, mem);
            && r.Value? && r.v == Ref(mem.next)
            && (forall k: nat :: At(mem.next, k, r.mem) == if k < |vs| then vs[k] else Undef)
            && (forall b: nat, k: nat :: b != mem.next ==> At(b, k, r.mem) == At(b, k, mem))
  {
    ArrFillIsTrim(Undef, vs);
    forall k: nat ensures ArrGet(Undef, ArrFill(Undef, [], 0, vs), k) == if k < |vs| then vs[k] else Undef {
      TrimGet(Undef, vs, k);
    }
  }

  /** A store changes the element at its own index of its own array and no other; storing undef changes
      none, and neither does an index that is no number. */
  lemma StoredElement(a: nat, i: nat, v: Val, mem: Mem)
    ensures var r := ValIndexAssign(Ref(a), Num(i), v, mem);
            && r.Value? && r.v == v
            && (forall b: nat, j: nat :: At(b, j, r.mem) ==
                  if v != Undef && b == a && j == i then v else At(b, j, mem))
    ensures forall x: Val :: !x.Num? ==> ValIndexAssign(Ref(a), x, v, mem) == Value(v, mem)
  {
    var s := mem.Cells(a);
    forall j: nat ensures ArrGet(Undef, ArrSet(Undef, s, i, v), j) ==
                          if v != Undef && j == i then v else ArrGet(Undef, s, j) {
      if v != Undef { TrimGet(Undef, Pad(Undef, s, i + 1)[i := v], j); }
    }
  }

  /** Adding to an array makes a new one, the old elements first: then the defined elements of another
      array in order, or the value itself; the operands stay as they were. */
  lemma ArraySum(a: nat, v: Val, mem: Mem)
    requires Canonical(Undef, mem.Cells(a))
    ensures var r := ValAdd(Ref(a), v, mem);
            && r.Value? && r.v == Ref(mem.next)
            && r.mem.Cells(mem.next) == mem.Cells(a) + (if v.Ref? then Defined(Undef, mem.Cells(v.a))
                                                        else if v == Undef then [] else [v])
            && (forall b: nat :: b != mem.next ==> r.mem.Cells(b) == mem.Cells(b))
  {
    ArrDupIsIdentity(Undef, mem.Cells(a));
    if v.Ref? { ArrAddIsConcat(Undef, mem.Cells(a), mem.Cells(v.a)); }
  }

  /** No array of the store ends in undef. */
  predicate Trimmed(mem: Mem) {
    forall a :: a in mem.arrs ==> Canonical(Undef, mem.arrs[a])
  }

  predicate LeavesTrimmed(r: ValResult) {
    r.Value? ==> Trimmed(r.mem)
  }

  /** No operation leaves an array that ends in undef. */
  lemma OperationsTrim(op: BinOp, v: Val, w: Val, x: Val, vs: seq<Val>, mem: Mem)
    requires Trimmed(mem)
    ensures LeavesTrimmed(Binary(op, v, w, mem)) && LeavesTrimmed(ValNeg(v, mem)) && LeavesTrimmed(ValIndex(v, w, mem))
    ensures LeavesTrimmed(ValIndexAssign(v, w, x, mem)) && LeavesTrimmed(MakeArray(vs, mem))
  {
    ArrFillGet(Undef, [], 0, vs);
    if op == Plus && v.Ref? { SumTrims(v.a, w, mem); }
    if v.Ref? && w.Num? && w.n >= 0 { ArrSetGet(Undef, mem.Cells(v.a), w.n, x); }
    hide ArrFill, ArrSet, ValAdd, ValMul, ValDiv, ValCmp, Canonical;
  }

  lemma SumTrims(a: nat, v: Val, mem: Mem)
    requires Trimmed(mem)
    ensures LeavesTrimmed(ValAdd(Ref(a), v, mem))
  {
    var cells := mem.Cells(a);
    ArrDupIsIdentity(Undef, cells);
    if v.Ref? { ArrAddIsConcat(Undef, cells, mem.Cells(v.a)); }
    hide ArrFill, ArrAdd;
  }

  // ----- truth and types -----

  /** False are undef, 0, the empty string and the array that shows nothing but undef. */
  lemma TruthIs(v: Val, mem: Mem)
    requires v.Ref? ==> Canonical(Undef, mem.Cells(v.a))
    ensures !ToBool(v, mem) <==>
            || v == Undef || v == Num(0) || v == Str("")
            || (v.Ref? && forall k: nat :: At(v.a, k, mem) == Undef)
  {
    if v.Ref? && mem.Cells(v.a) != [] {
      var k := |mem.Cells(v.a)| - 1;
      assert At(v.a, k, mem) != Undef;
    }
  }

  /** The operands an operation has a meaning for. */
  predicate Meant(op: BinOp, v: Val, w: Val) {
    match op
    case Plus => (v.Num? && w.Num?) || (v.Str? && w.Str?) || v.Ref?
    case Minus => v.Num? && w.Num?
    case Times => (v.Num? && w.Num?) || (v.Str? && w.Num?) || (v.Ref? && w.Str?)
    case Over => v.Num? && w.Num?
    case _ => true
  }

  /** On all others the result is undef, and the store is as it was. */
  lemma UndefExactly(op: BinOp, v: Val, w: Val, mem: Mem)
    ensures Binary(op, v, w, mem) == Value(Undef, mem) <==> !Meant(op, v, w)
    ensures !Meant(op, v, w) || (op != Plus || !v.Ref?) ==>
              Binary(op, v, w, mem) == Undefined || Binary(op, v, w, mem).mem == mem
  {
  }
}
