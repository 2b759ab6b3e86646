/** Run-time values and the operations on them (vm/val/val.c and the per-type files).  Numbers and
    strings are immutable in the modelled fragment, so only arrays live in the store. */
module Values {
  import opened Arrays

  datatype Val = Undef | Num(n: int) | Str(s: string) | Ref(a: nat)

  /** What the console natives see and change. */
  datatype World = World(input: seq<string>, output: seq<string>)

  datatype Mem = Mem(arrs: map<nat, seq<Val>>, next: nat, world: World) {
    function Cells(a: nat): seq<Val> {
      if a in arrs then arrs[a] else []
    }

    function Store(a: nat, cells: seq<Val>): Mem {
      this.(arrs := arrs[a := cells])
    }

    function Alloc(cells: seq<Val>): Mem {
      this.(arrs := arrs[next := cells], next := next + 1)
    }
  }

  /** `Undefined` stands for behaviour the C standard leaves undefined: signed overflow, division by
      zero, a negative index, and the buffer overrun of a string index assignment. */
  datatype ValResult = Value(v: Val, mem: Mem) | Undefined

  const INT_MIN: int := -0x8000_0000
  const INT_MAX: int := 0x7FFF_FFFF

  function Int(n: int, mem: Mem): ValResult {
    if INT_MIN <= n <= INT_MAX then Value(Num(n), mem) else Undefined
  }

  function Truth(b: bool): Val {
    Num(if b then 1 else 0)
  }

  function ToBool(v: Val, mem: Mem): bool {
    match v
    case Undef => false
    case Num(n) => n != 0
    case Str(s) => s != ""
    case Ref(a) => mem.Cells(a) != []
  }

  /** C division truncates toward zero. */
  function TruncDiv(a: int, b: int): int
    requires b != 0
  {
    var q := Abs(a) / Abs(b);
    if (a < 0) == (b < 0) then q else -q
  }

  function Abs(n: int): nat {
    if n < 0 then -n else n
  }

  /** The remainder is smaller than the divisor and has the sign of the dividend. */
  lemma TruncDivIs(a: int, b: int)
    requires b != 0
    ensures var r := a - TruncDiv(a, b) * b;
            Abs(r) < Abs(b) && (r > 0 ==> a > 0) && (r < 0 ==> a < 0)
  {
    hide TruncDiv, Abs;
    NonZero(b);
    var q := Abs(a) / Abs(b);
    var t, p, m := TruncDiv(a, b), q * Abs(b), Abs(a) % Abs(b);
    DivMod(Abs(a), Abs(b));
    SignedQuotient(a, b);
    Product((a < 0) != (b < 0), b, q);
    assert t * b == if a < 0 then -p else p;
    Remainder(a, b, p, m, t * b);
  }

  lemma NonZero(b: int)
    ensures b != 0 ==> Abs(b) > 0
  {
  }

  lemma Remainder(a: int, b: int, p: int, m: int, u: int)
    requires Abs(a) == p + m && 0 <= m < Abs(b) && p >= 0 && u == if a < 0 then -p else p
    ensures Abs(a - u) < Abs(b) && (a - u > 0 ==> a > 0) && (a - u < 0 ==> a < 0)
  {
  }

  lemma SignedQuotient(a: int, b: int)
    requires b != 0
    ensures TruncDiv(a, b) == if (a < 0) == (b < 0) then Abs(a) / Abs(b) else -(Abs(a) / Abs(b))
  {
  }

  lemma Product(negate: bool, b: int, q: int)
    ensures (if negate then -q else q) * b == if negate == (b < 0) then q * Abs(b) else -(q * Abs(b))
  {
    Signs(q, Abs(b));
  }

  lemma DivMod(x: nat, y: nat)
    requires y > 0
    ensures x == x / y * y + x % y && 0 <= x % y < y && 0 <= x / y * y
  {
  }

  lemma Signs(q: int, y: int)
    ensures -q * y == -(q * y) && q * -y == -(q * y) && -q * -y == q * y
  {
  }

  function DigitsOf(n: nat): string {
    if n < 10 then ["0123456789"[n]] else DigitsOf(n / 10) + ["0123456789"[n % 10]]
  }

  function IntText(n: int): string {
    if n < 0 then "-" + DigitsOf(-n) else DigitsOf(n)
  }

  /** `v_str_conv`. */
  function ToText(v: Val): string {
    match v
    case Str(s) => s
    case Num(n) => IntText(n)
    case _ => "N/A"
  }

  function Repeated(s: string, n: nat): string {
    if n == 0 then "" else s + Repeated(s, n - 1)
  }

  function Joined(cells: seq<Val>, sep: string): string {
    if cells == [] then ""
    else if |cells| == 1 then ToText(cells[0])
    else ToText(cells[0]) + sep + Joined(cells[1..], sep)
  }

  function ValAdd(v1: Val, v2: Val, mem: Mem): ValResult {
    match v1
    case Str(s) => Value(if v2.Str? then Str(s + v2.s) else Undef, mem)
    case Num(n) => if v2.Num? then Int(n + v2.n, mem) else Value(Undef, mem)
    case Ref(a) =>
      var dup := ArrFill(Undef, [], 0, mem.Cells(a));
      var sum := if v2.Ref? then ArrAdd(Undef, dup, mem.Cells(v2.a)) else ArrPush(Undef, dup, v2);
      Value(Ref(mem.next), mem.Alloc(sum))
    case Undef => Value(Undef, mem)
  }

  function ValSub(v1: Val, v2: Val, mem: Mem): ValResult {
    if v1.Num? && v2.Num? then Int(v1.n - v2.n, mem) else Value(Undef, mem)
  }

  function ValMul(v1: Val, v2: Val, mem: Mem): ValResult {
    match v1
    case Str(s) =>
      if !v2.Num? then Value(Undef, mem)
      else if v2.n < 0 then Undefined
      else Value(Str(Repeated(s, v2.n)), mem)
    case Num(n) => if v2.Num? then Int(n * v2.n, mem) else Value(Undef, mem)
    case Ref(a) => Value(if v2.Str? then Str(Joined(mem.Cells(a), v2.s)) else Undef, mem)
    case Undef => Value(Undef, mem)
  }

  function ValDiv(v1: Val, v2: Val, mem: Mem): ValResult {
    if v1.Num? && v2.Num? then
      if v2.n == 0 then Undefined else Int(TruncDiv(v1.n, v2.n), mem)
    else Value(Undef, mem)
  }

  function ValNeg(v: Val, mem: Mem): ValResult {
    if v.Num? then Int(-v.n, mem) else Value(Undef, mem)
  }

  /** Lexicographic order of byte strings: negative, zero or positive. */
  function StrCmp(s: string, t: string): int {
    if s == "" then (if t == "" then 0 else -1)
    else if t == "" then 1
    else if s[0] != t[0] then (if s[0] < t[0] then -1 else 1)
    else StrCmp(s[1..], t[1..])
  }

  /** `val_cmp`: values of different types, undef and arrays all compare "less". */
  function ValCmp(v1: Val, v2: Val): int {
    if v1.Num? && v2.Num? then v1.n - v2.n
    else if v1.Str? && v2.Str? then StrCmp(v1.s, v2.s)
    else -1
  }

  /** The difference `val_cmp` takes may overflow. */
  predicate CmpDefined(v1: Val, v2: Val) {
    v1.Num? && v2.Num? ==> INT_MIN <= v1.n - v2.n <= INT_MAX
  }

  datatype BinOp = Plus | Minus | Times | Over | Less | Equal | NotEqual

  function Binary(op: BinOp, v1: Val, v2: Val, mem: Mem): ValResult {
    match op
    case Plus => ValAdd(v1, v2, mem)
    case Minus => ValSub(v1, v2, mem)
    case Times => ValMul(v1, v2, mem)
    case Over => ValDiv(v1, v2, mem)
    case Less => if CmpDefined(v1, v2) then Value(Truth(ValCmp(v1, v2) < 0), mem) else Undefined
    case Equal => if CmpDefined(v1, v2) then Value(Truth(ValCmp(v1, v2) == 0), mem) else Undefined
    case NotEqual => if CmpDefined(v1, v2) then Value(Truth(ValCmp(v1, v2) != 0), mem) else Undefined
  }

  /** `val_index`. */
  function ValIndex(v: Val, i: Val, mem: Mem): ValResult {
    match v
    case Ref(a) =>
      if !i.Num? then Value(Undef, mem)
      else if i.n < 0 then Undefined
      else Value(ArrGet(Undef, mem.Cells(a), i.n), mem)
    case Str(s) =>
      if !i.Num? then Value(Undef, mem)
      else if i.n < 0 then Undefined
      else Value(Str(if i.n < |s| then [s[i.n]] else ""), mem)
    case _ => Value(Undef, mem)
  }

  /** `val_index_assign`; the value of the whole assignment is `v` itself. */
  function ValIndexAssign(x: Val, i: Val, v: Val, mem: Mem): ValResult {
    match x
    case Ref(a) =>
      if !i.Num? || v.Undef? then Value(v, mem)
      else if i.n < 0 then Undefined
      else Value(v, mem.Store(a, ArrSet(Undef, mem.Cells(a), i.n, v)))
    case Str(_) => if i.Num? then Undefined else Value(v, mem)
    case _ => Value(v, mem)
  }

  function MakeArray(vs: seq<Val>, mem: Mem): ValResult {
    Value(Ref(mem.next), mem.Alloc(ArrFill(Undef, [], 0, vs)))
  }

  /** What a native function may do with its argument array. */
  datatype NativeResult = Returns(v: Val, mem: Mem) | Missing | Exits(mem: Mem) | Crashes

  type Natives = (string, seq<Val>, Mem) -> NativeResult

  /** String comparison is zero exactly on equal strings. */
  lemma {:induction false} StrCmpZero(s: string, t: string)
    ensures StrCmp(s, t) == 0 <==> s == t
    ensures StrCmp(s, t) < 0 <==> StrCmp(t, s) > 0
  {
    if s != "" && t != "" {
      StrCmpZero(s[1..], t[1..]);
      assert s == [s[0]] + s[1..] && t == [t[0]] + t[1..];
    }
  }
}
