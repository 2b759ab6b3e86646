/** The binary form of values and programs (vm/val/val.c, arr.c, map.c, str.c, num.c; vm/prog.c). */
module Serial {
  import opened Arrays
  import opened Trees
  import opened Values

  const T_UNDEF := 0
  const T_STR := 1
  const T_NUM := 2
  const T_ARR := 4
  const T_MAP := 5

  // ----- integers -----

  /** `write_int`: the four bytes of a C int, least significant first. */
  function IntBytes(i: int): (r: seq<byte>)
    requires INT_MIN <= i <= INT_MAX
    ensures |r| == 4
  {
    var u := if i < 0 then i + 0x1_0000_0000 else i;
    [(u % 0x100) as byte, (u / 0x100 % 0x100) as byte, (u / 0x1_0000 % 0x100) as byte, (u / 0x100_0000) as byte]
  }

  /** `read_int`. */
  function BytesInt(b: seq<byte>): (i: int)
    requires |b| == 4
    ensures INT_MIN <= i <= INT_MAX
  {
    var u := b[0] as int + 0x100 * (b[1] as int) + 0x1_0000 * (b[2] as int) + 0x100_0000 * (b[3] as int);
    if u > INT_MAX then u - 0x1_0000_0000 else u
  }

  lemma IntRoundTrip(i: int)
    requires INT_MIN <= i <= INT_MAX
    ensures BytesInt(IntBytes(i)) == i
  {
    var u := if i < 0 then i + 0x1_0000_0000 else i;
    assert u == u % 0x100 + 0x100 * (u / 0x100);
    assert u / 0x100 == u / 0x100 % 0x100 + 0x100 * (u / 0x100 / 0x100);
    assert u / 0x100 / 0x100 == u / 0x1_0000;
    assert u / 0x1_0000 == u / 0x1_0000 % 0x100 + 0x100 * (u / 0x1_0000 / 0x100);
    assert u / 0x1_0000 / 0x100 == u / 0x100_0000;
  }

  // ----- writing -----

  /** Every number and every length is a C int. */
  predicate Fits(v: Tree)
    decreases v
  {
    match v
    case TUndef => true
    case TStr(s) => |s| <= INT_MAX
    case TNum(n) => INT_MIN <= n <= INT_MAX
    case TArr(cells) => |cells| <= INT_MAX && forall i :: 0 <= i < |cells| ==> Fits(cells[i])
    case TMap(es) =>
      |es| <= INT_MAX && forall i :: 0 <= i < |es| ==> Fits(es[i].key) && Fits(es[i].val)
  }

  predicate AllFit(cells: seq<Tree>) {
    forall i :: 0 <= i < |cells| ==> Fits(cells[i])
  }

  predicate EntriesFit(es: seq<Entry>) {
    forall i :: 0 <= i < |es| ==> Fits(es[i].key) && Fits(es[i].val)
  }

  /** `val_serialize`. */
  function Bytes(v: Tree): (r: seq<byte>)
    requires Fits(v)
    decreases v
  {
    match v
    case TUndef => IntBytes(T_UNDEF)
    case TStr(s) => IntBytes(T_STR) + IntBytes(|s|) + s
    case TNum(n) => IntBytes(T_NUM) + IntBytes(n)
    case TArr(cells) => IntBytes(T_ARR) + IntBytes(|cells|) + CellsBytes(cells)
    case TMap(es) => IntBytes(T_MAP) + IntBytes(|es|) + EntriesBytes(es)
  }

  /** A number's four bytes by place value: the byte at place k counts 256^k, and the last one is signed. */
  lemma BytePlaces(i: int)
    requires INT_MIN <= i <= INT_MAX
    ensures var b := IntBytes(i);
            var high := if b[3] >= 128 then b[3] as int - 256 else b[3] as int;
            i == b[0] as int + 256 * b[1] as int + 256 * 256 * b[2] as int + 256 * 256 * 256 * high
  {
    IntRoundTrip(i);
  }

  /** Every value begins with its type, as numbered by the enumeration: undef 0, string 1, number 2,
      array 4, map 5. */
  lemma TypeTag(v: Tree)
    requires Fits(v)
    ensures |Bytes(v)| >= 4
    ensures Bytes(v)[..4] ==
            [match v case TUndef => 0 case TStr(_) => 1 case TNum(_) => 2 case TArr(_) => 4 case TMap(_) => 5, 0, 0, 0]
  {
    var tag := match v case TUndef => 0 case TStr(_) => 1 case TNum(_) => 2 case TArr(_) => 4 case TMap(_) => 5;
    assert IntBytes(tag) == [tag as byte, 0, 0, 0];
    hide IntBytes, CellsBytes, EntriesBytes;
    assert IntBytes(tag) <= Bytes(v);
  }

  function CellsBytes(cells: seq<Tree>): seq<byte>
    requires AllFit(cells)
    decreases cells
  {
    if cells == [] then [] else Bytes(cells[0]) + CellsBytes(cells[1..])
  }

  function EntriesBytes(es: seq<Entry>): seq<byte>
    requires EntriesFit(es)
    decreases es
  {
    if es == [] then [] else EntryBytes(es[0]) + EntriesBytes(es[1..])
  }

  function EntryBytes(e: Entry): seq<byte>
    requires Fits(e.key) && Fits(e.val)
    decreases e
  {
    Bytes(e.key) + Bytes(e.val)
  }

  // ----- reading -----

  /** `Broken` is a failed read at the end of the file or a header the reader has no meaning for: an
      unknown type, a real, or a negative string length. */
  datatype Got = Got(v: Tree, rest: seq<byte>) | Broken

  datatype GotInt = GotInt(i: int, rest: seq<byte>) | NoInt

  function ReadInt(b: seq<byte>): (r: GotInt)
    ensures r.GotInt? ==> |r.rest| + 4 == |b| && INT_MIN <= r.i <= INT_MAX
  {
    if |b| < 4 then NoInt else GotInt(BytesInt(b[..4]), b[4..])
  }

  /** `val_deserialize`. */
  function Read(b: seq<byte>): (r: Got)
    ensures r.Got? ==> |r.rest| < |b|
    decreases |b|, 0
  {
    match ReadInt(b)
    case NoInt => Broken
    case GotInt(type_, b1) =>
      if type_ == T_UNDEF || type_ == 6 then Got(TUndef, b1)
      else
        match ReadInt(b1)
        case NoInt => Broken
        case GotInt(n, b2) =>
          if type_ == T_NUM then Got(TNum(n), b2)
          else if type_ == T_STR then
            if 0 <= n <= |b2| then Got(TStr(b2[..n]), b2[n..]) else Broken
          else if type_ == T_ARR then ReadCells(0, n, [], b2)
          else if type_ == T_MAP then ReadEntries(0, n, [], b2)
          else Broken
  }

  /** The loop of `v_arr_deserialize`: each value is stored with `arr_set` at its index. */
  function ReadCells(i: nat, size: int, acc: seq<Tree>, b: seq<byte>): (r: Got)
    ensures r.Got? ==> |r.rest| <= |b|
    decreases |b|, 1
  {
    if i >= size then Got(TArr(acc), b)
    else
      match Read(b)
      case Broken => Broken
      case Got(v, rest) => ReadCells(i + 1, size, ArrSet(TUndef, acc, i, v), rest)
  }

  /** The loop of `v_map_deserialize`: each pair is stored with `map_set`. */
  function ReadEntries(i: nat, size: int, acc: seq<Entry>, b: seq<byte>): (r: Got)
    ensures r.Got? ==> |r.rest| <= |b|
    decreases |b|, 1
  {
    if i >= size then Got(TMap(acc), b)
    else
      match Read(b)
      case Broken => Broken
      case Got(k, b1) =>
        match Read(b1)
        case Broken => Broken
        case Got(v, rest) => ReadEntries(i + 1, size, MapSet(acc, k, v), rest)
  }

  // ----- what reading rebuilds -----

  /** Every array and map in the tree rebuilt by storing its parts in order. */
  function Rebuilt(v: Tree): Tree
    decreases v
  {
    match v
    case TArr(cells) => TArr(ArrFill(TUndef, [], 0, AllRebuilt(cells)))
    case TMap(es) => TMap(MapFill([], EntriesRebuilt(es)))
    case _ => v
  }

  function AllRebuilt(cells: seq<Tree>): seq<Tree>
    decreases cells
  {
    if cells == [] then [] else [Rebuilt(cells[0])] + AllRebuilt(cells[1..])
  }

  function EntriesRebuilt(es: seq<Entry>): seq<Entry>
    decreases es
  {
    if es == [] then [] else [EntryRebuilt(es[0])] + EntriesRebuilt(es[1..])
  }

  function EntryRebuilt(e: Entry): Entry
    decreases e
  {
    Entry(Rebuilt(e.key), Rebuilt(e.val))
  }

  /** What `arr_set` and `map_set` can build: arrays that do not end in undef, and maps with distinct
      keys, undef as a key only last, and no undef values, all the way down. */
  predicate Built(v: Tree)
    decreases v
  {
    match v
    case TArr(cells) => Canonical(TUndef, cells) && AllBuilt(cells)
    case TMap(es) => MapOk(es) && EntriesBuilt(es)
    case _ => true
  }

  predicate AllBuilt(cells: seq<Tree>)
    decreases cells
  {
    cells != [] ==> Built(cells[0]) && AllBuilt(cells[1..])
  }

  predicate EntriesBuilt(es: seq<Entry>)
    decreases es
  {
    es != [] ==> EntryBuilt(es[0]) && EntriesBuilt(es[1..])
  }

  predicate EntryBuilt(e: Entry)
    decreases e
  {
    Built(e.key) && Built(e.val)
  }

  lemma IntThen(i: int, rest: seq<byte>)
    requires INT_MIN <= i <= INT_MAX
    ensures ReadInt(IntBytes(i) + rest) == GotInt(i, rest)
  {
    IntRoundTrip(i);
    assert (IntBytes(i) + rest)[..4] == IntBytes(i) && (IntBytes(i) + rest)[4..] == rest;
  }

  lemma HeaderThen(t: int, n: int, rest: seq<byte>)
    requires INT_MIN <= t <= INT_MAX && INT_MIN <= n <= INT_MAX
    ensures ReadInt(IntBytes(t) + IntBytes(n) + rest) == GotInt(t, IntBytes(n) + rest)
    ensures ReadInt(IntBytes(n) + rest) == GotInt(n, rest)
  {
    assert IntBytes(t) + IntBytes(n) + rest == IntBytes(t) + (IntBytes(n) + rest);
    IntThen(t, IntBytes(n) + rest);
    IntThen(n, rest);
  }

  /** Reading what was written, with any bytes after it, gives the rebuilt value and leaves those bytes. */
  lemma {:induction false} ReadBytes(v: Tree, rest: seq<byte>)
    requires Fits(v)
    ensures Read(Bytes(v) + rest) == Got(Rebuilt(v), rest)
    decreases v
  {
    hide IntBytes, BytesInt, ReadInt, ArrFill, MapFill;
    match v
    case TUndef => IntThen(T_UNDEF, rest);
    case TNum(n) =>
      HeaderThen(T_NUM, n, rest);
    case TStr(s) =>
      assert Bytes(v) + rest == IntBytes(T_STR) + IntBytes(|s|) + (s + rest);
      HeaderThen(T_STR, |s|, s + rest);
      assert (s + rest)[..|s|] == s && (s + rest)[|s|..] == rest;
    case TArr(cells) =>
      assert Bytes(v) + rest == IntBytes(T_ARR) + IntBytes(|cells|) + (CellsBytes(cells) + rest);
      HeaderThen(T_ARR, |cells|, CellsBytes(cells) + rest);
      ReadCellsBytes(0, [], cells, rest);
    case TMap(es) =>
      assert Bytes(v) + rest == IntBytes(T_MAP) + IntBytes(|es|) + (EntriesBytes(es) + rest);
      HeaderThen(T_MAP, |es|, EntriesBytes(es) + rest);
      ReadEntriesBytes(0, [], es, rest);
  }

  lemma {:induction false} ReadCellsBytes(i: nat, acc: seq<Tree>, cells: seq<Tree>, rest: seq<byte>)
    requires AllFit(cells)
    ensures ReadCells(i, i + |cells|, acc, CellsBytes(cells) + rest) ==
            Got(TArr(ArrFill(TUndef, acc, i, AllRebuilt(cells))), rest)
    decreases cells
  {
    hide ArrSet, Read, Bytes, Rebuilt;
    if cells == [] {
      assert CellsBytes(cells) + rest == rest;
    } else {
      var tail := CellsBytes(cells[1..]) + rest;
      assert CellsBytes(cells) + rest == Bytes(cells[0]) + tail;
      ReadBytes(cells[0], tail);
      var r := Rebuilt(cells[0]);
      ReadCellsBytes(i + 1, ArrSet(TUndef, acc, i, r), cells[1..], rest);
      assert AllRebuilt(cells)[0] == r && AllRebuilt(cells)[1..] == AllRebuilt(cells[1..]);
    }
  }

  lemma {:induction false} ReadEntriesBytes(i: nat, acc: seq<Entry>, es: seq<Entry>, rest: seq<byte>)
    requires EntriesFit(es)
    ensures ReadEntries(i, i + |es|, acc, EntriesBytes(es) + rest) ==
            Got(TMap(MapFill(acc, EntriesRebuilt(es))), rest)
    decreases es
  {
    hide MapSet, Read, Bytes, Rebuilt;
    if es == [] {
      assert EntriesBytes(es) + rest == rest;
    } else {
      var tail := EntriesBytes(es[1..]) + rest;
      assert EntriesBytes(es) + rest == Bytes(es[0].key) + (Bytes(es[0].val) + tail);
      ReadEntryBytes(es[0], tail);
      var e := EntryRebuilt(es[0]);
      ReadEntriesBytes(i + 1, MapSet(acc, e.key, e.val), es[1..], rest);
      assert EntriesRebuilt(es)[0] == e && EntriesRebuilt(es)[1..] == EntriesRebuilt(es[1..]);
    }
  }

  lemma {:induction false} ReadEntryBytes(e: Entry, rest: seq<byte>)
    requires Fits(e.key) && Fits(e.val)
    ensures Read(Bytes(e.key) + (Bytes(e.val) + rest)) == Got(Rebuilt(e.key), Bytes(e.val) + rest)
    ensures Read(Bytes(e.val) + rest) == Got(Rebuilt(e.val), rest)
    decreases e
  {
    ReadBytes(e.key, Bytes(e.val) + rest);
    ReadBytes(e.val, rest);
  }

  // ----- exactly the values that survive -----

  lemma {:induction false} RebuiltIs(v: Tree)
    requires Built(v)
    ensures Rebuilt(v) == v
    decreases v
  {
    match v
    case TArr(cells) =>
      AllRebuiltIs(cells);
      ArrDupIsIdentity(TUndef, cells);
    case TMap(es) =>
      EntriesRebuiltIs(es);
      RebuiltExactly(es);
    case _ =>
  }

  lemma {:induction false} AllRebuiltIs(cells: seq<Tree>)
    requires AllBuilt(cells)
    ensures AllRebuilt(cells) == cells
    decreases cells
  {
    if cells != [] {
      RebuiltIs(cells[0]);
      AllRebuiltIs(cells[1..]);
    }
  }

  lemma {:induction false} EntriesRebuiltIs(es: seq<Entry>)
    requires EntriesBuilt(es)
    ensures EntriesRebuilt(es) == es
    decreases es
  {
    if es != [] {
      EntryRebuiltIs(es[0]);
      EntriesRebuiltIs(es[1..]);
    }
  }

  lemma {:induction false} EntryRebuiltIs(e: Entry)
    requires EntryBuilt(e)
    ensures EntryRebuilt(e) == e
    decreases e
  {
    RebuiltIs(e.key);
    RebuiltIs(e.val);
  }

  lemma {:induction false} AllBuiltAt(cells: seq<Tree>)
    ensures AllBuilt(cells) <==> forall i :: 0 <= i < |cells| ==> Built(cells[i])
    decreases cells
  {
    if cells != [] {
      AllBuiltAt(cells[1..]);
      assert forall i :: 0 < i < |cells| ==> cells[i] == cells[1..][i - 1];
    }
  }

  lemma {:induction false} EntriesBuiltAt(es: seq<Entry>)
    ensures EntriesBuilt(es) <==> forall i :: 0 <= i < |es| ==> EntryBuilt(es[i])
    decreases es
  {
    if es != [] {
      EntriesBuiltAt(es[1..]);
      assert forall i :: 0 < i < |es| ==> es[i] == es[1..][i - 1];
    }
  }

  /** Whatever is rebuilt is built. */
  lemma {:induction false} RebuiltIsBuilt(v: Tree)
    ensures Built(Rebuilt(v))
    decreases v
  {
    match v
    case TArr(cells) =>
      var vs := AllRebuilt(cells);
      AllRebuiltIsBuilt(cells);
      AllBuiltAt(vs);
      ArrFillIsTrim(TUndef, vs);
      AllBuiltAt(Trim(TUndef, vs));
    case TMap(es) =>
      EntriesRebuiltIsBuilt(es);
      MapFillOk([], EntriesRebuilt(es));
      MapFillBuilt([], EntriesRebuilt(es));
    case _ =>
  }

  lemma {:induction false} AllRebuiltIsBuilt(cells: seq<Tree>)
    ensures AllBuilt(AllRebuilt(cells))
    decreases cells
  {
    if cells != [] {
      RebuiltIsBuilt(cells[0]);
      AllRebuiltIsBuilt(cells[1..]);
      assert AllRebuilt(cells)[1..] == AllRebuilt(cells[1..]);
    }
  }

  lemma {:induction false} EntriesRebuiltIsBuilt(es: seq<Entry>)
    ensures EntriesBuilt(EntriesRebuilt(es))
    decreases es
  {
    if es != [] {
      EntryRebuiltIsBuilt(es[0]);
      EntriesRebuiltIsBuilt(es[1..]);
      assert EntriesRebuilt(es)[1..] == EntriesRebuilt(es[1..]);
    }
  }

  lemma {:induction false} EntryRebuiltIsBuilt(e: Entry)
    ensures EntryBuilt(EntryRebuilt(e))
    decreases e
  {
    RebuiltIsBuilt(e.key);
    RebuiltIsBuilt(e.val);
  }

  lemma {:induction false} MapFillBuilt(m: seq<Entry>, es: seq<Entry>)
    requires EntriesBuilt(m) && EntriesBuilt(es)
    ensures EntriesBuilt(MapFill(m, es))
    decreases |es|
  {
    if es != [] {
      var m' := MapSet(m, es[0].key, es[0].val);
      EntriesBuiltAt(m);
      EntriesBuiltAt(m');
      MapFillBuilt(m', es[1..]);
    }
  }

  /** The round trip: a value comes back equal, with the bytes after it untouched, exactly when it is one
      that the array and map operations can build. */
  lemma {:induction false} RoundTrip(v: Tree, rest: seq<byte>)
    requires Fits(v)
    ensures Read(Bytes(v) + rest) == Got(v, rest) <==> Built(v)
  {
    hide Read, Bytes;
    ReadBytes(v, rest);
    RebuiltIsBuilt(v);
    if Built(v) { RebuiltIs(v); }
  }

  // ----- programs -----

  /** The three parts of a program, in file order. */
  datatype ProgFile = ProgFile(constants: Tree, functions: Tree, ops: Tree)

  datatype Loaded = Loaded(p: ProgFile) | Unreadable

  predicate ProgFits(p: ProgFile) {
    Fits(p.constants) && Fits(p.functions) && Fits(p.ops)
  }

  /** `prog_write`. */
  function ProgBytes(p: ProgFile): seq<byte>
    requires ProgFits(p)
  {
    Bytes(p.constants) + Bytes(p.functions) + Bytes(p.ops)
  }

  /** `prog_read`. */
  function ReadProg(b: seq<byte>): Loaded {
    match Read(b)
    case Broken => Unreadable
    case Got(c, b1) =>
      match Read(b1)
      case Broken => Unreadable
      case Got(f, b2) =>
        match Read(b2)
        case Broken => Unreadable
        case Got(o, _) => Loaded(ProgFile(c, f, o))
  }

  /** A program comes back from its file exactly when its three parts are built values. */
  lemma ProgRoundTrip(p: ProgFile)
    requires ProgFits(p)
    ensures ReadProg(ProgBytes(p)) == Loaded(p) <==> Built(p.constants) && Built(p.functions) && Built(p.ops)
  {
    hide Read, Bytes;
    var bo := Bytes(p.ops);
    var bf := Bytes(p.functions) + bo;
    assert ProgBytes(p) == Bytes(p.constants) + bf;
    assert bo == bo + [];
    ReadBytes(p.constants, bf);
    ReadBytes(p.functions, bo);
    ReadBytes(p.ops, []);
    RebuiltIsBuilt(p.constants);
    RebuiltIsBuilt(p.functions);
    RebuiltIsBuilt(p.ops);
    if Built(p.constants) { RebuiltIs(p.constants); }
    if Built(p.functions) { RebuiltIs(p.functions); }
    if Built(p.ops) { RebuiltIs(p.ops); }
  }

  function Defs(defs: seq<(seq<byte>, int)>): seq<Entry> {
    seq(|defs|, i requires 0 <= i < |defs| => Entry(TStr(defs[i].0), TNum(defs[i].1)))
  }

  /** What the compiler leaves: string constants, functions registered in order, and code cells. */
  function CompiledFile(consts: seq<seq<byte>>, defs: seq<(seq<byte>, int)>, ops: seq<int>): ProgFile {
    ProgFile(TArr(seq(|consts|, i requires 0 <= i < |consts| => TStr(consts[i]))),
             TMap(MapFill([], Defs(defs))),
             TArr(seq(|ops|, i requires 0 <= i < |ops| => TNum(ops[i]))))
  }

  /** Every compiled program survives being written and read. */
  lemma CompiledRoundTrip(consts: seq<seq<byte>>, defs: seq<(seq<byte>, int)>, ops: seq<int>)
    requires ProgFits(CompiledFile(consts, defs, ops))
    ensures ReadProg(ProgBytes(CompiledFile(consts, defs, ops))) == Loaded(CompiledFile(consts, defs, ops))
  {
    hide ProgBytes, ReadProg, MapFill;
    var p := CompiledFile(consts, defs, ops);
    AllBuiltAt(p.constants.cells);
    AllBuiltAt(p.ops.cells);
    EntriesBuiltAt(Defs(defs));
    MapFillOk([], Defs(defs));
    MapFillBuilt([], Defs(defs));
    ProgRoundTrip(p);
  }

  /** The position of the last definition of a name, or -1. */
  function LastDef(defs: seq<(seq<byte>, int)>, name: seq<byte>): (i: int)
    ensures -1 <= i < |defs| && (i >= 0 ==> defs[i].0 == name)
    ensures forall j :: i < j < |defs| ==> defs[j].0 != name
  {
    if defs == [] then -1
    else if defs[|defs| - 1].0 == name then |defs| - 1
    else LastDef(defs[..|defs| - 1], name)
  }

  lemma {:induction false} MapFillSnoc(m: seq<Entry>, es: seq<Entry>, e: Entry)
    ensures MapFill(m, es + [e]) == MapSet(MapFill(m, es), e.key, e.val)
    decreases |es|
  {
    hide MapSet;
    if es == [] {
      assert es + [e] == [e];
      assert MapFill(MapSet(m, e.key, e.val), [e][1..]) == MapSet(m, e.key, e.val);
    } else {
      assert (es + [e])[1..] == es[1..] + [e];
      MapFillSnoc(MapSet(m, es[0].key, es[0].val), es[1..], e);
    }
  }

  /** Looking a function up in the table finds its last definition. */
  lemma {:induction false} LastDefinitionWins(defs: seq<(seq<byte>, int)>, name: seq<byte>)
    ensures var i := LastDef(defs, name);
            MapGet(MapFill([], Defs(defs)), TStr(name)) == if i >= 0 then TNum(defs[i].1) else TUndef
    decreases |defs|
  {
    hide MapGet, MapSet, MapFill;
    if defs == [] {
      assert Defs(defs) == [];
      EmptyLookup(name);
    } else {
      var init, d := defs[..|defs| - 1], defs[|defs| - 1];
      assert Defs(defs) == Defs(init) + [Entry(TStr(d.0), TNum(d.1))];
      MapFillSnoc([], Defs(init), Entry(TStr(d.0), TNum(d.1)));
      Dictionary(MapFill([], Defs(init)), TStr(d.0), TNum(d.1), TStr(name));
      LastDefinitionWins(init, name);
    }
  }

  lemma EmptyLookup(name: seq<byte>)
    ensures MapGet(MapFill([], []), TStr(name)) == TUndef
  {
  }

  // ----- files -----

  /** A file that is written at its end and read at a position. */
  class File {
    var data: seq<byte>
    var pos: nat

    ghost predicate Valid()
      reads this
    {
      pos <= |data|
    }

    function Left(): seq<byte>
      requires Valid()
      reads this
    {
      data[pos..]
    }

    constructor ()
      ensures Valid() && data == [] && pos == 0
    {
      data, pos := [], 0;
    }

    method WriteInt(i: int)
      requires INT_MIN <= i <= INT_MAX
      modifies this`data
      ensures data == old(data) + IntBytes(i)
    {
      data := data + IntBytes(i);
    }

    method FetchInt() returns (ok: bool, i: int)
      requires Valid()
      modifies this`pos
      ensures Valid() && pos >= old(pos) && (ok ==> pos > old(pos))
      ensures ReadInt(old(Left())) == if ok then GotInt(i, Left()) else NoInt
    {
      if |data| - pos < 4 {
        return false, 0;
      }
      assert data[pos..][..4] == data[pos..pos + 4] && data[pos..][4..] == data[pos + 4..];
      i := BytesInt(data[pos..pos + 4]);
      pos := pos + 4;
      ok := true;
    }

    /** `val_serialize`, with the counted loops of the array and map cases. */
    method Serialize(v: Tree)
      requires Fits(v)
      modifies this`data
      ensures data == old(data) + Bytes(v)
      decreases v
    {
      hide IntBytes;
      match v
      case TUndef => WriteInt(T_UNDEF);
      case TNum(n) =>
        WriteInt(T_NUM);
        WriteInt(n);
      case TStr(str) =>
        WriteInt(T_STR);
        WriteInt(|str|);
        data := data + str;
      case TArr(cells) =>
        WriteInt(T_ARR);
        WriteInt(|cells|);
        SerializeCells(cells);
      case TMap(es) =>
        WriteInt(T_MAP);
        WriteInt(|es|);
        SerializeEntries(es);
    }

    method SerializeCells(cells: seq<Tree>)
      requires AllFit(cells)
      modifies this`data
      ensures data == old(data) + CellsBytes(cells)
      decreases cells, 0
    {
      for i := 0 to |cells|
        invariant data + CellsBytes(cells[i..]) == old(data) + CellsBytes(cells)
      {
        hide Bytes;
        ghost var d, tail := data, CellsBytes(cells[i + 1..]);
        assert cells[i..][1..] == cells[i + 1..];
        Serialize(cells[i]);
        assert d + (Bytes(cells[i]) + tail) == data + tail;
      }
    }

    method SerializeEntries(es: seq<Entry>)
      requires EntriesFit(es)
      modifies this`data
      ensures data == old(data) + EntriesBytes(es)
      decreases es, 1
    {
      for i := 0 to |es|
        invariant data + EntriesBytes(es[i..]) == old(data) + EntriesBytes(es)
      {
        hide Bytes;
        ghost var d, tail := data, EntriesBytes(es[i + 1..]);
        assert es[i..][1..] == es[i + 1..];
        SerializeEntry(es[i]);
        assert d + (EntryBytes(es[i]) + tail) == data + tail;
      }
    }

    method SerializeEntry(e: Entry)
      requires Fits(e.key) && Fits(e.val)
      modifies this`data
      ensures data == old(data) + EntryBytes(e)
      decreases e
    {
      hide Bytes;
      Serialize(e.key);
      Serialize(e.val);
    }

    /** `val_deserialize`, with the counted loops that store each part as it is read. */
    method Deserialize() returns (ok: bool, v: Tree)
      requires Valid()
      modifies this`pos
      ensures Valid() && pos >= old(pos) && (ok ==> pos > old(pos))
      ensures Read(old(Left())) == if ok then Got(v, Left()) else Broken
      decreases |data| - pos, 0
    {
      hide ReadInt;
      v := TUndef;
      var type_, n;
      ok, type_ := FetchInt();
      if !ok || type_ == T_UNDEF || type_ == 6 {
        return;
      }
      ok, n := FetchInt();
      if !ok {
        return;
      }
      if type_ == T_NUM {
        v := TNum(n);
      } else if type_ == T_STR {
        if !(0 <= n <= |data| - pos) {
          return false, v;
        }
        assert data[pos..][..n] == data[pos..pos + n] && data[pos..][n..] == data[pos + n..];
        v := TStr(data[pos..pos + n]);
        pos := pos + n;
      } else if type_ == T_ARR {
        ok, v := DeserializeCells(n);
      } else if type_ == T_MAP {
        ok, v := DeserializeEntries(n);
      } else {
        ok := false;
      }
    }

    method DeserializeCells(size: int) returns (ok: bool, v: Tree)
      requires Valid()
      modifies this`pos
      ensures Valid() && pos >= old(pos)
      ensures ReadCells(0, size, [], old(Left())) == if ok then Got(v, Left()) else Broken
      decreases |data| - pos, 1
    {
      var cells: seq<Tree> := [];
      v := TUndef;
      var i := 0;
      while i < size
        invariant Valid() && pos >= old(pos) && (i > 0 ==> pos > old(pos))
        invariant ReadCells(i, size, cells, Left()) == ReadCells(0, size, [], old(Left()))
        decreases size - i
      {
        hide Read, ArrSet;
        var m;
        ok, m := Deserialize();
        if !ok {
          return;
        }
        cells := ArrSet(TUndef, cells, i, m);
        i := i + 1;
      }
      ok, v := true, TArr(cells);
    }

    method DeserializeEntries(size: int) returns (ok: bool, v: Tree)
      requires Valid()
      modifies this`pos
      ensures Valid() && pos >= old(pos)
      ensures ReadEntries(0, size, [], old(Left())) == if ok then Got(v, Left()) else Broken
      decreases |data| - pos, 1
    {
      var entries: seq<Entry> := [];
      v := TUndef;
      var i := 0;
      while i < size
        invariant Valid() && pos >= old(pos) && (i > 0 ==> pos > old(pos))
        invariant ReadEntries(i, size, entries, Left()) == ReadEntries(0, size, [], old(Left()))
        decreases size - i
      {
        hide Read, MapSet;
        var mk, mv;
        ok, mk := Deserialize();
        if !ok {
          return;
        }
        ok, mv := Deserialize();
        if !ok {
          return;
        }
        entries := MapSet(entries, mk, mv);
        i := i + 1;
      }
      ok, v := true, TMap(entries);
    }
  }
}
