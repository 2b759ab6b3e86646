/** A compiled program through its file: what the machine loads is what the compiler left. */
module ProgramFile {
  import opened Values
  import opened Bytecode
  import opened Source
  import opened Machine
  import opened Codegen
  import opened Linking
  import opened CompilerPass
  import opened Trees
  import opened Serial

  // ----- characters and bytes -----

  /** Strings of the C program are bytes. */
  predicate Bytewise(s: string) {
    forall i :: 0 <= i < |s| ==> s[i] as int < 256
  }

  function ToBytes(s: string): (b: seq<byte>)
    requires Bytewise(s)
    ensures |b| == |s|
  {
    seq(|s|, i requires 0 <= i < |s| => (s[i] as int) as byte)
  }

  function FromBytes(b: seq<byte>): (s: string)
    ensures |s| == |b| && Bytewise(s)
  {
    seq(|b|, i requires 0 <= i < |b| => (b[i] as int) as char)
  }

  lemma BytesBack(s: string)
    requires Bytewise(s)
    ensures FromBytes(ToBytes(s)) == s
  {
  }

  lemma CharsBack(b: seq<byte>)
    ensures ToBytes(FromBytes(b)) == b
  {
  }

  /** A map key as the value it is compared as; arrays and maps, like undef, equal nothing. */
  function KeyVal(k: Tree): Val {
    match k
    case TNum(n) => Num(n)
    case TStr(s) => Str(FromBytes(s))
    case _ => Undef
  }

  /** Map keys are the same exactly when comparing them as values gives 0. */
  lemma KeysCompare(a: Tree, b: Tree)
    ensures SameKey(a, b) <==> ValCmp(KeyVal(a), KeyVal(b)) == 0
  {
    if a.TStr? && b.TStr? {
      StrCmpZero(FromBytes(a.s), FromBytes(b.s));
      CharsBack(a.s);
      CharsBack(b.s);
    }
  }

  predicate AllBytewise(ss: seq<string>) {
    forall i :: 0 <= i < |ss| ==> Bytewise(ss[i])
  }

  // ----- what is written -----

  function ConstBytes(ss: seq<string>): seq<seq<byte>>
    requires AllBytewise(ss)
  {
    seq(|ss|, i requires 0 <= i < |ss| => ToBytes(ss[i]))
  }

  predicate NamesBytewise(fs: seq<Func>) {
    forall i :: 0 <= i < |fs| ==> Bytewise(fs[i].name)
  }

  /** The registrations the compiler makes, in order. */
  function Registered(fs: seq<Func>, consts: seq<string>, scheme: Scheme): seq<(seq<byte>, int)>
    requires NamesBytewise(fs)
  {
    if fs == [] then []
    else
      var init := fs[..|fs| - 1];
      Registered(init, consts, scheme) + [(ToBytes(fs[|fs| - 1].name), |FuncsCode(init, consts, scheme)| + 2)]
  }

  predicate ProgramBytewise(src: Program) {
    AllBytewise(ProgramConsts(src)) && NamesBytewise(src.funs)
  }

  /** The three values `prog_write` gets. */
  function FileOf(src: Program, scheme: Scheme): ProgFile
    requires ProgramBytewise(src)
  {
    CompiledFile(ConstBytes(ProgramConsts(src)), Registered(src.funs, ProgramConsts(src), scheme),
                 EncodeAll(ProgramCode(src, scheme)))
  }

  // ----- what is loaded -----

  /** Strings, functions with string names and number entries, and code cells that are C ints. */
  predicate IsProgram(p: ProgFile) {
    && p.constants.TArr? && p.functions.TMap? && p.ops.TArr?
    && (forall i :: 0 <= i < |p.constants.cells| ==> p.constants.cells[i].TStr?)
    && (forall i :: 0 <= i < |p.ops.cells| ==> p.ops.cells[i].TNum? && INT_MIN <= p.ops.cells[i].n <= INT_MAX)
    && NamedEntries(p.functions.entries)
  }

  predicate NamedEntries(es: seq<Entry>) {
    forall i :: 0 <= i < |es| ==> es[i].key.TStr? && es[i].val.TNum? && es[i].val.n >= 0
  }

  function FunctionsOf(es: seq<Entry>): map<string, nat>
    requires NamedEntries(es)
  {
    if es == [] then map[]
    else FunctionsOf(es[..|es| - 1])[FromBytes(es[|es| - 1].key.s) := es[|es| - 1].val.n]
  }

  /** The image a machine runs from a loaded file. */
  function ImageOf(p: ProgFile, native: Natives, remote: Remote): Image
    requires IsProgram(p)
  {
    Image(seq(|p.ops.cells|, i requires 0 <= i < |p.ops.cells| => Decode(p.ops.cells[i].n)),
          seq(|p.constants.cells|, i requires 0 <= i < |p.constants.cells| => FromBytes(p.constants.cells[i].s)),
          FunctionsOf(p.functions.entries), native, remote)
  }

  // ----- the function table -----

  /** With distinct keys the last entry is looked at like any other. */
  lemma {:induction false} GetSnoc(es: seq<Entry>, k: Tree)
    requires es != [] && MapOk(es)
    ensures var init, e := es[..|es| - 1], es[|es| - 1];
            MapGet(es, k) == if SameKey(e.key, k) then e.val else MapGet(init, k)
  {
    var init, e := es[..|es| - 1], es[|es| - 1];
    var i := FindKey(es, k);
    if SameKey(e.key, k) {
      FindKeyIs(es, k, |es| - 1);
    } else if i < |es| {
      FindKeyIs(init, k, i);
    } else {
      FindKeyNone(init, k);
    }
  }

  lemma OkInit(es: seq<Entry>)
    requires es != [] && MapOk(es) && NamedEntries(es)
    ensures MapOk(es[..|es| - 1]) && NamedEntries(es[..|es| - 1])
  {
  }

  /** The functions of a table are what looking names up in it finds. */
  lemma {:induction false} FunctionsFound(es: seq<Entry>, name: string)
    requires MapOk(es) && NamedEntries(es) && Bytewise(name)
    ensures var v := MapGet(es, TStr(ToBytes(name)));
            if name in FunctionsOf(es) then v == TNum(FunctionsOf(es)[name]) else v == TUndef
    decreases |es|
  {
    hide MapGet, MapOk;
    if es == [] {
      EmptyGet(TStr(ToBytes(name)));
    } else {
      var e := es[|es| - 1];
      OkInit(es);
      GetSnoc(es, TStr(ToBytes(name)));
      FunctionsFound(es[..|es| - 1], name);
      BytesBack(name);
      CharsBack(e.key.s);
    }
  }

  lemma EmptyGet(k: Tree)
    ensures MapGet([], k) == TUndef
  {
  }

  lemma {:induction false} FunctionsBytewise(es: seq<Entry>, name: string)
    requires NamedEntries(es) && name in FunctionsOf(es)
    ensures Bytewise(name)
    decreases |es|
  {
    if name != FromBytes(es[|es| - 1].key.s) { FunctionsBytewise(es[..|es| - 1], name); }
  }

  lemma {:induction false} EntriesBytewise(fs: seq<Func>, consts: seq<string>, scheme: Scheme, name: string)
    requires NamesBytewise(fs) && name in Entries(fs, consts, scheme)
    ensures Bytewise(name)
    decreases |fs|
  {
    hide FuncsCode, Bytewise;
    if name != fs[|fs| - 1].name { EntriesBytewise(fs[..|fs| - 1], consts, scheme, name); }
  }

  /** The last registration of a name is its entry. */
  lemma {:induction false} RegisteredLast(fs: seq<Func>, consts: seq<string>, scheme: Scheme, name: string)
    requires NamesBytewise(fs) && Bytewise(name)
    ensures var defs, es := Registered(fs, consts, scheme), Entries(fs, consts, scheme);
            var i := LastDef(defs, ToBytes(name));
            if name in es then i >= 0 && defs[i].1 == es[name] else i < 0
    decreases |fs|
  {
    hide FuncsCode, ToBytes, Bytewise;
    if fs != [] {
      var init, f := fs[..|fs| - 1], fs[|fs| - 1];
      RegisteredLast(init, consts, scheme, name);
      BytesBack(name);
      BytesBack(f.name);
      var defs := Registered(fs, consts, scheme);
      assert defs[..|defs| - 1] == Registered(init, consts, scheme);
    }
  }

  lemma SetNamed(m: seq<Entry>, key: seq<byte>, n: nat)
    requires NamedEntries(m)
    ensures NamedEntries(MapSet(m, TStr(key), TNum(n)))
  {
  }

  lemma {:induction false} TableNamed(fs: seq<Func>, consts: seq<string>, scheme: Scheme)
    requires NamesBytewise(fs)
    ensures NamedEntries(MapFill([], Defs(Registered(fs, consts, scheme))))
    decreases |fs|
  {
    hide FuncsCode, ToBytes, Bytewise, MapSet;
    var defs := Registered(fs, consts, scheme);
    if fs == [] {
      assert Defs(defs) == [];
    } else {
      var init, d := Registered(fs[..|fs| - 1], consts, scheme), defs[|defs| - 1];
      TableNamed(fs[..|fs| - 1], consts, scheme);
      assert Defs(defs) == Defs(init) + [Entry(TStr(d.0), TNum(d.1))];
      MapFillSnoc([], Defs(init), Entry(TStr(d.0), TNum(d.1)));
      SetNamed(MapFill([], Defs(init)), d.0, d.1);
    }
  }

  lemma TableIs(fs: seq<Func>, consts: seq<string>, scheme: Scheme)
    requires NamesBytewise(fs)
    ensures var es := MapFill([], Defs(Registered(fs, consts, scheme)));
            NamedEntries(es) && FunctionsOf(es) == Entries(fs, consts, scheme)
  {
    hide MapFill, MapGet, MapOk, Bytewise, ToBytes, FunctionsOf, Entries, Registered, Defs;
    var defs := Registered(fs, consts, scheme);
    var es, funs := MapFill([], Defs(defs)), Entries(fs, consts, scheme);
    TableNamed(fs, consts, scheme);
    TableOk(defs);
    forall name
      ensures (name in FunctionsOf(es) <==> name in funs) && (name in funs ==> FunctionsOf(es)[name] == funs[name])
    {
      if name in FunctionsOf(es) { FunctionsBytewise(es, name); }
      if name in funs { EntriesBytewise(fs, consts, scheme, name); }
      if Bytewise(name) {
        FunctionsFound(es, name);
        LastDefinitionWins(defs, ToBytes(name));
        RegisteredLast(fs, consts, scheme, name);
      }
    }
  }

  lemma TableOk(defs: seq<(seq<byte>, int)>)
    ensures MapOk(MapFill([], Defs(defs)))
  {
    MapFillOk([], Defs(defs));
  }

  // ----- the round trip -----

  lemma LoadedIs(src: Program, scheme: Scheme, remote: Remote)
    requires WellFormedProgram(src) && ProgramBytewise(src)
    requires forall i :: 0 <= i < |ProgramCode(src, scheme)| ==> Encodable(ProgramCode(src, scheme)[i])
    ensures IsProgram(FileOf(src, scheme))
    ensures ImageOf(FileOf(src, scheme), src.native, remote) == Compiled(src, scheme, remote)
  {
    hide MapFill, ProgramCode, ProgramConsts, Registered, FunctionsOf, Entries, Encode, Decode, Encodable, NamedEntries;
    hide ToBytes, FromBytes;
    var code, consts := ProgramCode(src, scheme), ProgramConsts(src);
    TableIs(src.funs, consts, scheme);
    forall i | 0 <= i < |code| ensures INT_MIN <= Encode(code[i]) <= INT_MAX && Decode(Encode(code[i])) == code[i] {
      DecodeEncode(code[i]);
    }
    forall i | 0 <= i < |consts| ensures FromBytes(ToBytes(consts[i])) == consts[i] {
      BytesBack(consts[i]);
    }
    var p := FileOf(src, scheme);
    var q := ImageOf(p, src.native, remote);
    assert q.code == code;
    assert q.consts == consts;
  }

  /** What is read back from a compiled program's file is loaded as the image it was compiled to. */
  lemma LoadedBack(src: Program, scheme: Scheme, remote: Remote)
    requires WellFormedProgram(src) && ProgramBytewise(src) && ProgFits(FileOf(src, scheme))
    requires forall i :: 0 <= i < |ProgramCode(src, scheme)| ==> Encodable(ProgramCode(src, scheme)[i])
    ensures var l := ReadProg(ProgBytes(FileOf(src, scheme)));
            l.Loaded? && IsProgram(l.p) && ImageOf(l.p, src.native, remote) == Compiled(src, scheme, remote)
  {
    hide ProgramCode, ProgramConsts, Registered, ConstBytes, EncodeAll, CompiledFile, ProgBytes, ReadProg, ProgFits;
    hide IsProgram, ImageOf, Compiled, Encodable, AllBytewise, NamesBytewise, WellFormedProgram;
    LoadedIs(src, scheme, remote);
    CompiledRoundTrip(ConstBytes(ProgramConsts(src)), Registered(src.funs, ProgramConsts(src), scheme),
                      EncodeAll(ProgramCode(src, scheme)));
  }

  /** Compiling, writing, reading and loading: the machine gets the image the theorems about compiled programs
      are about. */
  method CompileWriteLoad(src: Program, scheme: Scheme, remote: Remote) returns (bytes: seq<byte>, image: Image)
    requires WellFormedProgram(src) && FitsProgram(src, scheme)
    requires ProgramBytewise(src) && ProgFits(FileOf(src, scheme))
    ensures bytes == ProgBytes(FileOf(src, scheme)) && image == Compiled(src, scheme, remote)
  {
    hide ProgramCode, ProgramConsts, FileOf, ProgBytes, ReadProg, ProgFits, IsProgram, ImageOf, Encodable, Decode;
    hide ProgramBytewise, WellFormedProgram, FitsProgram, Entries;
    var _, made := CompileToImage(src, scheme, remote);
    LoadedBack(src, scheme, remote);
    bytes := ProgBytes(FileOf(src, scheme));
    match ReadProg(bytes)
    case Loaded(p) => image := ImageOf(p, src.native, remote);
  }
}
