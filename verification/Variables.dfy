/** The table of local variables (vm/vars.c): names to frame slots, with borders between blocks, and what
    the allocation of parameters means for calls. */
module Variables {
  import opened Arrays
  import opened Values
  import opened Source
  import opened Codegen
  import opened Correctness

  const BORDER_NR: int := -1
  const BORDER_ID: string := "BLOCKBORDER"

  datatype Entry = Entry(id: string, nr: int) {
    predicate IsBorder() {
      nr == BORDER_NR
    }
  }

  type Table = seq<Entry>

  /** Entries know their own slot; borders have none. */
  predicate Slotted(t: Table) {
    forall i :: 0 <= i < |t| ==> if t[i].IsBorder() then t[i].id == BORDER_ID else t[i].nr == i && t[i].id != BORDER_ID
  }

  /** `_var_lookup`: the newest entry of a name, optionally in the innermost block only. */
  function Newest(t: Table, id: string, block: bool): (i: int)
    ensures -1 <= i < |t| && (i >= 0 ==> t[i].id == id)
  {
    if t == [] then -1
    else
      var last := t[|t| - 1];
      if last.id == id then |t| - 1
      else if last.IsBorder() && block then -1
      else Newest(t[..|t| - 1], id, block)
  }

  function Declare(t: Table, id: string): Table {
    if Newest(t, id, true) >= 0 then t else t + [Entry(id, |t|)]
  }

  function Use(t: Table, id: string): Table {
    if Newest(t, id, false) >= 0 then t else Declare(t, id)
  }

  function Enter(t: Table): Table {
    t + [Entry(BORDER_ID, BORDER_NR)]
  }

  predicate InBlock(t: Table) {
    exists i :: 0 <= i < |t| && t[i].IsBorder()
  }

  /** Back to before the newest border. */
  function Leave(t: Table): Table
    requires InBlock(t)
  {
    if t[|t| - 1].IsBorder() then t[..|t| - 1]
    else
      assert InBlock(t[..|t| - 1]) by { var i :| 0 <= i < |t| && t[i].IsBorder(); assert t[..|t| - 1][i].IsBorder(); }
      Leave(t[..|t| - 1])
  }

  /** What a compiler does with the table. */
  datatype Command = Param(id: string) | Mention(id: string) | Nested(body: Commands)
  datatype Commands = Start | Then(init: Commands, last: Command)

  predicate NamesOk(cs: Commands) {
    cs.Then? ==> NamesOk(cs.init) && (if cs.last.Nested? then NamesOk(cs.last.body) else cs.last.id != BORDER_ID)
  }

  predicate Borderless(x: Table) {
    forall i :: 0 <= i < |x| ==> !x[i].IsBorder()
  }

  /** The table after a run of commands; a nested block is entered, worked in and left. */
  function Run(t: Table, cs: Commands): Table
    decreases cs
  {
    if cs.Start? then t
    else
      var t1 := Run(t, cs.init);
      match cs.last
      case Param(id) => Declare(t1, id)
      case Mention(id) => Use(t1, id)
      case Nested(body) =>
        var t2 := Run(Enter(t1), body);
        if InBlock(t2) then Leave(t2) else t2
  }

  lemma {:induction false} LeaveAt(t: Table, x: Table)
    requires Borderless(x)
    ensures InBlock(Enter(t) + x) && Leave(Enter(t) + x) == t
    decreases |x|
  {
    var u := Enter(t) + x;
    assert u[|t|].IsBorder();
    if x == [] {
      assert u == Enter(t) && u[..|u| - 1] == t;
    } else {
      assert u[|u| - 1] == x[|x| - 1] && u[..|u| - 1] == Enter(t) + x[..|x| - 1];
      LeaveAt(t, x[..|x| - 1]);
    }
  }

  /** Commands only add entries behind what is there, never a border, and keep slots in order. */
  lemma {:induction false} RunExtends(t: Table, cs: Commands)
    requires Slotted(t) && NamesOk(cs)
    ensures Slotted(Run(t, cs)) && t <= Run(t, cs) && Borderless(Run(t, cs)[|t|..])
    decreases cs
  {
    if cs.Start? {
      return;
    }
    hide Slotted, Borderless, Newest, Leave, InBlock;
    var t1 := Run(t, cs.init);
    RunExtends(t, cs.init);
    match cs.last
    case Param(id) => AddExtends(t, t1, id);
    case Mention(id) => AddExtends(t, t1, id);
    case Nested(body) =>
      EnterSlotted(t1);
      RunExtends(Enter(t1), body);
      var t2 := Run(Enter(t1), body);
      assert t2 == Enter(t1) + t2[|t1| + 1..];
      LeaveAt(t1, t2[|t1| + 1..]);
  }

  lemma EnterSlotted(t: Table)
    requires Slotted(t)
    ensures Slotted(Enter(t))
  {
  }

  /** One more entry keeps the slots in order. */
  lemma AddExtends(t: Table, t1: Table, id: string)
    requires Slotted(t1) && t <= t1 && Borderless(t1[|t|..]) && id != BORDER_ID
    ensures var u := t1 + [Entry(id, |t1|)];
            Slotted(u) && t <= u && Borderless(u[|t|..])
  {
    var u := t1 + [Entry(id, |t1|)];
    assert u[|t|..] == t1[|t|..] + [Entry(id, |t1|)];
  }

  /** A block leaves no trace: names mean the same slots after it as before it. */
  lemma BlockLeavesNoTrace(t: Table, body: Commands)
    requires Slotted(t) && NamesOk(body)
    ensures InBlock(Run(Enter(t), body)) && Leave(Run(Enter(t), body)) == t
    ensures Run(t, Then(Start, Nested(body))) == t
  {
    RunExtends(Enter(t), body);
    var t2 := Run(Enter(t), body);
    assert t2 == Enter(t) + t2[|t| + 1..];
    LeaveAt(t, t2[|t| + 1..]);
    assert Run(t, Start) == t;
  }

  /** Whatever was compiled, different visible names have different slots. */
  lemma DistinctSlots(cs: Commands, a: string, b: string)
    requires NamesOk(cs) && a != b && a != BORDER_ID && b != BORDER_ID
    ensures var t := Run([], cs);
            var i, j := Newest(t, a, false), Newest(t, b, false);
            i >= 0 && j >= 0 ==> t[i].nr == i && t[j].nr == j && t[i].nr != t[j].nr
  {
    RunExtends([], cs);
  }

  class VarAlloc {
    var locals: Table

    ghost predicate Valid()
      reads this
    {
      Slotted(locals)
    }

    constructor ()
      ensures Valid() && locals == []
    {
      locals := [];
    }

    method Lookup(id: string, block: bool) returns (i: int)
      ensures i == Newest(locals, id, block)
    {
      i := |locals| - 1;
      assert locals[..|locals|] == locals;
      while i >= 0
        invariant -1 <= i < |locals| && Newest(locals[..i + 1], id, block) == Newest(locals, id, block)
      {
        assert locals[..i + 1][..i] == locals[..i];
        if locals[i].id == id {
          return i;
        }
        if locals[i].nr == BORDER_NR && block {
          return -1;
        }
        i := i - 1;
      }
    }

    /** `_var_add` with a name; -1 where it refuses. */
    method AddLocal(id: string) returns (nr: int)
      requires Valid() && id != BORDER_ID
      modifies this
      ensures Valid() && locals == Declare(old(locals), id)
      ensures nr == (if Newest(old(locals), id, true) >= 0 then -1 else |old(locals)|)
    {
      var i := Lookup(id, true);
      if i >= 0 {
        return -1;
      }
      locals := locals + [Entry(id, |locals|)];
      return |locals| - 1;
    }

    /** `var_get_or_addlocal`: a name that is visible anywhere keeps its slot. */
    method GetOrAddLocal(id: string) returns (nr: int)
      requires Valid() && id != BORDER_ID
      modifies this
      ensures Valid() && locals == Use(old(locals), id)
      ensures nr == Newest(locals, id, false) && 0 <= nr < |locals| && locals[nr] == Entry(id, nr)
    {
      var i := Lookup(id, false);
      if i >= 0 {
        return locals[i].nr;
      }
      NotInBlock(locals, id);
      nr := AddLocal(id);
    }

    /** `var_enter_block`. */
    method EnterBlock()
      requires Valid()
      modifies this
      ensures Valid() && locals == Enter(old(locals))
    {
      locals := locals + [Entry(BORDER_ID, BORDER_NR)];
    }

    /** `var_leave_block`: drops entries down to and including the newest border. */
    method LeaveBlock()
      requires Valid() && InBlock(locals)
      modifies this
      ensures Valid() && locals == Leave(old(locals))
    {
      var i := |locals| - 1;
      assert locals[..|locals|] == locals;
      while i >= 0
        invariant -1 <= i < |locals| && locals == old(locals)
        invariant InBlock(locals[..i + 1]) && Leave(locals[..i + 1]) == Leave(locals)
      {
        assert locals[..i + 1][..i] == locals[..i];
        if locals[i].nr == BORDER_NR {
          locals := locals[..i];
          break;
        }
        assert locals[..i + 1][i] == locals[i];
        i := i - 1;
      }
    }

    /** `var_reset`. */
    method Reset()
      modifies this
      ensures Valid() && locals == []
    {
      locals := [];
    }
  }

  lemma {:induction false} NotInBlock(t: Table, id: string)
    requires Newest(t, id, false) < 0
    ensures Newest(t, id, true) < 0
    decreases |t|
  {
    if t != [] {
      NotInBlock(t[..|t| - 1], id);
    }
  }

  // ----- the table as the compiler uses it -----

  function Ids(t: Table): seq<string> {
    seq(|t|, i requires 0 <= i < |t| => t[i].id)
  }

  lemma {:induction false} NewestIs(t: Table, id: string, block: bool)
    requires Slotted(t) && Borderless(t) && Distinct(Ids(t))
    ensures Newest(t, id, block) == if id in Ids(t) then Find(Ids(t), id) else -1
    decreases |t|
  {
    if t != [] {
      var init, last := t[..|t| - 1], t[|t| - 1];
      assert Ids(t) == Ids(init) + [last.id];
      assert forall i, j :: 0 <= i < j < |init| ==> Ids(init)[i] == Ids(t)[i] && Ids(init)[j] == Ids(t)[j];
      NewestIs(init, id, block);
      if id in Ids(init) { assert Ids(t)[Find(Ids(init), id)] == id; }
      if last.id == id { assert Ids(t)[|t| - 1] == id; }
    }
  }

  /** Without blocks, as in every compiled program, the table is a list of distinct names whose positions
      are the slots, and both ways of adding a name append it unless it is there. */
  lemma BlockFreeTable(t: Table, id: string)
    requires Slotted(t) && Borderless(t) && Distinct(Ids(t)) && id != BORDER_ID
    ensures Ids(Use(t, id)) == Add(Ids(t), id) && Ids(Declare(t, id)) == Add(Ids(t), id)
    ensures var i := Newest(Use(t, id), id, false);
            0 <= i < |Use(t, id)| && Use(t, id)[i].nr == Find(Add(Ids(t), id), id)
  {
    NewestIs(t, id, false);
    NewestIs(t, id, true);
    assert Ids(t + [Entry(id, |t|)]) == Ids(t) + [id];
    if id !in Ids(t) { NewestIs(t + [Entry(id, |t|)], id, false); }
  }

  // ----- parameters and arguments -----

  /** What the callee reads as its `k`-th parameter. */
  function ParameterValue(params: seq<string>, vs: seq<Val>, k: nat): Val
    requires k < |params|
  {
    ArrGet(Undef, ArrFill(Undef, [], 0, vs), Find(ParamVars(params), params[k]))
  }

  ghost predicate ArgumentsArrive(params: seq<string>) {
    forall vs: seq<Val>, k: nat :: k < |params| && k < |vs| ==> ParameterValue(params, vs, k) == vs[k]
  }

  lemma {:induction false} DistinctArrive(params: seq<string>)
    requires Distinct(params)
    ensures ArgumentsArrive(params)
  {
    hide ArrFill, ParamVars;
    ParamVarsDistinct(params);
    forall vs: seq<Val>, k: nat | k < |params| && k < |vs| ensures ParameterValue(params, vs, k) == vs[k] {
      assert Find(params, params[k]) == k;
      ArrFillGet(Undef, [], 0, vs);
    }
  }

  /** Two parameters of one name share a slot, so with different arguments one of them reads wrong. */
  lemma {:induction false} RepeatedClash(params: seq<string>, i: nat, j: nat)
    requires i < j < |params| && params[i] == params[j]
    ensures !ArgumentsArrive(params)
  {
    hide ArrFill, ParamVars;
    var vs := seq(|params|, k => Num(k));
    assert vs[i] != vs[j];
    assert ParameterValue(params, vs, i) == ParameterValue(params, vs, j);
  }

  /** Whatever the arguments, each is read through the slot of its own parameter exactly when no parameter
      name is repeated: a repeated name is not allocated again, so later parameters move down. */
  lemma {:induction false} CallingConvention(params: seq<string>)
    ensures Distinct(params) <==> ArgumentsArrive(params)
  {
    hide ArgumentsArrive;
    if Distinct(params) {
      DistinctArrive(params);
    } else {
      var i, j :| 0 <= i < j < |params| && params[i] == params[j];
      RepeatedClash(params, i, j);
    }
  }

  /** In calls with `n` arguments the callee's other variables start out undefined exactly when there are
      no more arguments than parameters, or no other variables. */
  lemma {:induction false} FreshLocals(f: Func, n: nat)
    requires Distinct(f.params)
    ensures (forall vs: seq<Val>, i: nat :: |vs| == n && |f.params| <= i < |FuncVars(f)| ==>
               ArrGet(Undef, ArrFill(Undef, [], 0, vs), i) == Undef)
            <==> n <= |f.params| || |FuncVars(f)| <= |f.params|
  {
    hide ArrFill, FuncVars;
    forall vs: seq<Val>, i: nat
      ensures ArrGet(Undef, ArrFill(Undef, [], 0, vs), i) == if i < |vs| then vs[i] else Undef
    {
      ArrFillGet(Undef, [], 0, vs);
    }
    if n > |f.params| && |FuncVars(f)| > |f.params| {
      var vs := seq(n, k => Num(k));
      assert vs[|f.params|] != Undef;
      assert ArrGet(Undef, ArrFill(Undef, [], 0, vs), |f.params|) != Undef;
    }
  }
}
