/** Code cells (vm/prog.h and vm/op_enum.h).  A program is one array of C ints; a cell whose upper 24
    bits are 0x800000 is an opcode, every other cell is a number to push. */
module Bytecode {
  import opened Values

  /** The opcodes the compiler emits; `Other` is any further entry of the opcode table. */
  datatype Opcode =
    | DBLOCK | ADD | SUB | MUL | DIVIDE | NEGATE | EQUAL | NOTEQUAL | LESS | CONSTANT | GETVAR | SETVAR
    | JUMP | JUMPF | DUP | DISCARD | CONDBEGIN | CONDELSE | CONDEND | LOOPBEGIN | LOOPBODY | LOOPEND
    | CALL | RET | MKARRAY | INDEX1 | INDEXAS | Other(nr: nat)

  datatype Instr = Push(n: int) | Do(op: Opcode)

  const MAX_OP: nat := 54

  /** The position of an opcode in the generated table. */
  function OpcodeNr(op: Opcode): nat {
    match op
    case DBLOCK => 2 case ADD => 3 case SUB => 4 case MUL => 5 case DIVIDE => 6 case NEGATE => 8
    case EQUAL => 11 case NOTEQUAL => 12 case LESS => 13 case CONSTANT => 21 case GETVAR => 22
    case SETVAR => 23 case JUMP => 26 case JUMPF => 28 case DUP => 29 case DISCARD => 31
    case CONDBEGIN => 32 case CONDELSE => 33 case CONDEND => 34 case LOOPBEGIN => 35
    case LOOPBODY => 36 case LOOPEND => 37 case CALL => 41 case RET => 42 case MKARRAY => 46
    case INDEX1 => 47 case INDEXAS => 48 case Other(n) => n
  }

  function OpcodeAt(c: nat): Opcode {
    match c
    case 2 => DBLOCK case 3 => ADD case 4 => SUB case 5 => MUL case 6 => DIVIDE case 8 => NEGATE
    case 11 => EQUAL case 12 => NOTEQUAL case 13 => LESS case 21 => CONSTANT case 22 => GETVAR
    case 23 => SETVAR case 26 => JUMP case 28 => JUMPF case 29 => DUP case 31 => DISCARD
    case 32 => CONDBEGIN case 33 => CONDELSE case 34 => CONDEND case 35 => LOOPBEGIN
    case 36 => LOOPBODY case 37 => LOOPEND case 41 => CALL case 42 => RET case 46 => MKARRAY
    case 47 => INDEX1 case 48 => INDEXAS case _ => Other(c)
  }

  /** The unsigned view of a C int. */
  function Bits(x: int): nat
    requires INT_MIN <= x <= INT_MAX
  {
    if x < 0 then x + 0x1_0000_0000 else x
  }

  /** `OP(x)`: the low byte when the upper three bytes are 0x800000, else 0. */
  function OpField(x: int): nat
    requires INT_MIN <= x <= INT_MAX
  {
    if Bits(x) / 0x100 == 0x80_0000 then Bits(x) % 0x100 else 0
  }

  /** `MKOP(x)`: set the top bit of the byte and read the word as a signed int. */
  function MakeOp(c: nat): int {
    0x8000_0000 + c % 0x100 - 0x1_0000_0000
  }

  predicate Encodable(i: Instr) {
    match i
    case Push(n) => INT_MIN <= n <= INT_MAX && OpField(n) == 0
    case Do(op) => 0 < OpcodeNr(op) < MAX_OP && OpcodeAt(OpcodeNr(op)) == op
  }

  function Encode(i: Instr): int {
    match i
    case Push(n) => n
    case Do(op) => MakeOp(OpcodeNr(op))
  }

  function Decode(x: int): Instr
    requires INT_MIN <= x <= INT_MAX
  {
    if OpField(x) == 0 then Push(x) else Do(OpcodeAt(OpField(x)))
  }

  /** Opcodes and pushed numbers never collide: every cell the program builder accepts decodes to the
      instruction it was built from. */
  lemma DecodeEncode(i: Instr)
    requires Encodable(i)
    ensures INT_MIN <= Encode(i) <= INT_MAX
    ensures Decode(Encode(i)) == i
  {
  }

  /** A cell that decodes to a given opcode is exactly that opcode's encoding, so comparing raw cells,
      as the bracket scans do, is comparing instructions. */
  lemma RawComparison(x: int, i: Instr)
    requires INT_MIN <= x <= INT_MAX && Encodable(i)
    ensures x == Encode(i) <==> Decode(x) == i
  {
  }

  /** What the cell made from an entry of the opcode table reads as. */
  function TableEntry(c: nat): Instr {
    if c == 0 then Push(INT_MIN) else Do(OpcodeAt(c))
  }

  lemma OpBits(c: nat)
    requires c < MAX_OP
    ensures INT_MIN <= MakeOp(c) <= INT_MAX && OpField(MakeOp(c)) == c
  {
  }

  lemma TableInverse(c: nat)
    ensures OpcodeNr(OpcodeAt(c)) == c
  {
  }

  /** Every entry of the opcode table makes a cell that reads as one instruction: entry 0 as the number
      INT_MIN, the others as opcodes. */
  lemma OpCellIs(c: nat)
    requires c < MAX_OP
    ensures INT_MIN <= MakeOp(c) <= INT_MAX
    ensures Decode(MakeOp(c)) == TableEntry(c) && Encodable(TableEntry(c)) && Encode(TableEntry(c)) == MakeOp(c)
  {
    OpBits(c);
    TableInverse(c);
    hide OpcodeAt, OpcodeNr, OpField;
    if c == 0 { ZeroEntry(); }
  }

  lemma ZeroEntry()
    ensures MakeOp(0) == INT_MIN && Encodable(Push(INT_MIN))
  {
  }

  /** An opcode the model names is the one at its position in the table. */
  lemma NamedOp(op: Opcode)
    ensures Encodable(Do(op)) ==> OpcodeNr(op) < MAX_OP && TableEntry(OpcodeNr(op)) == Do(op)
    ensures !op.Other? ==> Encodable(Do(op))
  {
  }

  /** The numbers refused by `prog_add_num` are INT_MIN + 1 .. INT_MIN + 255. */
  lemma RefusedNumbers(x: int)
    requires INT_MIN <= x <= INT_MAX
    ensures OpField(x) != 0 <==> INT_MIN < x < INT_MIN + 0x100
  {
  }

  function EncodeAll(c: seq<Instr>): (r: seq<int>)
    ensures |r| == |c| && forall i :: 0 <= i < |c| ==> r[i] == Encode(c[i])
  {
    seq(|c|, i requires 0 <= i < |c| => Encode(c[i]))
  }
}
