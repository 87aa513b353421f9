/** The instruction encoding: creating instructions, and parsing them back from a stream of bytes. */
module Bytecode {
  import opened Words

  type Reg = r: int | 0 <= r < 8
  type LowReg = r: int | 0 <= r < 4
  type Nibble = n: int | 0 <= n < 16

  const IP: Reg := 7
  const SP: Reg := 6
  const SCRATCH: Reg := 5
  const ILLEGAL_BYTE: Byte := 0xC3

  // ALU types
  const INC := 0
  const DEC := 1
  const ADD := 2
  const SUB := 3
  const MUL := 4
  const DIV := 5
  const XOR := 6
  const OR := 7
  const AND := 8
  const CMP := 9
  const SHL := 10
  const SHR := 11
  const SKIP := 12
  const EXTRA := 13

  // ALU extra types, kept in the second operand
  const NOT := 0
  const STORE16 := 1
  const LOAD16 := 2
  const PUSH16 := 3
  const POP16 := 4
  const CALL := 5
  const XCHG8 := 6
  const CLZ := 7

  // Short misc types
  const NOP := 0
  const SYSCALL := 1
  const CLEAR_CACHE := 2
  const ILLEGAL := 3
  const DEBUG := 4

  datatype Instr =
    | Load8(dest: Reg, src: Reg)
    | Store8(dest: Reg, src: Reg)
    | Set4(dest4: LowReg, value4: Nibble)
    | Alu(op: Nibble, dest: Reg, opA: Reg, opB: Reg)
    | Short(kind: Nibble)
    | Set8(dest: Reg, value8: Byte)
    | Set16(dest: Reg, value16: Word)

  /** The amount an inc or dec instruction adds or subtracts. */
  function IncDecValue(a: Reg, b: Reg): (v: int)
    ensures 1 <= v <= 64
  {
    a * 8 + b + 1
  }

  // Creating instructions. Fields of one byte never overlap, so `|` is a sum.

  function CreateMemory(kind: int, dest: Reg, src: Reg): Byte
    requires 0 <= kind < 2
  {
    kind * 64 + dest * 8 + src
  }

  function CreateMemorySet4(dest: LowReg, value: Nibble): Byte
  {
    2 * 64 + dest * 16 + value
  }

  function CreateAlu(op: Nibble, dest: Reg, a: Reg, b: Reg): seq<Byte> {
    var upper: Byte := 0xE0 + op * 2 + dest / 4;
    var lower: Byte := (dest % 4) * 64 + a * 8 + b;
    [upper, lower]
  }

  function CreateAluIncDec(op: Nibble, dest: Reg, value: int): seq<Byte>
    requires op == INC || op == DEC
    requires 0 < value <= 64
  {
    CreateAlu(op, dest, (value - 1) / 8, (value - 1) % 8)
  }

  function CreateShort(kind: Nibble): Byte {
    0xC0 + kind
  }

  function CreateSet8(dest: Reg, value: Byte): seq<Byte> {
    [0xD0 + dest, value]
  }

  function CreateSet16(dest: Reg, value: Word): seq<Byte> {
    [0xD8 + dest, Hi(value), Lo(value)]
  }

  /** The shortest instruction that sets a register to a value. */
  function CreateSet(dest: Reg, value: Word): seq<Byte> {
    if value < 16 && dest < 4 then [CreateMemorySet4(dest, value)]
    else if value < 256 then CreateSet8(dest, value)
    else CreateSet16(dest, value)
  }

  function Encode(i: Instr): (r: seq<Byte>)
    ensures 1 <= |r| <= 3
  {
    match i
    case Load8(d, s) => [CreateMemory(0, d, s)]
    case Store8(d, s) => [CreateMemory(1, d, s)]
    case Set4(d, v) => [CreateMemorySet4(d, v)]
    case Alu(op, d, a, b) => CreateAlu(op, d, a, b)
    case Short(k) => [CreateShort(k)]
    case Set8(d, v) => CreateSet8(d, v)
    case Set16(d, v) => CreateSet16(d, v)
  }

  // Parsing.

  function ParseLength(b0: Byte): (n: nat)
    ensures 1 <= n <= 3
  {
    if b0 < 0xD0 then 1 else if b0 / 8 != 0x1B then 2 else 3
  }

  /** The instruction held by three bytes; those past its length do not matter. */
  function Parse(b0: Byte, b1: Byte, b2: Byte): (i: Instr)
  {
    if b0 / 64 != 3 then
      if b0 / 64 == 2 then Set4(b0 / 16 % 4, b0 % 16)
      else if b0 / 64 == 0 then Load8(b0 / 8 % 8, b0 % 8)
      else Store8(b0 / 8 % 8, b0 % 8)
    else if b0 / 32 % 2 == 1 then
      var upper16 := Join(b0, b1);
      Alu(upper16 / 512 % 16, upper16 / 64 % 8, upper16 / 8 % 8, upper16 % 8)
    else if b0 / 16 % 2 == 1 then
      if b0 / 8 % 2 == 1 then Set16(b0 % 8, Join(b1, b2)) else Set8(b0 % 8, b1)
    else Short(b0 % 16)
  }

  function ByteAt(s: seq<Byte>, at: nat): Byte {
    if at < |s| then s[at] else 0
  }

  function ParseAt(s: seq<Byte>, at: nat): Instr {
    Parse(ByteAt(s, at), ByteAt(s, at + 1), ByteAt(s, at + 2))
  }

  lemma AluBytes(op: Nibble, d: Reg, a: Reg, b: Reg)
    ensures var e := CreateAlu(op, d, a, b);
            && e[0] / 32 == 7 && Join(e[0], e[1]) == 0xE000 + op * 512 + d * 64 + a * 8 + b
  {
  }

  lemma AluFields(op: Nibble, d: Reg, a: Reg, b: Reg)
    ensures var u := 0xE000 + op * 512 + d * 64 + a * 8 + b;
            u / 512 % 16 == op && u / 64 % 8 == d && u / 8 % 8 == a && u % 8 == b
  {
    var u := 0xE000 + op * 512 + d * 64 + a * 8 + b;
    assert u / 8 == 0x1C00 + op * 64 + d * 8 + a;
    assert u / 64 == 0x380 + op * 8 + d;
    assert u / 512 == 0x70 + op;
  }

  lemma ParseAlu(op: Nibble, d: Reg, a: Reg, b: Reg, b2: Byte)
    ensures var e := CreateAlu(op, d, a, b);
            ParseLength(e[0]) == 2 && Parse(e[0], e[1], b2) == Alu(op, d, a, b)
  {
    var e := CreateAlu(op, d, a, b);
    AluBytes(op, d, a, b);
    AluFields(op, d, a, b);
    assert e[0] / 64 == 3 && e[0] / 32 % 2 == 1 && e[0] / 8 >= 28;
  }

  lemma ParseSet4(d: LowReg, v: Nibble, b1: Byte, b2: Byte)
    ensures var b0 := CreateMemorySet4(d, v); ParseLength(b0) == 1 && Parse(b0, b1, b2) == Set4(d, v)
  {
  }

  lemma MemoryFields(kind: int, d: Reg, r: Reg)
    requires 0 <= kind < 2
    ensures var b0 := CreateMemory(kind, d, r); b0 / 64 == kind && b0 / 8 % 8 == d && b0 % 8 == r
  {
    var b0 := CreateMemory(kind, d, r);
    assert b0 / 8 == kind * 8 + d;
  }

  lemma ParseMemory(kind: int, d: Reg, r: Reg, b1: Byte, b2: Byte)
    requires 0 <= kind < 2
    ensures var b0 := CreateMemory(kind, d, r);
            ParseLength(b0) == 1 && Parse(b0, b1, b2) == if kind == 0 then Load8(d, r) else Store8(d, r)
  {
    MemoryFields(kind, d, r);
  }

  lemma ParseMisc(i: Instr, b1: Byte, b2: Byte)
    requires i.Short? || i.Set8? || i.Set16?
    ensures var e := Encode(i);
            && ParseLength(e[0]) == |e|
            && Parse(e[0], if |e| > 1 then e[1] else b1, if |e| > 2 then e[2] else b2) == i
  {
    var b0 := Encode(i)[0];
    assert b0 / 64 == 3 && b0 / 32 == 6;
    if i.Short? {
      assert b0 / 16 == 12;
    } else if i.Set8? {
      assert b0 / 16 == 13 && b0 / 8 == 26;
    } else {
      assert b0 / 16 == 13 && b0 / 8 == 27;
    }
  }

  /** Parsing what was created gives the instruction back, with its length. */
  lemma ParseEncode(i: Instr, b1: Byte, b2: Byte)
    ensures var e := Encode(i);
            && ParseLength(e[0]) == |e|
            && Parse(e[0], if |e| > 1 then e[1] else b1, if |e| > 2 then e[2] else b2) == i
  {
    hide Parse, ParseLength, CreateMemory, CreateMemorySet4, Join;
    match i {
      case Load8(d, r) => ParseMemory(0, d, r, b1, b2);
      case Store8(d, r) => ParseMemory(1, d, r, b1, b2);
      case Set4(d, v) => ParseSet4(d, v, b1, b2);
      case Alu(op, d, a, b) => ParseAlu(op, d, a, b, b2);
      case Short(_) => ParseMisc(i, b1, b2);
      case Set8(_, _) => ParseMisc(i, b1, b2);
      case Set16(_, _) => ParseMisc(i, b1, b2);
    }
  }

  lemma ParseIgnoresRest(b0: Byte, b1: Byte, b2: Byte, c1: Byte, c2: Byte)
    requires ParseLength(b0) >= 2 ==> b1 == c1
    requires ParseLength(b0) == 3 ==> b2 == c2
    ensures Parse(b0, b1, b2) == Parse(b0, c1, c2)
  {
    hide Join;
    if b0 < 0xC0 {
      assert b0 / 64 != 3;
    } else if b0 < 0xD0 {
      assert b0 / 64 == 3 && b0 / 32 == 6 && b0 / 16 == 12;
    } else if b0 < 0xD8 {
      assert b0 / 64 == 3 && b0 / 32 == 6 && b0 / 16 == 13 && b0 / 8 == 26;
    } else if b0 < 0xE0 {
      assert b0 / 8 == 27;
    } else {
      assert b0 / 64 == 3 && b0 / 32 == 7 && b0 / 8 >= 28;
    }
  }

  lemma AluRejoined(op: Nibble, h: int, x: int, a: Reg, b: Reg)
    requires 0 <= h < 2 && 0 <= x < 4
    ensures 0xE0 + op * 2 + h < 256 && x * 64 + a * 8 + b < 256
    ensures Join(0xE0 + op * 2 + h, x * 64 + a * 8 + b) == 0xE000 + op * 512 + (h * 4 + x) * 64 + a * 8 + b
  {
  }

  lemma ByteInFields(b1: Byte)
    ensures b1 == b1 / 64 * 64 + b1 / 8 % 8 * 8 + b1 % 8 && b1 / 64 < 4
  {
    assert b1 / 64 == b1 / 8 / 8;
  }

  lemma AluFromFields(b0: Byte, b1: Byte)
    requires b0 >= 0xE0
    ensures var u := Join(b0, b1);
            && u / 512 % 16 == (b0 - 0xE0) / 2 && u / 64 % 8 == b0 % 2 * 4 + b1 / 64
            && u / 8 % 8 == b1 / 8 % 8 && u % 8 == b1 % 8
  {
    hide Join;
    var op: Nibble, h := (b0 - 0xE0) / 2, b0 % 2;
    var x, a: Reg, b: Reg := b1 / 64, b1 / 8 % 8, b1 % 8;
    ByteInFields(b1);
    AluRejoined(op, h, x, a, b);
    AluFields(op, h * 4 + x, a, b);
  }

  lemma EncodeParseAlu(b0: Byte, b1: Byte, b2: Byte)
    requires b0 >= 0xE0
    ensures Encode(Parse(b0, b1, b2)) == [b0, b1]
  {
    hide Encode, Join, CreateAlu;
    AluFromFields(b0, b1);
    var op, d: Reg := (b0 - 0xE0) / 2, b0 % 2 * 4 + b1 / 64;
    assert Parse(b0, b1, b2) == Alu(op, d, b1 / 8 % 8, b1 % 8);
    AluReassembled(b0, b1);
  }

  lemma AluReassembled(b0: Byte, b1: Byte)
    requires b0 >= 0xE0
    ensures Encode(Alu((b0 - 0xE0) / 2, b0 % 2 * 4 + b1 / 64, b1 / 8 % 8, b1 % 8)) == [b0, b1]
  {
    var d := b0 % 2 * 4 + b1 / 64;
    assert d / 4 == b0 % 2 && d % 4 == b1 / 64;
    assert b1 == b1 / 64 * 64 + b1 / 8 % 8 * 8 + b1 % 8;
  }

  /** An inc or dec made for an amount parses to one of that amount. */
  lemma IncDecAmountKept(op: Nibble, dest: Reg, value: int, b2: Byte)
    requires (op == INC || op == DEC) && 0 < value <= 64
    ensures var e := CreateAluIncDec(op, dest, value);
            var i := Parse(e[0], e[1], b2);
            i.Alu? && i.op == op && i.dest == dest && IncDecValue(i.opA, i.opB) == value
  {
    hide Parse;
    ParseAlu(op, dest, (value - 1) / 8, (value - 1) % 8, b2);
  }

  /**
   * Every three bytes parse to an instruction whose encoding is the bytes its length covers; the eleven bytes no
   * instruction is created with are told apart by their kind.
   */
  lemma EncodeParse(b0: Byte, b1: Byte, b2: Byte)
    ensures Encode(Parse(b0, b1, b2)) == [b0, b1, b2][..ParseLength(b0)]
    ensures 0xC5 <= b0 <= 0xCF <==> Parse(b0, b1, b2).Short? && Parse(b0, b1, b2).kind > DEBUG
  {
    if b0 >= 0xE0 {
      EncodeParseAlu(b0, b1, b2);
    } else if b0 >= 0xC0 {
      EncodeParseMisc(b0, b1, b2);
    } else {
      EncodeParseMemory(b0, b1, b2);
    }
  }

  lemma EncodeParseMemory(b0: Byte, b1: Byte, b2: Byte)
    requires b0 < 0xC0
    ensures Encode(Parse(b0, b1, b2)) == [b0, b1, b2][..ParseLength(b0)]
  {
    hide Join, Hi, Lo;
    assert b0 == b0 / 8 * 8 + b0 % 8 && b0 / 8 == b0 / 64 * 8 + b0 / 8 % 8;
    assert b0 == b0 / 16 * 16 + b0 % 16 && b0 / 16 == b0 / 64 * 4 + b0 / 16 % 4;
  }

  lemma EncodeParseMisc(b0: Byte, b1: Byte, b2: Byte)
    requires 0xC0 <= b0 < 0xE0
    ensures Encode(Parse(b0, b1, b2)) == [b0, b1, b2][..ParseLength(b0)]
  {
    assert b0 / 64 == 3 && b0 / 32 == 6;
    if b0 < 0xD0 {
      assert b0 / 16 == 12;
    } else if b0 < 0xD8 {
      assert b0 / 16 == 13 && b0 / 8 == 26;
    } else {
      assert b0 / 16 == 13 && b0 / 8 == 27;
    }
  }

  /** Only the illegal instruction starts with the byte the assembler uses as an end marker. */
  lemma SentinelFree(i: Instr)
    ensures Encode(i)[0] == ILLEGAL_BYTE <==> i == Short(ILLEGAL)
  {
  }

  /** The instruction `CreateSet` chooses. */
  function SetInstr(dest: Reg, value: Word): (i: Instr)
    ensures CreateSet(dest, value) == Encode(i)
  {
    if value < 16 && dest < 4 then Set4(dest, value)
    else if value < 256 then Set8(dest, value)
    else Set16(dest, value)
  }

  /** No instruction that sets the register to the value is shorter than the one chosen. */
  lemma SetShortest(dest: Reg, value: Word, i: Instr)
    requires Sets(i, dest, value)
    ensures Sets(SetInstr(dest, value), dest, value) && |CreateSet(dest, value)| <= |Encode(i)|
  {
  }

  predicate Sets(i: Instr, dest: Reg, value: Word) {
    match i
    case Set4(d, v) => d == dest && v == value
    case Set8(d, v) => d == dest && v == value
    case Set16(d, v) => d == dest && v == value
    case _ => false
  }

  /** An instruction's bytes, read as one number with the first byte uppermost, hold its fields. */
  lemma EncodedFields(i: Instr)
    ensures var e := Encode(i);
            var word, long := if |e| > 1 then 0x100 * (e[0] as int) + e[1] else e[0],
                              if |e| > 2 then 0x1_0000 * (e[0] as int) + 0x100 * (e[1] as int) + e[2] else 0;
            match i
            case Load8(d, s) => |e| == 1 && word == 8 * d + s
            case Store8(d, s) => |e| == 1 && word == 0x40 + 8 * d + s
            case Set4(d, v) => |e| == 1 && word == 0x80 + 16 * d + v
            case Short(k) => |e| == 1 && word == 0xC0 + k
            case Alu(op, d, a, b) => |e| == 2 && word == 0xE000 + 512 * op + 64 * d + 8 * a + b
            case Set8(d, v) => |e| == 2 && word == 0xD000 + 256 * d + v
            case Set16(d, v) => |e| == 3 && long == 0xD8_0000 + 0x1_0000 * d + v
  {
    hide Join;
    if i.Alu? {
      AluNumber(i.op, i.dest, i.opA, i.opB);
    }
  }

  lemma AluNumber(op: Nibble, d: Reg, a: Reg, b: Reg)
    ensures var e := CreateAlu(op, d, a, b);
            0x100 * (e[0] as int) + e[1] == 0xE000 + 512 * op + 64 * d + 8 * a + b
  {
    AluBytes(op, d, a, b);
  }

  // Streams.

  function EncodeAll(list: seq<Instr>): (r: seq<Byte>)
    ensures |r| >= |list|
  {
    if list == [] then [] else Encode(list[0]) + EncodeAll(list[1..])
  }

  /** Fetching instructions one after another until the bytes run out. */
  function DecodeAll(s: seq<Byte>): seq<Instr>
    decreases |s|
  {
    if s == [] then []
    else
      var n := ParseLength(s[0]);
      [ParseAt(s, 0)] + if n <= |s| then DecodeAll(s[n..]) else []
  }

  lemma DecodeFirst(i: Instr, rest: seq<Byte>)
    ensures var s := Encode(i) + rest;
            ParseAt(s, 0) == i && ParseLength(s[0]) == |Encode(i)| && s[|Encode(i)|..] == rest
  {
    var s := Encode(i) + rest;
    ParseEncode(i, ByteAt(s, 1), ByteAt(s, 2));
  }

  /** A stream of encoded instructions decodes to exactly those instructions. */
  lemma {:induction false} DecodeEncodeAll(list: seq<Instr>)
    ensures DecodeAll(EncodeAll(list)) == list
  {
    if list != [] {
      DecodeFirst(list[0], EncodeAll(list[1..]));
      DecodeEncodeAll(list[1..]);
    }
  }

  /** Two instruction lists with the same bytes are the same list. */
  lemma EncodeAllUnique(a: seq<Instr>, b: seq<Instr>)
    requires EncodeAll(a) == EncodeAll(b)
    ensures a == b
  {
    DecodeEncodeAll(a);
    DecodeEncodeAll(b);
  }

  lemma EncodeAllOne(i: Instr)
    ensures EncodeAll([i]) == Encode(i)
  {
  }

  lemma EncodeAllTwo(i: Instr, j: Instr)
    ensures EncodeAll([i, j]) == Encode(i) + Encode(j)
  {
    hide Encode;
    assert [i, j][1..] == [j];
    EncodeAllOne(j);
  }
}
