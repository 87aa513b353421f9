/**
 * The machine both interpreters run, on values: registers and the memory bytes whose contents are known.
 * An outcome is `Stuck` where the two interpreters are not meant to agree.
 */
module Isa {
  import opened AddressMap
  import opened Bytecode
  import opened Words

  // Growing RAM for a write below this address leaves the top 1kb alone.
  const WRITE_END := 64497

  type Regs = s: seq<Word> | |s| == 8 witness [0, 0, 0, 0, 0, 0, 0, 0]

  datatype Cpu = Cpu(regs: Regs, mem: map<Word, Byte>)

  datatype Outcome = Next(cpu: Cpu) | Halt | Stuck

  function SetReg(c: Cpu, r: Reg, v: Word): (d: Cpu)
    ensures d.mem == c.mem && d.regs[r] == v
    ensures forall k :: 0 <= k < 8 && k != r ==> d.regs[k] == c.regs[k]
  {
    c.(regs := c.regs[r := v])
  }

  // Fetching.

  predicate CanFetch(c: Cpu) {
    var ip := c.regs[IP];
    && ip < PROGMEM_END && ip in c.mem
    && ip + ParseLength(c.mem[ip]) <= PROGMEM_END
    && (ParseLength(c.mem[ip]) >= 2 ==> ip + 1 in c.mem)
    && (ParseLength(c.mem[ip]) == 3 ==> ip + 2 in c.mem)
  }

  function FetchLength(c: Cpu): (n: nat)
    requires CanFetch(c)
    ensures 1 <= n <= 3
  {
    ParseLength(c.mem[c.regs[IP]])
  }

  function FetchInstr(c: Cpu): Instr
    requires CanFetch(c)
  {
    var ip := c.regs[IP];
    Parse(c.mem[ip],
          if FetchLength(c) >= 2 then c.mem[ip + 1] else 0,
          if FetchLength(c) == 3 then c.mem[ip + 2] else 0)
  }

  /** The machine with IP past the instruction it points at. */
  function Advance(c: Cpu): Cpu
    requires CanFetch(c)
  {
    SetReg(c, IP, c.regs[IP] + FetchLength(c))
  }

  // Data access.

  predicate CanLoad(c: Cpu, a: Word) {
    a in c.mem && (a < RAM_ADDR ==> a < PROGMEM_END)
  }

  predicate CanLoadWord(c: Cpu, a: Word) {
    a + 1 < 0x1_0000 && a + 1 != ENV_ADDR && CanLoad(c, a) && CanLoad(c, a + 1)
  }

  /** A store that leaves every other byte alone: one that cannot reach the window, stays below it, or stays in it. */
  predicate CanStore(mem: map<Word, Byte>, a: Word, n: nat) {
    RAM_ADDR <= a && a + n <= 0xFFFF && (a + n <= WRITE_END || InPlace(mem, a, n))
  }

  /** A store into bytes that are there already, with RAM after it or environment data at its end. */
  predicate InPlace(mem: map<Word, Byte>, a: Word, n: nat) {
    if a < ENV_ADDR then a + n < ENV_ADDR && a + n in mem else n > 0 && a + n - 1 < 0x1_0000 && a + n - 1 in mem
  }

  function StoreByte(c: Cpu, a: Word, v: Byte): Cpu {
    c.(mem := c.mem[a := v])
  }

  function StoreWord(c: Cpu, a: Word, v: Word): Cpu
    requires a + 1 < 0x1_0000
  {
    c.(mem := c.mem[a := Hi(v)][a + 1 := Lo(v)])
  }

  function LoadWord(c: Cpu, a: Word): Word
    requires CanLoadWord(c, a)
  {
    Join(c.mem[a], c.mem[a + 1])
  }

  // Arithmetic.

  function Pow2(n: nat): (r: nat)
    ensures r >= 1
  {
    if n == 0 then 1 else 2 * Pow2(n - 1)
  }

  /** Bit `k` of a word. */
  predicate Bit(w: nat, k: nat)
    decreases k
  {
    if k == 0 then w % 2 == 1 else Bit(w / 2, k - 1)
  }

  /** A bit is a binary digit. */
  lemma {:induction false} BitMeans(w: nat, k: nat)
    ensures Bit(w, k) <==> w / Pow2(k) % 2 == 1
    decreases k
  {
    if k > 0 {
      BitMeans(w / 2, k - 1);
      HalvesTwice(w, Pow2(k - 1));
    }
  }

  lemma HalvesTwice(w: nat, m: nat)
    requires m > 0
    ensures w / 2 / m == w / (2 * m)
  {
    var q, r := w / 2 / m, w / 2 % m;
    TwiceTimes(m, q);
    QuotientIs(w, 2 * m, q, 2 * r + w % 2);
  }

  function Flag(b: bool): nat {
    if b then 1 else 0
  }

  /** The eight comparison bits, lowest first. */
  function CompareBits(a: Word, b: Word): Word {
    Flag(a == b) + 2 * Flag(a == 0) + 4 * Flag(a != b) + 8 * Flag(a != 0)
    + 16 * Flag(a < b) + 32 * Flag(a <= b) + 64 * Flag(a > b) + 128 * Flag(a >= b)
  }

  /** What each comparison bit a skip can test says. */
  lemma CompareBitsSay(a: Word, b: Word)
    ensures var c := CompareBits(a, b);
            && (Bit(c, 0) <==> a == b) && (Bit(c, 1) <==> a == 0) && (Bit(c, 2) <==> a != b) && (Bit(c, 3) <==> a != 0)
            && (Bit(c, 4) <==> a < b) && (Bit(c, 5) <==> a <= b) && (Bit(c, 6) <==> a > b) && (Bit(c, 7) <==> a >= b)
  {
    var c := CompareBits(a, b);
    assert c / 2 == Flag(a == 0) + 2 * Flag(a != b) + 4 * Flag(a != 0)
      + 8 * Flag(a < b) + 16 * Flag(a <= b) + 32 * Flag(a > b) + 64 * Flag(a >= b);
    assert c / 2 / 2 == Flag(a != b) + 2 * Flag(a != 0)
      + 4 * Flag(a < b) + 8 * Flag(a <= b) + 16 * Flag(a > b) + 32 * Flag(a >= b);
    assert c / 2 / 2 / 2 == Flag(a != 0) + 2 * Flag(a < b) + 4 * Flag(a <= b) + 8 * Flag(a > b) + 16 * Flag(a >= b);
    var d := c / 2 / 2 / 2 / 2;
    assert d == Flag(a < b) + 2 * Flag(a <= b) + 4 * Flag(a > b) + 8 * Flag(a >= b);
    HighBits(c, d);
  }

  lemma HighBits(c: nat, d: nat)
    requires d == c / 2 / 2 / 2 / 2
    ensures Bit(c, 0) == (c % 2 == 1) && Bit(c, 1) == (c / 2 % 2 == 1) && Bit(c, 2) == (c / 2 / 2 % 2 == 1)
    ensures Bit(c, 3) == (c / 2 / 2 / 2 % 2 == 1) && Bit(c, 4) == (d % 2 == 1) && Bit(c, 5) == (d / 2 % 2 == 1)
    ensures Bit(c, 6) == (d / 2 / 2 % 2 == 1) && Bit(c, 7) == (d / 2 / 2 / 2 % 2 == 1)
  {
    assert forall w: nat, k: nat :: k > 0 ==> Bit(w, k) == Bit(w / 2, k - 1);
  }

  /** Leading zeros of a byte: the table both interpreters hold. */
  function Clz8(b: Byte): (n: nat)
    ensures n <= 8
  {
    if b >= 128 then 0 else if b >= 64 then 1 else if b >= 32 then 2 else if b >= 16 then 3
    else if b >= 8 then 4 else if b >= 4 then 5 else if b >= 2 then 6 else if b == 1 then 7 else 8
  }

  function Clz16(w: Word): (n: nat)
    ensures n <= 16
  {
    if Hi(w) != 0 then Clz8(Hi(w)) else Clz8(Lo(w)) + 8
  }

  /** The highest set bit is where the leading zeros end. */
  lemma ClzBounds(w: Word)
    ensures w < Pow2(16 - Clz16(w))
    ensures w > 0 ==> Clz16(w) < 16 && Pow2(15 - Clz16(w)) <= w
  {
    PowersUpTo16();
  }

  lemma PowersUpTo16()
    ensures Pow2(0) == 1 && Pow2(1) == 2 && Pow2(2) == 4 && Pow2(3) == 8 && Pow2(4) == 16 && Pow2(5) == 32
    ensures Pow2(6) == 64 && Pow2(7) == 128 && Pow2(8) == 256 && Pow2(9) == 512 && Pow2(10) == 1024
    ensures Pow2(11) == 2048 && Pow2(12) == 4096 && Pow2(13) == 8192 && Pow2(14) == 16384
    ensures Pow2(15) == 32768 && Pow2(16) == 65536
  {
  }

  /** Types whose result is a word computed from the two operands alone; division by zero has none. */
  predicate Arithmetic(op: Nibble) {
    ADD <= op <= SHR
  }

  datatype Gate = XorGate | OrGate | AndGate

  /** The gate applied to the lowest bits of two numbers. */
  function LowBit(g: Gate, a: nat, b: nat): (r: nat)
    ensures r <= 1
  {
    var x, y := a % 2 == 1, b % 2 == 1;
    Flag(GateOpens(g, x, y))
  }

  /** The gate applied bit by bit, lowest `n` bits. */
  function Bitwise(g: Gate, a: nat, b: nat, n: nat): (r: nat)
    ensures r < Pow2(n)
    decreases n
  {
    if n == 0 then 0 else 2 * Bitwise(g, a / 2, b / 2, n - 1) + LowBit(g, a, b)
  }

  predicate GateOpens(g: Gate, x: bool, y: bool) {
    match g case XorGate => x != y case OrGate => x || y case AndGate => x && y
  }

  /** Each bit of the result is the gate of the operands' bits. */
  lemma {:induction false} BitwiseBit(g: Gate, a: nat, b: nat, n: nat, k: nat)
    requires k < n
    ensures Bit(Bitwise(g, a, b, n), k) <==> GateOpens(g, Bit(a, k), Bit(b, k))
    decreases n
  {
    if k > 0 {
      BitwiseBit(g, a / 2, b / 2, n - 1, k - 1);
      assert Bitwise(g, a, b, n) / 2 == Bitwise(g, a / 2, b / 2, n - 1);
    }
  }

  function Gated(g: Gate, a: Word, b: Word): Word {
    PowersUpTo16();
    Bitwise(g, a, b, 16)
  }

  function ShiftLeft(a: Word, b: Word): Word {
    if b < 16 then Wrap(a * Pow2(b)) else 0
  }

  function ShiftRight(a: Word, b: Word): Word {
    if b < 16 then Quotient(a, Pow2(b)) else 0
  }

  function Quotient(a: Word, b: int): (q: Word)
    requires b > 0
    ensures b * q <= a < b * q + b
  {
    assert a / b <= a by { QuotientBound(a, b, a / b); }
    a / b
  }

  lemma QuotientBound(a: nat, b: nat, q: nat)
    requires b > 0 && b * q <= a
    ensures q <= a
  {
  }

  function AluResult(op: Nibble, a: Word, b: Word): Word
    requires Arithmetic(op) && (op == DIV ==> b != 0)
  {
    if op == ADD then Wrap(a + b)
    else if op == SUB then Wrap((a as int) - b)
    else if op == MUL then Wrap(a * b)
    else if op == DIV then Quotient(a, b)
    else if op == XOR then Gated(XorGate, a, b)
    else if op == OR then Gated(OrGate, a, b)
    else if op == AND then Gated(AndGate, a, b)
    else if op == CMP then CompareBits(a, b)
    else if op == SHL then ShiftLeft(a, b)
    else ShiftRight(a, b)
  }

  lemma HalfOfQuotient(w: nat, p: nat, m: nat)
    requires 2 * p <= w < 2 * p + 2 * m
    ensures p <= w / 2 < p + m
  {
  }

  /** Dividing by a power of two moves each bit down. */
  lemma {:induction false} DividedBit(w: nat, n: nat, q: nat, k: nat)
    requires Pow2(n) * q <= w < Pow2(n) * q + Pow2(n)
    ensures Bit(q, k) == Bit(w, k + n)
    decreases n
  {
    if n > 0 {
      var m := Pow2(n - 1);
      assert Pow2(n) * q == 2 * (m * q) by { TwiceTimes(m, q); }
      HalfOfQuotient(w, m * q, m);
      DividedBit(w / 2, n - 1, q, k);
    }
  }

  lemma TwiceTimes(m: nat, q: nat)
    ensures 2 * m * q == 2 * (m * q)
  {
  }

  lemma HalfOfRemainder(w: nat, m: nat)
    requires m > 0
    ensures w % (2 * m) / 2 == w / 2 % m && w % (2 * m) % 2 == w % 2
  {
    var q, r := w / 2 / m, w / 2 % m;
    TwiceTimes(m, q);
    QuotientIs(w, 2 * m, q, 2 * r + w % 2);
  }

  lemma QuotientIs(w: nat, m: nat, q: nat, r: nat)
    requires m > 0 && w == m * q + r && r < m
    ensures w / m == q && w % m == r
  {
    var d := w / m - q;
    assert m * d == r - w % m;
    assert 0 - m < m * d < m;
  }

  /** Multiplying by a power of two moves each bit up and leaves zeros below. */
  lemma {:induction false} MultipliedBit(w: nat, n: nat, k: nat)
    ensures Bit(w * Pow2(n), k) == (k >= n && Bit(w, k - n))
    decreases n
  {
    if n > 0 {
      var m := w * Pow2(n - 1);
      assert w * Pow2(n) == 2 * m;
      assert 2 * m / 2 == m && 2 * m % 2 == 0;
      if k > 0 {
        MultipliedBit(w, n - 1, k - 1);
      }
    }
  }

  /** Wrapping a number keeps its lowest bits. */
  lemma {:induction false} WrappedBit(w: nat, n: nat, k: nat)
    requires k < n
    ensures Bit(w % Pow2(n), k) == Bit(w, k)
    decreases n
  {
    HalfOfRemainder(w, Pow2(n - 1));
    if k > 0 {
      WrappedBit(w / 2, n - 1, k - 1);
    }
  }

  /** A number has no bit above its size. */
  lemma {:induction false} NoBitAbove(w: nat, k: nat)
    requires w < Pow2(k)
    ensures !Bit(w, k)
    decreases k
  {
    if k > 0 {
      NoBitAbove(w / 2, k - 1);
    }
  }

  lemma {:induction false} PowersGrow(m: nat, n: nat)
    requires m <= n
    ensures Pow2(m) <= Pow2(n)
    decreases n
  {
    if m < n {
      PowersGrow(m, n - 1);
    }
  }

  /** Shifting up by `b` takes each bit from `b` places below, shifting down from `b` places above. */
  lemma ShiftedBit(a: Word, b: Word, k: nat)
    requires k < 16
    ensures Bit(ShiftLeft(a, b), k) == (k >= b && Bit(a, k - b))
    ensures Bit(ShiftRight(a, b), k) == (k + b < 16 && Bit(a, k + b))
  {
    hide Bit, Pow2;
    NoBits(k);
    PowersUpTo16();
    if b < 16 {
      WrappedBit(a * Pow2(b), 16, k);
      MultipliedBit(a, b, k);
      DividedBit(a, b, ShiftRight(a, b), k);
      if k + b >= 16 {
        PowersGrow(16, k + b);
        NoBitAbove(a, k + b);
      }
    }
  }

  lemma {:induction false} NoBits(k: nat)
    ensures !Bit(0, k)
    decreases k
  {
    if k > 0 {
      NoBits(k - 1);
    }
  }

  lemma WrapUndone(a: Word, b: Word)
    ensures Wrap((Wrap(a + b) as int) - b) == a && Wrap(Wrap((a as int) - b) + b) == a
  {
  }

  lemma WrapLoses(x: nat)
    ensures exists lost: nat :: 0x1_0000 * lost + Wrap(x) == x
  {
    assert 0x1_0000 * (x / 0x1_0000) + Wrap(x) == x;
  }

  lemma WrapCarries(a: Word, b: Word)
    ensures Wrap(a + b) == a + b - if a + b < 0x1_0000 then 0 else 0x1_0000
    ensures Wrap((a as int) - b) == (a as int) - b + if a >= b then 0 else 0x1_0000
  {
  }

  /**
   * What a sum, a difference, a product and a quotient are: one carry or borrow at most is lost, a product loses whole
   * multiples of 65536, and a quotient is the largest that fits. Sum and difference undo each other.
   */
  lemma AluMeans(op: Nibble, a: Word, b: Word)
    requires Arithmetic(op) && (op == DIV ==> b != 0)
    ensures op == ADD ==> AluResult(ADD, a, b) == a + b - if a + b < 0x1_0000 then 0 else 0x1_0000
    ensures op == SUB ==> AluResult(SUB, a, b) == (a as int) - b + if a >= b then 0 else 0x1_0000
    ensures op == ADD ==> AluResult(SUB, AluResult(ADD, a, b), b) == a
    ensures op == SUB ==> AluResult(ADD, AluResult(SUB, a, b), b) == a
    ensures op == MUL ==> exists lost: nat :: 0x1_0000 * lost + AluResult(MUL, a, b) == a * b
    ensures op == DIV ==> b * AluResult(DIV, a, b) <= a < b * AluResult(DIV, a, b) + b
  {
    hide Gated, CompareBits, ShiftLeft, ShiftRight, Wrap;
    if op == ADD || op == SUB {
      WrapUndone(a, b);
      WrapCarries(a, b);
    } else if op == MUL {
      WrapLoses(a * b);
    }
  }

  /** Every bit of a result worked out bit by bit. */
  lemma AluBits(op: Nibble, a: Word, b: Word, k: nat)
    requires op in {XOR, OR, AND, SHL, SHR} && k < 16
    ensures Bit(AluResult(op, a, b), k) <==>
              if op == XOR then Bit(a, k) != Bit(b, k)
              else if op == OR then Bit(a, k) || Bit(b, k)
              else if op == AND then Bit(a, k) && Bit(b, k)
              else if op == SHL then k >= b && Bit(a, k - b)
              else k + b < 16 && Bit(a, k + b)
  {
    hide Bit, Bitwise, ShiftLeft, ShiftRight;
    if op == SHL || op == SHR {
      ShiftedBit(a, b, k);
    } else {
      BitwiseBit(if op == XOR then XorGate else if op == OR then OrGate else AndGate, a, b, 16, k);
    }
  }

  /** Taking a word from all ones turns every bit around. */
  lemma {:induction false} ComplementBit(w: nat, n: nat, k: nat)
    requires w < Pow2(n) && k < n
    ensures Bit(Pow2(n) - 1 - w, k) <==> !Bit(w, k)
    decreases n
  {
    var c := Pow2(n) - 1 - w;
    assert c % 2 == 1 - w % 2 && c / 2 == Pow2(n - 1) - 1 - w / 2;
    if k > 0 {
      ComplementBit(w / 2, n - 1, k - 1);
    }
  }

  /** The value of an arithmetic, comparison or shift type, as both interpreters work it out. */
  method Compute(op: Nibble, opA: Word, opB: Word) returns (v: Word)
    requires Arithmetic(op) && (op == DIV ==> opB != 0)
    ensures v == AluResult(op, opA, opB)
  {
    if op == ADD {
      v := (opA + opB) % 0x1_0000;
    } else if op == SUB {
      v := ((opA as int) - opB) % 0x1_0000;
    } else if op == MUL {
      v := opA * opB % 0x1_0000;
    } else if op == DIV {
      v := Quotient(opA, opB);
    } else if op == XOR {
      v := Gated(XorGate, opA, opB);
    } else if op == OR {
      v := Gated(OrGate, opA, opB);
    } else if op == AND {
      v := Gated(AndGate, opA, opB);
    } else if op == CMP {
      v := Compare(opA, opB);
    } else if op == SHL {
      v := if opB < 16 then opA * Pow2(opB) % 0x1_0000 else 0;
    } else {
      v := if opB < 16 then Quotient(opA, Pow2(opB)) else 0;
    }
  }

  /** The comparison bits, tested one after another. */
  method Compare(opA: Word, opB: Word) returns (d: Word)
    ensures d == CompareBits(opA, opB)
    ensures && (Bit(d, 0) <==> opA == opB) && (Bit(d, 1) <==> opA == 0)
            && (Bit(d, 2) <==> opA != opB) && (Bit(d, 3) <==> opA != 0)
            && (Bit(d, 4) <==> opA < opB) && (Bit(d, 5) <==> opA <= opB)
            && (Bit(d, 6) <==> opA > opB) && (Bit(d, 7) <==> opA >= opB)
  {
    hide Bit;
    CompareBitsSay(opA, opB);
    d := if opA == opB then 1 else 0;
    d := d + if opA == 0 then 2 else 0;
    d := d + if opA != opB then 4 else 0;
    d := d + if opA != 0 then 8 else 0;
    d := d + if opA < opB then 16 else 0;
    d := d + if opA <= opB then 32 else 0;
    d := d + if opA > opB then 64 else 0;
    d := d + if opA >= opB then 128 else 0;
  }

  // Execution. `c` is the machine after the fetch.

  function ExecExtra(c: Cpu, d: Reg, a: Reg, kind: Reg): Outcome {
    if kind == NOT then Next(SetReg(c, d, 0xFFFF - c.regs[a]))
    else if kind == STORE16 then
      if c.regs[d] < RAM_ADDR then Halt
      else if !CanStore(c.mem, c.regs[d], 2) then Stuck
      else Next(StoreWord(c, c.regs[d], c.regs[a]))
    else if kind == LOAD16 then
      if CanLoadWord(c, c.regs[a]) then Next(SetReg(c, d, LoadWord(c, c.regs[a]))) else Stuck
    else if kind == PUSH16 then
      if !CanStore(c.mem, c.regs[d], 2) then Stuck
      else Next(SetReg(StoreWord(c, c.regs[d], c.regs[a]), d, c.regs[d] + 2))
    else if kind == POP16 then
      var sp := Wrap((c.regs[a] as int) - 2);
      if d != a && CanLoadWord(c, sp) then Next(SetReg(SetReg(c, a, sp), d, LoadWord(c, sp))) else Stuck
    else if kind == CALL then
      if !CanStore(c.mem, c.regs[a], 2) then Stuck
      else
        var pushed := SetReg(StoreWord(c, c.regs[a], c.regs[IP]), a, c.regs[a] + 2);
        Next(SetReg(pushed, IP, pushed.regs[d]))
    else if kind == XCHG8 then
      if CanStore(c.mem, c.regs[d], 1) && CanLoad(c, c.regs[d]) then
        Next(SetReg(StoreByte(c, c.regs[d], Lo(c.regs[a])), a, c.mem[c.regs[d]]))
      else Stuck
    else Next(SetReg(c, d, Clz16(c.regs[a])))
  }

  function ExecMemory(c: Cpu, i: Instr): Outcome
    requires i.Load8? || i.Store8?
  {
    match i
    case Load8(d, s) => if CanLoad(c, c.regs[s]) then Next(SetReg(c, d, c.mem[c.regs[s]])) else Stuck
    case Store8(d, s) =>
      if c.regs[d] < RAM_ADDR then Halt
      else if !CanStore(c.mem, c.regs[d], 1) then Stuck
      else Next(StoreByte(c, c.regs[d], Lo(c.regs[s])))
  }

  function ExecAlu(c: Cpu, op: Nibble, d: Reg, a: Reg, b: Reg): Outcome
    requires op != SKIP
  {
    if op == INC then Next(SetReg(c, d, Wrap(c.regs[d] + IncDecValue(a, b))))
    else if op == DEC then Next(SetReg(c, d, Wrap((c.regs[d] as int) - IncDecValue(a, b))))
    else if op == DIV && c.regs[b] == 0 then Halt
    else if Arithmetic(op) then Next(SetReg(c, d, AluResult(op, c.regs[a], c.regs[b])))
    else if op == EXTRA then ExecExtra(c, d, a, b)
    else Stuck
  }

  function ExecShort(c: Cpu, kind: Nibble): Outcome {
    if kind == NOP || kind == CLEAR_CACHE || kind == DEBUG then Next(c)
    else if kind == ILLEGAL then Halt
    else Stuck
  }

  predicate IsSkip(i: Instr) {
    i.Alu? && i.op == SKIP
  }

  function Exec(c: Cpu, i: Instr): Outcome
    requires !IsSkip(i)
  {
    match i
    case Alu(op, d, a, b) => ExecAlu(c, op, d, a, b)
    case Short(kind) => ExecShort(c, kind)
    case Set4(d, v) => Next(SetReg(c, d, v))
    case Set8(d, v) => Next(SetReg(c, d, v))
    case Set16(d, v) => Next(SetReg(c, d, v))
    case _ => ExecMemory(c, i)
  }

  /** How many instructions a skip instruction passes over. */
  function SkipCount(c: Cpu, i: Instr): (n: nat)
    requires IsSkip(i)
    ensures n <= 8
  {
    if Bit(c.regs[i.dest], i.opA) then i.opB + 1 else 0
  }

  /** Fetching `n` instructions without running them. */
  function SkipOver(c: Cpu, n: nat): Outcome
    decreases n
  {
    if n == 0 then Next(c) else if CanFetch(c) then SkipOver(Advance(c), n - 1) else Stuck
  }

  /** One instruction of the kernel's interpreter, which skips at once. */
  function Step(c: Cpu): Outcome {
    if !CanFetch(c) then Stuck
    else
      var i := FetchInstr(c);
      if !IsSkip(i) then Exec(Advance(c), i)
      else SkipOver(Advance(c), SkipCount(Advance(c), i))
  }

  /** The emulator's machine, which counts skipped instructions down. */
  datatype Emu = Emu(cpu: Cpu, skip: nat)

  datatype EmuOutcome = EmuNext(emu: Emu) | EmuHalt | EmuStuck

  function Lift(o: Outcome): EmuOutcome {
    match o
    case Next(c) => EmuNext(Emu(c, 0))
    case Halt => EmuHalt
    case Stuck => EmuStuck
  }

  function EmuStep(e: Emu): EmuOutcome {
    if !CanFetch(e.cpu) then EmuStuck
    else
      var i := FetchInstr(e.cpu);
      if e.skip > 0 then EmuNext(Emu(Advance(e.cpu), e.skip - 1))
      else if !IsSkip(i) then Lift(Exec(Advance(e.cpu), i))
      else EmuNext(Emu(Advance(e.cpu), SkipCount(Advance(e.cpu), i)))
  }

  /** `n` emulator steps. */
  function EmuSteps(e: Emu, n: nat): EmuOutcome
    decreases n
  {
    if n == 0 then EmuNext(e)
    else
      var o := EmuStep(e);
      if o.EmuNext? then EmuSteps(o.emu, n - 1) else o
  }

  /** `n` kernel steps. */
  function Steps(c: Cpu, n: nat): Outcome
    decreases n
  {
    if n == 0 then Next(c)
    else
      var o := Step(c);
      if o.Next? then Steps(o.cpu, n - 1) else o
  }

  /** How many emulator steps a kernel step stands for: one more for each instruction skipped. */
  function EmuCount(c: Cpu): (n: nat)
    ensures 1 <= n <= 9
  {
    if CanFetch(c) && IsSkip(FetchInstr(c)) then 1 + SkipCount(Advance(c), FetchInstr(c)) else 1
  }

  function EmuCounts(c: Cpu, n: nat): nat
    decreases n
  {
    if n == 0 || !Step(c).Next? then 0 else EmuCount(c) + EmuCounts(Step(c).cpu, n - 1)
  }

  lemma {:induction false} EmuStepsSkip(c: Cpu, k: nat)
    requires SkipOver(c, k).Next?
    ensures EmuSteps(Emu(c, k), k) == Lift(SkipOver(c, k))
    decreases k
  {
    hide Advance, FetchInstr, Exec, IsSkip;
    if k > 0 {
      assert CanFetch(c);
      assert SkipOver(c, k) == SkipOver(Advance(c), k - 1);
      EmuStepsSkip(Advance(c), k - 1);
    }
  }

  lemma {:induction false} EmuStepsSplit(e: Emu, m: nat, n: nat)
    requires EmuSteps(e, m).EmuNext?
    ensures EmuSteps(e, m + n) == EmuSteps(EmuSteps(e, m).emu, n)
    decreases m
  {
    hide EmuStep;
    if m > 0 {
      EmuStepsSplit(EmuStep(e).emu, m - 1, n);
    }
  }

  /** One kernel step is one emulator step, and one more for each instruction skipped. */
  lemma StepSimulated(c: Cpu)
    requires !Step(c).Stuck?
    ensures EmuSteps(Emu(c, 0), EmuCount(c)) == Lift(Step(c))
  {
    hide CanFetch, Advance, FetchInstr, Exec;
    var i := FetchInstr(c);
    if IsSkip(i) {
      SkipNeverHalts(Advance(c), SkipCount(Advance(c), i));
      EmuStepsSkip(Advance(c), SkipCount(Advance(c), i));
    } else {
      assert EmuStep(Emu(c, 0)) == Lift(Step(c));
      assert EmuSteps(Emu(c, 0), 1) == Lift(Step(c));
    }
  }

  /** Every kernel run is an emulator run that ends in the same machine with nothing left to skip. */
  lemma {:induction false} RunSimulated(c: Cpu, n: nat)
    requires Steps(c, n).Next?
    ensures EmuSteps(Emu(c, 0), EmuCounts(c, n)) == EmuNext(Emu(Steps(c, n).cpu, 0))
    decreases n
  {
    hide Step, EmuStep, EmuCount;
    if n > 0 {
      var d := Step(c).cpu;
      StepSimulated(c);
      RunSimulated(d, n - 1);
      EmuStepsSplit(Emu(c, 0), EmuCount(c), EmuCounts(d, n - 1));
    }
  }

  /** A kernel run that ends in a halt is an emulator run that ends in a halt. */
  lemma {:induction false} HaltSimulated(c: Cpu, n: nat)
    requires Steps(c, n).Next? && Step(Steps(c, n).cpu).Halt?
    ensures EmuSteps(Emu(c, 0), EmuCounts(c, n) + 1).EmuHalt?
  {
    hide Step, EmuStep, EmuCount;
    var d := Steps(c, n).cpu;
    RunSimulated(c, n);
    EmuStepsSplit(Emu(c, 0), EmuCounts(c, n), 1);
    HaltsAlike(d);
  }

  /** Where the kernel's next instruction ends the process, the emulator's does. */
  lemma HaltsAlike(c: Cpu)
    requires Step(c).Halt?
    ensures EmuStep(Emu(c, 0)).EmuHalt?
  {
    hide CanFetch, Advance, FetchInstr, Exec;
    if IsSkip(FetchInstr(c)) {
      SkipNeverHalts(Advance(c), SkipCount(Advance(c), FetchInstr(c)));
    }
  }

  lemma {:induction false} SkipNeverHalts(c: Cpu, n: nat)
    ensures !SkipOver(c, n).Halt?
    decreases n
  {
    hide CanFetch, Advance;
    if n > 0 && CanFetch(c) {
      SkipNeverHalts(Advance(c), n - 1);
    }
  }

  lemma OverwriteIP(c: Cpu, x: Word, y: Word)
    ensures SetReg(SetReg(c, IP, x), IP, y) == SetReg(c, IP, y)
  {
  }

  lemma ExecOfAlu(c: Cpu, i: Instr)
    requires i.Alu? && !IsSkip(i)
    ensures Exec(c, i) == ExecAlu(c, i.op, i.dest, i.opA, i.opB)
  {
  }

  /** The last of several steps. */
  lemma {:induction false} StepsAfter(c: Cpu, n: nat)
    requires Steps(c, n).Next?
    ensures Steps(c, n + 1) == Step(Steps(c, n).cpu)
    decreases n
  {
    hide Step;
    if n > 0 {
      StepsAfter(Step(c).cpu, n - 1);
    }
  }

  lemma {:induction false} RunPrefix(c: Cpu, k: nat, n: nat)
    requires k < n && Steps(c, n).Next?
    ensures Steps(c, k).Next? && Step(Steps(c, k).cpu).Next?
    decreases k
  {
    hide Step;
    if k > 0 {
      RunPrefix(Step(c).cpu, k - 1, n - 1);
    }
  }
}
