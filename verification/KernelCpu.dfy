/** The kernel's interpreter: one process's registers, its memory, and a small buffer of prefetched program bytes. */
module KernelCpu {
  import opened AddressMap
  import opened Words
  import opened Bytecode
  import opened Isa
  import opened ProcMemory
  import MemorySpace

  /** Every byte of `m` can be read, and is what `m` says. */
  ghost predicate Holds(s: MemorySpace.Space, m: map<Word, Byte>) {
    && MemorySpace.Proper(s) && s.ramLen <= MemorySpace.ENV_INDEX
    && forall a :: a in m ==> MemorySpace.Readable(s, a) && MemorySpace.Peek(s, a) == m[a]
  }

  lemma HoldsByte(s: MemorySpace.Space, m: map<Word, Byte>, a: Word)
    requires Holds(s, m) && a in m && (a < RAM_ADDR ==> a < PROGMEM_END)
    ensures MemorySpace.ReadOk(s, a, 1) && MemorySpace.Block(s, a, 1) == [m[a]]
  {
  }

  lemma HoldsProgram(s: MemorySpace.Space, m: map<Word, Byte>, a: Word)
    requires Holds(s, m) && a in m && a < RAM_ADDR
    ensures a < |s.progmem| && s.progmem[a] == m[a]
  {
  }

  lemma HoldsWord(s: MemorySpace.Space, c: Cpu, a: Word)
    requires Holds(s, c.mem) && CanLoadWord(c, a)
    ensures MemorySpace.ReadOk(s, a, 2) && MemorySpace.Block(s, a, 2) == [c.mem[a], c.mem[a + 1]]
  {
  }

  /** `m` with bytes stored from an address on. */
  function StoreAll(m: map<Word, Byte>, a: Word, data: seq<Byte>): map<Word, Byte>
    requires a + |data| <= 0x1_0000
  {
    if data == [] then m else StoreAll(m, a, data[..|data| - 1])[a + |data| - 1 := data[|data| - 1]]
  }

  lemma {:induction false} StoreAllAt(m: map<Word, Byte>, a: Word, data: seq<Byte>, x: Word)
    requires a + |data| <= 0x1_0000
    ensures x in StoreAll(m, a, data) <==> x in m || a <= x < a + |data|
    ensures a <= x < a + |data| ==> StoreAll(m, a, data)[x] == data[x - a]
    ensures x in m && !(a <= x < a + |data|) ==> StoreAll(m, a, data)[x] == m[x]
    decreases |data|
  {
    if data != [] {
      StoreAllAt(m, a, data[..|data| - 1], x);
    }
  }

  lemma StoreHarmless(s: MemorySpace.Space, m: map<Word, Byte>, a: Word, n: nat)
    requires Holds(s, m) && n > 0 && CanStore(m, a, n)
    ensures MemorySpace.Harmless(s, a, n) && (a < ENV_ADDR ==> a + n <= ENV_ADDR)
    ensures MemorySpace.WhereTo(s, a, n).Grow? ==> a + n <= WRITE_END
    ensures !MemorySpace.WhereTo(s, a, n).Refused?
  {
    if InPlace(m, a, n) {
      var x: Word := if a < ENV_ADDR then a + n else a + n - 1;
      assert MemorySpace.Readable(s, x);
    }
  }

  /** A store the machine allows keeps every known byte known. */
  lemma HoldsStore(s: MemorySpace.Space, m: map<Word, Byte>, a: Word, data: seq<Byte>, extra: nat, fill: seq<Byte>)
    requires Holds(s, m) && |data| > 0 && CanStore(m, a, |data|)
    requires !MemorySpace.WhereTo(s, a, |data|).Refused? && MemorySpace.Fills(s, a, |data|, extra, fill)
    ensures Holds(MemorySpace.Written(s, a, data, extra, fill), StoreAll(m, a, data))
  {
    hide MemorySpace.Written, MemorySpace.Peek, MemorySpace.Readable, StoreAll;
    var t := MemorySpace.Written(s, a, data, extra, fill);
    var after := StoreAll(m, a, data);
    StoreHarmless(s, m, a, |data|);
    MemorySpace.HarmlessKeeps(s, a, data, extra, fill);
    forall x | x in after
      ensures MemorySpace.Readable(t, x) && MemorySpace.Peek(t, x) == after[x]
    {
      StoreAllAt(m, a, data, x);
      if a <= x < a + |data| {
        MemorySpace.WrittenBytes(s, a, data, extra, fill, x - a);
      }
    }
  }

  /** A store that fits in the RAM there is, or in the environment data. */
  predicate Fits(s: MemorySpace.Space, a: Word, n: nat) {
    a >= RAM_ADDR ==> a - RAM_ADDR + n < s.ramLen || (a >= ENV_ADDR && a - ENV_ADDR + n <= s.envLen)
  }

  /** Whatever the instruction stores fits in the RAM there is. */
  predicate Room(s: MemorySpace.Space, c: Cpu, i: Instr) {
    match i
    case Store8(d, _) => Fits(s, c.regs[d], 1)
    case Alu(op, d, a, kind) => op == EXTRA ==> ExtraRoom(s, c, d, a, kind)
    case _ => true
  }

  predicate ExtraRoom(s: MemorySpace.Space, c: Cpu, d: Reg, a: Reg, kind: Reg) {
    && (kind == STORE16 || kind == PUSH16 ==> Fits(s, c.regs[d], 2))
    && (kind == CALL ==> Fits(s, c.regs[a], 2))
    && (kind == XCHG8 ==> Fits(s, c.regs[d], 1))
  }

  /** Every store of a run of `n` instructions fits in the RAM there is. */
  ghost predicate RoomFor(s: MemorySpace.Space, c: Cpu, n: nat)
    requires Steps(c, n).Next?
  {
    forall m: nat :: m < n && Steps(c, m).Next? && CanFetch(Steps(c, m).cpu) ==>
      Room(s, Advance(Steps(c, m).cpu), FetchInstr(Steps(c, m).cpu))
  }

  lemma RoomGrows(s: MemorySpace.Space, t: MemorySpace.Space, c: Cpu, i: Instr)
    requires Room(s, c, i) && s.ramLen <= t.ramLen && s.envLen == t.envLen
    ensures Room(t, c, i)
  {
  }

  predicate CanPop(c: Cpu, a: Reg) {
    CanLoadWord(c, Wrap((c.regs[a] as int) - 2))
  }

  /** The machine after a pop, for any two registers: the register is moved down before the word is loaded. */
  function Popped(c: Cpu, d: Reg, a: Reg): Cpu
    requires CanPop(c, a)
  {
    var sp := Wrap((c.regs[a] as int) - 2);
    SetReg(SetReg(c, a, sp), d, LoadWord(c, sp))
  }

  class Process {
    const regs: array<Word>
    const memory: Memory
    const buffer: array<Byte>
    var baseAddr: Word
    var prefetched: nat

    ghost predicate Valid()
      reads memory
    {
      memory.Valid() && regs.Length == 8 && buffer.Length == 32
    }

    /** The buffer holds program bytes, and nothing changes those. */
    ghost predicate Coherent()
      reads this, buffer
    {
      prefetched > 0 ==>
        && prefetched <= buffer.Length && baseAddr + prefetched < RAM_ADDR
        && baseAddr + prefetched <= |memory.progmem|
        && buffer[..prefetched] == memory.progmem[baseAddr..baseAddr + prefetched]
    }

    ghost predicate Agrees(c: Cpu)
      reads regs, memory
    {
      Valid() && regs[..] == c.regs && Holds(memory.Contents(), c.mem)
    }

    /** What running an instruction must lead to; it may also fail for want of RAM. */
    ghost predicate Reached(o: Outcome, ok: bool)
      reads regs, memory
    {
      match o
      case Next(c) => ok ==> Agrees(c)
      case Halt => !ok
      case Stuck => true
    }

    constructor (m: Memory)
      requires m.Valid()
      ensures Valid() && Coherent() && memory == m && fresh(regs) && fresh(buffer)
      ensures regs[..] == [0, 0, 0, 0, 0, 0, 0, 0]
    {
      regs, buffer, memory := new Word[8](_ => 0), new Byte[32], m;
      baseAddr, prefetched := 0, 0;
    }

    lemma Registers(c: Cpu)
      requires Agrees(c)
      ensures Valid() && regs[..] == c.regs && Holds(memory.Contents(), c.mem)
      ensures forall r: Reg :: regs[r] == c.regs[r]
    {
    }

    method SetRegister(ghost c: Cpu, r: Reg, v: Word)
      requires Agrees(c)
      modifies regs
      ensures Agrees(SetReg(c, r, v))
    {
      hide Holds, MemorySpace.Proper;
      regs[r] := v;
      assert regs[..] == c.regs[r := v];
    }

    // Prefetching.

    method PrefetchClear()
      modifies this`prefetched
      ensures Coherent()
    {
      prefetched := 0;
    }

    /** Refilling from an address: the largest block that can be read there, halving until one can. */
    method Prefetch(addr: Word)
      requires Valid() && addr < PROGMEM_END && addr < |memory.progmem|
      modifies this`baseAddr, this`prefetched, buffer
      ensures Coherent() && prefetched > 0 && baseAddr == addr
    {
      hide MemorySpace.Proper;
      prefetched := 32;
      while prefetched > 0
        invariant prefetched in {32, 16, 8, 4, 2, 1}
        invariant Valid()
        decreases prefetched
      {
        var ok := memory.ReadBlock(addr, buffer, prefetched);
        if ok {
          break;
        }
        prefetched := prefetched / 2;
      }
      baseAddr := addr;
    }

    method PrefetchReadByte(ghost c: Cpu, addr: Word) returns (value: Byte)
      requires Agrees(c) && Coherent() && addr < PROGMEM_END && addr in c.mem
      modifies this`baseAddr, this`prefetched, buffer
      ensures value == c.mem[addr] && Coherent()
    {
      hide Holds;
      HoldsProgram(memory.Contents(), c.mem, addr);
      if addr < baseAddr || addr >= baseAddr + prefetched {
        Prefetch(addr);
      }
      value := buffer[addr - baseAddr];
      assert value == buffer[..prefetched][addr - baseAddr];
    }

    method NextByte(ghost c: Cpu) returns (b: Byte)
      requires Agrees(c) && Coherent() && c.regs[IP] < PROGMEM_END && c.regs[IP] in c.mem
      modifies regs, this`baseAddr, this`prefetched, buffer
      ensures b == c.mem[c.regs[IP]] && Agrees(SetReg(c, IP, c.regs[IP] + 1)) && Coherent()
    {
      hide Holds, Coherent;
      Registers(c);
      var addr := regs[IP];
      SetRegister(c, IP, Wrap(addr + 1));
      b := PrefetchReadByte(SetReg(c, IP, addr + 1), addr);
    }

    method GetInstruction(ghost c: Cpu) returns (i: Instr)
      requires Agrees(c) && Coherent() && CanFetch(c)
      modifies regs, this`baseAddr, this`prefetched, buffer
      ensures i == FetchInstr(c) && Agrees(Advance(c)) && Coherent()
    {
      hide Agrees, Coherent, Parse, ParseLength;
      ghost var ip := c.regs[IP];
      var b1: Byte, b2: Byte := *, *;
      var b0 := NextByte(c);
      var length := ParseLength(b0);
      if length == 2 || length == 3 {
        b1 := NextByte(SetReg(c, IP, ip + 1));
        OverwriteIP(c, ip + 1, ip + 2);
      }
      if length == 3 {
        b2 := NextByte(SetReg(c, IP, ip + 2));
        OverwriteIP(c, ip + 2, ip + 3);
      }
      ParseIgnoresRest(b0, b1, b2, if length >= 2 then c.mem[ip + 1] else 0, if length == 3 then c.mem[ip + 2] else 0);
      i := Parse(b0, b1, b2);
    }

    // Data access.

    method WriteBytes(ghost c: Cpu, addr: Word, data: array<Byte>) returns (ok: bool)
      requires Agrees(c) && 0 < data.Length && addr + data.Length <= 0x1_0000
      modifies memory`ramFile, memory`ramLen, memory`ramOpen
      ensures addr < RAM_ADDR ==> !ok
      ensures CanStore(c.mem, addr, data.Length) && ok ==> Agrees(Cpu(c.regs, StoreAll(c.mem, addr, data[..])))
      ensures addr >= RAM_ADDR && Fits(old(memory.Contents()), addr, data.Length) ==> ok
      ensures memory.Roomy() && CanStore(c.mem, addr, data.Length) ==> ok
      ensures ok ==> memory.ramLen >= old(memory.ramLen)
    {
      hide Holds, StoreAll;
      ghost var s := memory.Contents();
      ghost var extra, fill;
      assert data[..] == data[..data.Length];
      if CanStore(c.mem, addr, data.Length) {
        StoreHarmless(s, c.mem, addr, data.Length);
      }
      ok, extra, fill := memory.WriteBlock(addr, data, data.Length);
      if ok && CanStore(c.mem, addr, data.Length) {
        HoldsStore(s, c.mem, addr, data[..], extra, fill);
      }
    }

    method WriteByte(ghost c: Cpu, addr: Word, value: Byte) returns (ok: bool)
      requires Agrees(c)
      modifies memory`ramFile, memory`ramLen, memory`ramOpen
      ensures addr < RAM_ADDR ==> !ok
      ensures CanStore(c.mem, addr, 1) && ok ==> Agrees(StoreByte(c, addr, value))
      ensures addr >= RAM_ADDR && Fits(old(memory.Contents()), addr, 1) ==> ok
      ensures memory.Roomy() && CanStore(c.mem, addr, 1) ==> ok
      ensures ok ==> memory.ramLen >= old(memory.ramLen)
    {
      hide Agrees;
      var data := new Byte[1](_ => value);
      assert data[..] == [value];
      Registers(c);
      ok := WriteBytes(c, addr, data);
      StoreOne(c.mem, addr, value);
    }

    method WriteWord(ghost c: Cpu, addr: Word, value: Word) returns (ok: bool)
      requires Agrees(c) && addr + 1 < 0x1_0000
      modifies memory`ramFile, memory`ramLen, memory`ramOpen
      ensures addr < RAM_ADDR ==> !ok
      ensures CanStore(c.mem, addr, 2) && ok ==> Agrees(StoreWord(c, addr, value))
      ensures addr >= RAM_ADDR && Fits(old(memory.Contents()), addr, 2) ==> ok
      ensures memory.Roomy() && CanStore(c.mem, addr, 2) ==> ok
      ensures ok ==> memory.ramLen >= old(memory.ramLen)
    {
      hide Agrees, Hi, Lo;
      var data := new Byte[2];
      data[0], data[1] := Hi(value), Lo(value);
      assert data[..] == [Hi(value), Lo(value)];
      Registers(c);
      ok := WriteBytes(c, addr, data);
      StoreTwo(c.mem, addr, Hi(value), Lo(value));
    }

    method ReadByte(ghost c: Cpu, addr: Word) returns (ok: bool, value: Byte)
      requires Agrees(c) && CanLoad(c, addr)
      ensures ok && value == c.mem[addr]
    {
      hide Holds;
      var data := new Byte[1];
      HoldsByte(memory.Contents(), c.mem, addr);
      ok := memory.ReadBlock(addr, data, 1);
      value := data[0];
      assert data[..1][0] == c.mem[addr];
    }

    method ReadWord(ghost c: Cpu, addr: Word) returns (ok: bool, value: Word)
      requires Agrees(c) && CanLoadWord(c, addr)
      ensures ok && value == LoadWord(c, addr)
    {
      hide Holds;
      var parts := new Byte[2];
      HoldsWord(memory.Contents(), c, addr);
      ok := memory.ReadBlock(addr, parts, 2);
      assert parts[..2][0] == c.mem[addr] && parts[..2][1] == c.mem[addr + 1];
      value := Join(parts[0], parts[1]);
    }

    // Execution.

    /** Storing a word at the address in a register, and moving the register on if that succeeded. */
    method Push(ghost c: Cpu, d: Reg, value: Word) returns (ok: bool)
      requires Agrees(c) && CanStore(c.mem, c.regs[d], 2)
      modifies regs, memory`ramFile, memory`ramLen, memory`ramOpen
      ensures ok ==> Agrees(SetReg(StoreWord(c, c.regs[d], value), d, c.regs[d] + 2))
      ensures memory.Roomy() || Fits(old(memory.Contents()), c.regs[d], 2) ==> ok
      ensures ok ==> memory.ramLen >= old(memory.ramLen)
    {
      hide Agrees, InPlace, StoreWord;
      Registers(c);
      ok := WriteWord(c, regs[d], value);
      if ok {
        ghost var stored := StoreWord(c, c.regs[d], value);
        StoredRegs(c, c.regs[d], value);
        Registers(stored);
        SetRegister(stored, d, Wrap(regs[d] + 2));
      }
    }

    /** Moving the register down and loading the word there, even into that same register. */
    method Pop(ghost c: Cpu, d: Reg, a: Reg)
      requires Agrees(c) && CanPop(c, a)
      modifies regs
      ensures Agrees(Popped(c, d, a))
    {
      hide Agrees, LoadWord, CanLoadWord;
      Registers(c);
      ghost var sp := Wrap((c.regs[a] as int) - 2);
      SetRegister(c, a, Wrap((regs[a] as int) - 2));
      ghost var moved := SetReg(c, a, sp);
      Registers(moved);
      SameMemoryLoads(c, moved, sp);
      var ok, value := ReadWord(moved, regs[a]);
      SetRegister(moved, d, value);
    }

    method ExecExtra(ghost c: Cpu, d: Reg, a: Reg, kind: Reg) returns (ok: bool)
      requires Agrees(c) && (!Isa.ExecExtra(c, d, a, kind).Stuck? || (kind == POP16 && CanPop(c, a)))
      modifies regs, memory`ramFile, memory`ramLen, memory`ramOpen
      ensures Reached(Isa.ExecExtra(c, d, a, kind), ok)
      ensures kind == POP16 && CanPop(c, a) ==> ok && Agrees(Popped(c, d, a))
      ensures var o := Isa.ExecExtra(c, d, a, kind);
              o.Next? && (memory.Roomy() || ExtraRoom(old(memory.Contents()), c, d, a, kind)) ==> ok
      ensures ok ==> memory.ramLen >= old(memory.ramLen)
    {
      hide Agrees, Hi, Lo, Clz16, StoreByte, StoreWord, CanLoad, CanLoadWord, LoadWord;
      Registers(c);
      var opA := regs[a];
      if kind == NOT {
        SetRegister(c, d, 0xFFFF - opA);
        return true;
      } else if kind == STORE16 {
        ok := WriteWord(c, regs[d], opA);
        return ok;
      } else if kind == LOAD16 {
        var value;
        ok, value := ReadWord(c, regs[a]);
        SetRegister(c, d, value);
        return ok;
      } else if kind == PUSH16 {
        ok := Push(c, d, opA);
        return ok;
      } else if kind == POP16 {
        Pop(c, d, a);
        return true;
      } else if kind == CALL {
        ok := Push(c, a, regs[IP]);
        if ok {
          ghost var pushed := SetReg(StoreWord(c, opA, c.regs[IP]), a, opA + 2);
          Registers(pushed);
          SetRegister(pushed, IP, regs[d]);
        }
        return ok;
      } else if kind == XCHG8 {
        var memValue;
        ok, memValue := ReadByte(c, regs[d]);
        ok := WriteByte(c, regs[d], Lo(regs[a]));
        if ok {
          ghost var stored := StoreByte(c, c.regs[d], Lo(c.regs[a]));
          SetRegister(stored, a, memValue);
        }
        return ok;
      } else {
        SetRegister(c, d, Clz16(opA));
        return true;
      }
    }

    method ExecAlu(ghost c: Cpu, op: Nibble, d: Reg, a: Reg, b: Reg) returns (ok: bool)
      requires Agrees(c) && op != SKIP && !Isa.ExecAlu(c, op, d, a, b).Stuck?
      modifies regs, memory`ramFile, memory`ramLen, memory`ramOpen
      ensures Reached(Isa.ExecAlu(c, op, d, a, b), ok)
      ensures var o := Isa.ExecAlu(c, op, d, a, b);
              o.Next? && (memory.Roomy() || Room(old(memory.Contents()), c, Alu(op, d, a, b))) ==> ok
      ensures ok ==> memory.ramLen >= old(memory.ramLen)
    {
      hide Isa.ExecExtra, AluResult, IncDecValue, Agrees;
      Registers(c);
      var opA, opB := regs[a], regs[b];
      if op == INC {
        SetRegister(c, d, Wrap(regs[d] + IncDecValue(a, b)));
      } else if op == DEC {
        SetRegister(c, d, Wrap((regs[d] as int) - IncDecValue(a, b)));
      } else if op == DIV && opB == 0 {
        return false;
      } else if Arithmetic(op) {
        var v := Compute(op, opA, opB);
        SetRegister(c, d, v);
      } else {
        ok := ExecExtra(c, d, a, b);
        return ok;
      }
      return true;
    }

    method ExecOther(ghost c: Cpu, i: Instr) returns (ok: bool)
      requires Agrees(c) && Coherent() && !i.Alu? && !Exec(c, i).Stuck?
      modifies regs, this`prefetched, memory`ramFile, memory`ramLen, memory`ramOpen
      ensures Reached(Exec(c, i), ok) && Coherent()
      ensures Exec(c, i).Next? && (memory.Roomy() || Room(old(memory.Contents()), c, i)) ==> ok
      ensures ok ==> memory.ramLen >= old(memory.ramLen)
    {
      hide Agrees;
      Registers(c);
      match i {
        case Store8(d, s) =>
          ok := WriteByte(c, regs[d], Lo(regs[s]));
          return ok;
        case Load8(d, s) =>
          var value;
          ok, value := ReadByte(c, regs[s]);
          SetRegister(c, d, value);
          return ok;
        case Set4(d, v) => SetRegister(c, d, v);
        case Set8(d, v) => SetRegister(c, d, v);
        case Set16(d, v) => SetRegister(c, d, v);
        case Short(kind) =>
          if kind == ILLEGAL {
            return false;
          }
          if kind == CLEAR_CACHE {
            PrefetchClear();
          }
      }
      return true;
    }

    /** Fetching the instructions a taken skip passes over, and dropping them. */
    method Skip(ghost c: Cpu, skipDist: nat)
      requires Agrees(c) && Coherent() && SkipOver(c, skipDist).Next?
      modifies regs, this`baseAddr, this`prefetched, buffer
      ensures Agrees(SkipOver(c, skipDist).cpu) && Coherent()
    {
      hide Agrees, Coherent, CanFetch, FetchInstr, Advance;
      ghost var at := c;
      for n := 0 to skipDist
        invariant SkipOver(at, skipDist - n) == SkipOver(c, skipDist)
        invariant Agrees(at) && Coherent()
      {
        assert CanFetch(at);
        var skipped := GetInstruction(at);
        at := Advance(at);
      }
    }

    /** One call is one step of the machine, unless RAM had to grow and could not. */
    method RunInstruction(ghost c: Cpu) returns (ok: bool)
      requires Agrees(c) && Coherent() && !Step(c).Stuck?
      modifies this`baseAddr, this`prefetched, buffer, regs, memory`ramFile, memory`ramLen, memory`ramOpen
      ensures Reached(Step(c), ok) && Coherent()
      ensures Step(c).Next? ==>
        (memory.Roomy() || Room(old(memory.Contents()), Advance(c), FetchInstr(c)) ==> ok)
      ensures ok ==> memory.ramLen >= old(memory.ramLen)
    {
      hide Agrees, Coherent, CanFetch, FetchInstr, Advance, Isa.ExecAlu, Exec, Bit, ExtraRoom;
      var i := GetInstruction(c);
      ghost var fetched := Advance(c);
      Registers(fetched);
      if IsSkip(i) {
        SkipNeverHalts(fetched, SkipCount(fetched, i));
        if Bit(regs[i.dest], i.opA) {
          Skip(fetched, i.opB + 1);
        }
        return true;
      } else if i.Alu? {
        ExecOfAlu(fetched, i);
        ok := ExecAlu(fetched, i.op, i.dest, i.opA, i.opB);
      } else {
        ok := ExecOther(fetched, i);
      }
    }

    /** A tick's loop of instructions: as far as it gets it is a run of the machine, and RAM is all it can lack. */
    method Run(ghost c: Cpu, count: nat) returns (ran: nat)
      requires Agrees(c) && Coherent() && Steps(c, count).Next?
      modifies this`baseAddr, this`prefetched, buffer, regs, memory`ramFile, memory`ramLen, memory`ramOpen
      ensures ran <= count && Steps(c, ran).Next?
      ensures ran == count ==> Agrees(Steps(c, count).cpu) && Coherent()
      ensures memory.Roomy() || RoomFor(old(memory.Contents()), c, count) ==> ran == count
    {
      hide Agrees, Coherent, Step, Room;
      ghost var s := memory.Contents();
      ran := 0;
      while ran < count
        invariant 0 <= ran <= count && Steps(c, ran).Next? && Agrees(Steps(c, ran).cpu) && Coherent()
        invariant memory.ramLen >= s.ramLen
      {
        ghost var at := Steps(c, ran).cpu;
        RunPrefix(c, ran, count);
        StepFetches(at);
        if RoomFor(s, c, count) {
          RoomGrows(s, memory.Contents(), Advance(at), FetchInstr(at));
        }
        var ok := RunInstruction(at);
        if !ok {
          return ran;
        }
        StepsAfter(c, ran);
        ran := ran + 1;
      }
    }
  }

  lemma StoredRegs(c: Cpu, a: Word, v: Word)
    requires a + 1 < 0x1_0000
    ensures StoreWord(c, a, v).regs == c.regs
  {
  }

  lemma StepFetches(c: Cpu)
    requires Step(c).Next?
    ensures CanFetch(c)
  {
  }

  lemma StoreOne(m: map<Word, Byte>, a: Word, x: Byte)
    ensures StoreAll(m, a, [x]) == m[a := x]
  {
  }

  lemma StoreTwo(m: map<Word, Byte>, a: Word, x: Byte, y: Byte)
    requires a + 1 < 0x1_0000
    ensures StoreAll(m, a, [x, y]) == m[a := x][a + 1 := y]
  {
    assert [x, y][..1] == [x];
    StoreOne(m, a, x);
  }

  lemma SameMemoryLoads(c: Cpu, d: Cpu, a: Word)
    requires CanLoadWord(c, a) && d.mem == c.mem
    ensures CanLoadWord(d, a) && LoadWord(d, a) == LoadWord(c, a)
  {
  }
}
