/** The stand-alone emulator: one process in a flat memory, skipping instructions by counting them down. */
module Emulator {
  import opened AddressMap
  import opened Words
  import opened Bytecode
  import opened Isa

  /** A pop loads the low byte into the target before it moves the register on to the upper byte. */
  function PopHalfway(c: Cpu, d: Reg, a: Reg): Cpu
    requires Wrap((c.regs[a] as int) - 1) in c.mem
  {
    var top := Wrap((c.regs[a] as int) - 1);
    SetReg(SetReg(c, a, top), d, c.mem[top])
  }

  /** The memory array is a byte short of the address space. */
  predicate Held(c: Cpu, a: Word) {
    a in c.mem && a < 0xFFFF
  }

  predicate CanPop(c: Cpu, d: Reg, a: Reg) {
    && Held(c, Wrap((c.regs[a] as int) - 1))
    && Held(c, Wrap((PopHalfway(c, d, a).regs[a] as int) - 1))
  }

  /** The machine after a pop, for any two registers. */
  function Popped(c: Cpu, d: Reg, a: Reg): Cpu
    requires CanPop(c, d, a)
  {
    var half := PopHalfway(c, d, a);
    var at := Wrap((half.regs[a] as int) - 1);
    var moved := SetReg(half, a, at);
    HalfIsByte(c, d, a);
    SetReg(moved, d, Join(c.mem[at], moved.regs[d]))
  }

  lemma HalfIsByte(c: Cpu, d: Reg, a: Reg)
    requires CanPop(c, d, a)
    ensures SetReg(PopHalfway(c, d, a), a, Wrap((PopHalfway(c, d, a).regs[a] as int) - 1)).regs[d] < 256
  {
  }

  lemma PopSteps(c: Cpu, d: Reg, a: Reg)
    requires CanPop(c, d, a)
    ensures var top := Wrap((c.regs[a] as int) - 1);
            && top in c.mem && PopHalfway(c, d, a) == SetReg(SetReg(c, a, top), d, c.mem[top])
    ensures var half := PopHalfway(c, d, a); var at := Wrap((half.regs[a] as int) - 1);
            && at in c.mem && half.mem == c.mem && SetReg(half, a, at).regs[d] < 256
            && Popped(c, d, a) == SetReg(SetReg(half, a, at), d, Join(c.mem[at], SetReg(half, a, at).regs[d]))
  {
  }

  /** Into another register it is the machine's pop. */
  lemma PopsAsMeant(c: Cpu, d: Reg, a: Reg)
    ensures var o := Isa.ExecExtra(c, d, a, POP16);
            o.Next? && 0xFFFF !in c.mem ==> CanPop(c, d, a) && Popped(c, d, a) == o.cpu
  {
    var sp := Wrap((c.regs[a] as int) - 2);
    if d != a && CanLoadWord(c, sp) && 0xFFFF !in c.mem {
      assert Wrap((c.regs[a] as int) - 1) == sp + 1;
      assert PopHalfway(c, d, a).regs[a] == sp + 1 && Wrap(sp + 1 - 1) == sp;
      assert SetReg(SetReg(c, a, sp), d, LoadWord(c, sp)).regs == Popped(c, d, a).regs;
    }
  }

  class Process {
    const regs: array<Word>
    const memory: array<Byte>
    var skipCounter: nat

    ghost predicate Valid()
    {
      regs.Length == 8 && memory.Length == 0xFFFF
    }

    /** The registers are those of `c`, and so is every memory byte `c` knows. */
    ghost predicate Agrees(c: Cpu)
      reads regs, memory
    {
      && Valid()
      && regs[..] == c.regs
      && forall a :: a in c.mem ==> a < memory.Length && memory[a] == c.mem[a]
    }

    /** What running an instruction must lead to. */
    ghost predicate Reached(o: Outcome, more: bool)
      reads regs, memory
    {
      match o
      case Next(c) => more && Agrees(c)
      case Halt => !more
      case Stuck => true
    }

    constructor (program: seq<Byte>)
      requires |program| <= 0xFFFF
      ensures Valid() && fresh(regs) && fresh(memory)
      ensures skipCounter == 0 && regs[IP] == 0 && regs[SP] == 0
      ensures memory[..|program|] == program
    {
      regs := new Word[8](_ => 0);
      memory := new Byte[0xFFFF](i requires 0 <= i => if i < |program| then program[i] else 0);
      skipCounter := 0;
    }

    method SetRegister(ghost c: Cpu, r: Reg, v: Word)
      requires Agrees(c)
      modifies regs
      ensures Agrees(SetReg(c, r, v))
    {
      regs[r] := v;
      assert regs[..] == c.regs[r := v];
    }

    method SetByte(ghost c: Cpu, a: Word, v: Byte)
      requires Agrees(c) && a < 0xFFFF
      modifies memory
      ensures Agrees(StoreByte(c, a, v))
    {
      memory[a] := v;
    }

    method NextByte(ghost c: Cpu) returns (b: Byte)
      requires Agrees(c) && c.regs[IP] < PROGMEM_END && c.regs[IP] in c.mem
      modifies regs
      ensures b == c.mem[c.regs[IP]] && Agrees(SetReg(c, IP, c.regs[IP] + 1))
    {
      b := memory[regs[IP]];
      SetRegister(c, IP, Wrap(regs[IP] + 1));
    }

    method Fetch(ghost c: Cpu) returns (i: Instr)
      requires Agrees(c) && CanFetch(c)
      modifies regs
      ensures i == FetchInstr(c) && Agrees(Advance(c))
    {
      hide Agrees, Parse, ParseLength;
      ghost var ip := c.regs[IP];
      var b1: Byte, b2: Byte := *, *;
      var b0 := NextByte(c);
      var length := ParseLength(b0);
      if length == 2 || length == 3 {
        b1 := NextByte(SetReg(c, IP, ip + 1));
        OverwriteIP(c, ip + 1, ip + 2);
      }
      if length == 3 {
        b2 := NextByte(SetReg(c, IP, ip + 2));
        OverwriteIP(c, ip + 2, ip + 3);
      }
      ParseIgnoresRest(b0, b1, b2, if length >= 2 then c.mem[ip + 1] else 0, if length == 3 then c.mem[ip + 2] else 0);
      i := Parse(b0, b1, b2);
    }

    method ExecExtra(ghost c: Cpu, d: Reg, a: Reg, kind: Reg) returns (more: bool)
      requires Agrees(c) && (!Isa.ExecExtra(c, d, a, kind).Stuck? || (kind == POP16 && CanPop(c, d, a)))
      modifies regs, memory
      ensures Reached(Isa.ExecExtra(c, d, a, kind), more)
      ensures kind == POP16 && CanPop(c, d, a) ==> more && Agrees(Popped(c, d, a))
    {
      hide Hi, Lo, Clz16;
      var opA := regs[a];
      if kind == NOT {
        SetRegister(c, d, 0xFFFF - opA);
      } else if kind == STORE16 {
        SetByte(c, regs[d], Hi(regs[a]));
        SetByte(StoreByte(c, c.regs[d], Hi(c.regs[a])), regs[d] + 1, Lo(regs[a]));
        if regs[d] < RAM_ADDR {
          return false;
        }
      } else if kind == LOAD16 {
        SetRegister(c, d, Join(memory[regs[a]], memory[regs[a] + 1]));
      } else if kind == PUSH16 {
        Push(c, d, opA);
      } else if kind == POP16 {
        PopsAsMeant(c, d, a);
        Pop(c, d, a);
      } else if kind == CALL {
        Call(c, d, a);
      } else if kind == XCHG8 {
        var addr := regs[d];
        var memValue := memory[addr];
        SetByte(c, addr, Lo(regs[a]));
        SetRegister(StoreByte(c, c.regs[d], Lo(c.regs[a])), a, memValue);
      } else {
        SetRegister(c, d, Clz16(regs[a]));
      }
      return true;
    }

    /** Storing a word at the address in a register, a byte at a time, moving the register on. */
    method Push(ghost c: Cpu, d: Reg, value: Word)
      requires Agrees(c) && CanStore(c.mem, c.regs[d], 2)
      modifies regs, memory
      ensures Agrees(SetReg(StoreWord(c, c.regs[d], value), d, c.regs[d] + 2))
    {
      hide Agrees, Hi, Lo;
      ghost var at := c.regs[d];
      Registers(c);
      SetByte(c, regs[d], Hi(value));
      ghost var c1 := StoreByte(c, at, Hi(value));
      SetRegister(c1, d, Wrap(regs[d] + 1));
      ghost var c2 := SetReg(c1, d, at + 1);
      Registers(c2);
      SetByte(c2, regs[d], Lo(value));
      ghost var c3 := StoreByte(c2, at + 1, Lo(value));
      Registers(c3);
      SetRegister(c3, d, Wrap(regs[d] + 1));
      assert SetReg(c3, d, at + 2) == SetReg(StoreWord(c, at, value), d, at + 2);
    }

    /** Loading a word backwards, a byte at a time, even into the register it is popped from. */
    method Pop(ghost c: Cpu, d: Reg, a: Reg)
      requires Agrees(c) && CanPop(c, d, a)
      modifies regs
      ensures Agrees(Popped(c, d, a))
    {
      hide Agrees, CanPop, Join, PopHalfway;
      PopSteps(c, d, a);
      Registers(c);
      SetRegister(c, a, Wrap((regs[a] as int) - 1));
      ghost var top := Wrap((c.regs[a] as int) - 1);
      ghost var c1 := SetReg(c, a, top);
      Registers(c1);
      KnownByte(c1, top);
      SetRegister(c1, d, memory[regs[a]]);
      ghost var half := PopHalfway(c, d, a);
      Registers(half);
      SetRegister(half, a, Wrap((regs[a] as int) - 1));
      ghost var at := Wrap((half.regs[a] as int) - 1);
      ghost var moved := SetReg(half, a, at);
      Registers(moved);
      KnownByte(moved, at);
      // The register holds a byte, so or-ing the upper byte in is a sum.
      SetRegister(moved, d, Join(memory[regs[a]], regs[d]));
    }

    method Call(ghost c: Cpu, d: Reg, a: Reg)
      requires Agrees(c) && CanStore(c.mem, c.regs[a], 2)
      modifies regs, memory
      ensures var pushed := SetReg(StoreWord(c, c.regs[a], c.regs[IP]), a, c.regs[a] + 2);
              Agrees(SetReg(pushed, IP, pushed.regs[d]))
    {
      hide Agrees;
      Registers(c);
      var preIP := regs[IP];
      Push(c, a, preIP);
      ghost var pushed := SetReg(StoreWord(c, c.regs[a], c.regs[IP]), a, c.regs[a] + 2);
      Registers(pushed);
      SetRegister(pushed, IP, regs[d]);
    }

    method ExecAlu(ghost c: Cpu, op: Nibble, d: Reg, a: Reg, b: Reg) returns (more: bool)
      requires Agrees(c) && op != SKIP && !Isa.ExecAlu(c, op, d, a, b).Stuck?
      modifies regs, memory
      ensures Reached(Isa.ExecAlu(c, op, d, a, b), more)
    {
      hide Isa.ExecExtra, AluResult, IncDecValue;
      var opA, opB := regs[a], regs[b];
      if op == INC {
        SetRegister(c, d, Wrap(regs[d] + IncDecValue(a, b)));
      } else if op == DEC {
        SetRegister(c, d, Wrap((regs[d] as int) - IncDecValue(a, b)));
      } else if op == DIV && opB == 0 {
        return false;
      } else if Arithmetic(op) {
        var v := Compute(op, opA, opB);
        SetRegister(c, d, v);
      } else {
        more := ExecExtra(c, d, a, b);
        return more;
      }
      return true;
    }

    method ExecOther(ghost c: Cpu, i: Instr) returns (more: bool)
      requires Agrees(c) && !i.Alu? && !Exec(c, i).Stuck?
      modifies regs, memory
      ensures Reached(Exec(c, i), more)
    {
      match i {
        case Store8(d, s) =>
          SetByte(c, regs[d], Lo(regs[s]));
          if regs[d] < RAM_ADDR {
            return false;
          }
        case Load8(d, s) => SetRegister(c, d, memory[regs[s]]);
        case Set4(d, v) => SetRegister(c, d, v);
        case Set8(d, v) => SetRegister(c, d, v);
        case Set16(d, v) => SetRegister(c, d, v);
        case Short(kind) =>
          if kind == ILLEGAL {
            return false;
          }
      }
      return true;
    }

    /** One call is one step of the counting machine. */
    method RunNextInstruction(ghost e: Emu) returns (more: bool)
      requires Agrees(e.cpu) && skipCounter == e.skip && !EmuStep(e).EmuStuck?
      modifies this`skipCounter, regs, memory
      ensures EmuStep(e).EmuNext? ==> more && Agrees(EmuStep(e).emu.cpu) && skipCounter == EmuStep(e).emu.skip
      ensures EmuStep(e).EmuHalt? ==> !more
    {
      hide FetchInstr, CanFetch, Isa.ExecAlu, Exec, Advance, Bit, Agrees;
      var i := Fetch(e.cpu);
      ghost var c := Advance(e.cpu);
      Registers(c);
      if skipCounter > 0 {
        skipCounter := skipCounter - 1;
        return true;
      }
      if IsSkip(i) {
        skipCounter := if Bit(regs[i.dest], i.opA) then i.opB + 1 else 0;
        assert skipCounter == SkipCount(c, i);
        return true;
      } else if i.Alu? {
        ExecOfAlu(c, i);
        more := ExecAlu(c, i.op, i.dest, i.opA, i.opB);
      } else {
        more := ExecOther(c, i);
      }
    }

    /** A number of instructions, none of which stops the process. */
    method RunFor(ghost e: Emu, count: nat)
      requires Agrees(e.cpu) && skipCounter == e.skip && EmuSteps(e, count).EmuNext?
      modifies this`skipCounter, regs, memory
      ensures var last := EmuSteps(e, count).emu; Agrees(last.cpu) && skipCounter == last.skip
    {
      hide EmuStep, Agrees;
      ghost var at := e;
      for n := 0 to count
        invariant Agrees(at.cpu) && skipCounter == at.skip
        invariant EmuSteps(at, count - n) == EmuSteps(e, count)
      {
        var more := RunNextInstruction(at);
        at := EmuStep(at).emu;
      }
    }

    // Facts for the proofs above.

    lemma Registers(c: Cpu)
      requires Agrees(c)
      ensures Valid() && regs[..] == c.regs
      ensures forall r: Reg :: regs[r] == c.regs[r]
    {
    }

    lemma KnownByte(c: Cpu, a: Word)
      requires Agrees(c) && a in c.mem
      ensures a < memory.Length && memory[a] == c.mem[a]
    {
    }
  }
}
