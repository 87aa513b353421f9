/** The two interpreters side by side. */
module SameMachine {
  import opened Words
  import opened Bytecode
  import opened Isa
  import Emulator
  import KernelCpu
  import MemorySpace

  /** What a user of either interpreter can see agrees. */
  ghost predicate SameView(k: KernelCpu.Process, e: Emulator.Process, known: set<Word>)
    reads k.regs, k.memory, e.regs, e.memory
  {
    && k.Valid() && e.Valid() && MemorySpace.Proper(k.memory.Contents())
    && k.regs[..] == e.regs[..]
    && forall a :: a in known ==>
      && a < e.memory.Length && MemorySpace.Readable(k.memory.Contents(), a)
      && MemorySpace.Peek(k.memory.Contents(), a) == e.memory[a]
  }

  lemma SeenAlike(k: KernelCpu.Process, e: Emulator.Process, c: Cpu)
    requires k.Agrees(c) && e.Agrees(c)
    ensures SameView(k, e, c.mem.Keys)
  {
  }

  /**
   * Started alike, the kernel after `n` instructions and the emulator after as many again as the kernel skipped
   * show the same registers and the same memory.
   */
  method RunBoth(k: KernelCpu.Process, e: Emulator.Process, ghost c: Cpu, n: nat, emuCount: nat) returns (ran: nat)
    requires k.Agrees(c) && k.Coherent() && e.Agrees(c) && e.skipCounter == 0
    requires Steps(c, n).Next? && emuCount == EmuCounts(c, n)
    requires k.regs != e.regs
    modifies k`baseAddr, k`prefetched, k.buffer, k.regs, k.memory`ramFile, k.memory`ramLen, k.memory`ramOpen
    modifies e`skipCounter, e.regs, e.memory
    ensures k.memory.Roomy() || KernelCpu.RoomFor(old(k.memory.Contents()), c, n) ==> ran == n
    ensures ran == n ==> SameView(k, e, Steps(c, n).cpu.mem.Keys) && e.skipCounter == 0
    ensures e.Agrees(Steps(c, n).cpu) && e.skipCounter == 0
    ensures ran == n ==> k.Agrees(Steps(c, n).cpu) && k.Coherent()
  {
    hide Step, EmuStep, Isa.EmuCount;
    ghost var last := Steps(c, n).cpu;
    RunSimulated(c, n);
    e.RunFor(Emu(c, 0), emuCount);
    ran := k.Run(c, n);
    if ran == n {
      SeenAlike(k, e, last);
    }
  }

  /**
   * Started alike, where the kernel's next instruction after `n` ends the process, so does the emulator's after as many
   * again as the kernel skipped; and a kernel that gets less far, for want of RAM, ends it too.
   */
  method HaltBoth(k: KernelCpu.Process, e: Emulator.Process, ghost c: Cpu, n: nat, emuCount: nat)
    returns (ran: nat, ok: bool, more: bool)
    requires k.Agrees(c) && k.Coherent() && e.Agrees(c) && e.skipCounter == 0
    requires Steps(c, n).Next? && Step(Steps(c, n).cpu).Halt? && emuCount == EmuCounts(c, n)
    requires k.regs != e.regs
    modifies k`baseAddr, k`prefetched, k.buffer, k.regs, k.memory`ramFile, k.memory`ramLen, k.memory`ramOpen
    modifies e`skipCounter, e.regs, e.memory
    ensures k.memory.Roomy() || KernelCpu.RoomFor(old(k.memory.Contents()), c, n) ==> ran == n
    ensures !ok && !more
  {
    hide Step, EmuStep;
    ghost var last := Steps(c, n).cpu;
    HaltsAlike(last);
    ran := RunBoth(k, e, c, n, emuCount);
    more := e.RunNextInstruction(Emu(last, 0));
    ok := false;
    if ran == n {
      ok := k.RunInstruction(last);
    }
  }

  // Popping into the register that is popped from, which the machine leaves undefined.

  /** Wherever both interpreters can pop, they leave the same registers exactly when the two registers differ. */
  lemma PopsAgreeExactly(c: Cpu, d: Reg, a: Reg)
    requires KernelCpu.CanPop(c, a) && Emulator.CanPop(c, d, a)
    ensures KernelCpu.Popped(c, d, a).regs == Emulator.Popped(c, d, a).regs <==> d != a
  {
    var sp := Wrap((c.regs[a] as int) - 2);
    assert Wrap((c.regs[a] as int) - 1) == sp + 1;
    var low := c.mem[sp + 1];
    if d == a {
      assert Emulator.Popped(c, d, a).regs[d] == Join(c.mem[low - 1], low - 1);
      assert KernelCpu.Popped(c, d, a).regs[d] == Join(c.mem[sp], low);
    } else {
      assert Wrap(sp + 1 - 1) == sp;
      assert KernelCpu.Popped(c, d, a).regs == Emulator.Popped(c, d, a).regs;
    }
  }

  /** Both interpreters run one pop, started with the same registers and the same known memory. */
  method PopBoth(k: KernelCpu.Process, e: Emulator.Process, ghost c: Cpu, d: Reg, a: Reg)
    requires k.Agrees(c) && e.Agrees(c) && k.regs != e.regs
    requires KernelCpu.CanPop(c, a) && Emulator.CanPop(c, d, a)
    modifies k.regs, k.memory`ramFile, k.memory`ramLen, k.memory`ramOpen, e.regs, e.memory
    ensures k.regs[..] == e.regs[..] <==> d != a
  {
    hide KernelCpu.CanPop, Emulator.CanPop, KernelCpu.Popped, Emulator.Popped, ExecExtra;
    var ok := k.ExecExtra(c, d, a, Bytecode.POP16);
    var more := e.ExecExtra(c, d, a, Bytecode.POP16);
    PopsAgreeExactly(c, d, a);
  }

  /** Magic bytes (load8 r5 r7 twice), mov r6 0x8000, mov r0 1, push16 r0, pop16 r6. */
  const POP_PROGRAM: seq<Byte> := [0x2F, 0x2F, 0xDE, 0x80, 0x00, 0x81, 0xFB, 0x83, 0xFB, 0xB4]

  /** A machine about to run that program, with some registers and IP somewhere in it. */
  function At(ip: Word, r0: Word, r5: Word, r6: Word): Cpu {
    Cpu([r0, 0, 0, 0, 0, r5, r6, ip], map a: Word | a < |POP_PROGRAM| :: POP_PROGRAM[a])
  }

  lemma LoadAndSetsParse()
    ensures Parse(0x2F, 0, 0) == Load8(5, IP) && Parse(0x81, 0, 0) == Set4(0, 1)
    ensures Parse(0xDE, 0x80, 0x00) == Set16(SP, 0x8000)
  {
    hide Parse;
    ParseEncode(Load8(5, IP), 0, 0);
    ParseEncode(Set4(0, 1), 0, 0);
    ParseEncode(Set16(SP, 0x8000), 0, 0);
    assert Encode(Set16(SP, 0x8000)) == [0xDE, 0x80, 0x00];
  }

  lemma PushAndPopParse()
    ensures Parse(0xFB, 0x83, 0) == Alu(EXTRA, SP, 0, PUSH16) && Parse(0xFB, 0xB4, 0) == Alu(EXTRA, SP, SP, POP16)
  {
    hide Parse;
    ParseEncode(Alu(EXTRA, SP, 0, PUSH16), 0, 0);
    ParseEncode(Alu(EXTRA, SP, SP, POP16), 0, 0);
    assert Encode(Alu(EXTRA, SP, 0, PUSH16)) == [0xFB, 0x83] && Encode(Alu(EXTRA, SP, SP, POP16)) == [0xFB, 0xB4];
  }

  lemma PopProgramLoads()
    ensures Step(At(0, 0, 0, 0)) == Next(At(1, 0, 0x2F, 0)) && Step(At(1, 0, 0x2F, 0)) == Next(At(2, 0, 0xDE, 0))
  {
    hide Parse, ExecAlu, ExecShort;
    LoadAndSetsParse();
    assert FetchInstr(At(0, 0, 0, 0)) == FetchInstr(At(1, 0, 0x2F, 0)) == Load8(5, IP);
  }

  lemma PopProgramSetsStack()
    ensures Step(At(2, 0, 0xDE, 0)) == Next(At(5, 0, 0xDE, 0x8000))
  {
    hide Parse, ExecAlu, ExecShort, ExecMemory;
    LoadAndSetsParse();
    assert FetchInstr(At(2, 0, 0xDE, 0)) == Set16(SP, 0x8000);
  }

  lemma PopProgramSetsOne()
    ensures Step(At(5, 0, 0xDE, 0x8000)) == Next(At(6, 1, 0xDE, 0x8000))
  {
    hide Parse, ExecAlu, ExecShort, ExecMemory;
    LoadAndSetsParse();
    assert FetchInstr(At(5, 0, 0xDE, 0x8000)) == Set4(0, 1);
  }

  lemma PopProgramPushes()
    ensures var c := At(8, 1, 0xDE, 0x8002); var pushed := Cpu(c.regs, c.mem[0x8000 := 0][0x8001 := 1]);
            && Step(At(6, 1, 0xDE, 0x8000)) == Next(pushed)
            && CanFetch(pushed) && FetchInstr(pushed) == Alu(EXTRA, SP, SP, POP16)
            && Advance(pushed) == pushed.(regs := At(10, 1, 0xDE, 0x8002).regs)
  {
    hide Parse, ExecShort, ExecMemory;
    PushAndPopParse();
    assert FetchInstr(At(6, 1, 0xDE, 0x8000)) == Alu(EXTRA, SP, 0, PUSH16);
  }

  /** A program that pops the word it pushed into the stack register: the kernel leaves 1, the emulator 0x2F00. */
  lemma PopExample()
    ensures var o := Steps(At(0, 0, 0, 0), 5);
            && o.Next? && CanFetch(o.cpu) && FetchInstr(o.cpu) == Alu(EXTRA, SP, SP, POP16)
            && KernelCpu.CanPop(Advance(o.cpu), SP) && Emulator.CanPop(Advance(o.cpu), SP, SP)
            && KernelCpu.Popped(Advance(o.cpu), SP, SP).regs[SP] == 1
            && Emulator.Popped(Advance(o.cpu), SP, SP).regs[SP] == 0x2F00
  {
    hide Step, FetchInstr, CanFetch;
    PopProgramLoads();
    PopProgramSetsStack();
    PopProgramSetsOne();
    PopProgramPushes();
    var c := At(8, 1, 0xDE, 0x8002);
    var pushed := Cpu(c.regs, c.mem[0x8000 := 0][0x8001 := 1]);
    assert Steps(At(5, 0, 0xDE, 0x8000), 2) == Next(pushed);
    assert Steps(At(1, 0, 0x2F, 0), 4) == Steps(At(2, 0, 0xDE, 0), 3) == Steps(At(5, 0, 0xDE, 0x8000), 2);
    PopsDiffer(pushed.(regs := At(10, 1, 0xDE, 0x8002).regs));
  }

  lemma PopsDiffer(c: Cpu)
    requires c.regs[SP] == 0x8002 && {0, 0x8000, 0x8001} <= c.mem.Keys
    requires c.mem[0] == 0x2F && c.mem[0x8000] == 0 && c.mem[0x8001] == 1
    ensures KernelCpu.CanPop(c, SP) && KernelCpu.Popped(c, SP, SP).regs[SP] == 1
    ensures Emulator.CanPop(c, SP, SP) && Emulator.Popped(c, SP, SP).regs[SP] == 0x2F00
  {
  }
}
