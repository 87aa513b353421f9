/** Whole runs of assembled programs, line by line. */
module LineRuns {
  import opened AddressMap
  import opened Words
  import opened AssemblerModel
  import opened Relaxation
  import opened AssembledMeaning
  import opened Isa
  import Bytecode

  /** A program run one line at a time: on to a line, stopped, or not meant to be run. */
  datatype LineOutcome = Go(line: nat, cpu: Cpu) | LineHalt | LineStuck

  /** The first line at an address. */
  function LineAt(lens: Lens, a: Word, from: nat): (r: Option<nat>)
    requires from <= |lens|
    ensures r.Some? ==> from <= r.value <= |lens| && Offset(lens, r.value) == a
    ensures r.Some? ==> forall k :: from <= k < r.value ==> Offset(lens, k) != a
    ensures r.None? ==> forall k :: from <= k <= |lens| ==> Offset(lens, k) != a
    decreases |lens| - from
  {
    if Offset(lens, from) == a then Some(from) else if from == |lens| then None else LineAt(lens, a, from + 1)
  }

  /** A byte put on the stack. */
  function PushedByte(next: Cpu, b: Byte): Outcome {
    var sp := next.regs[Bytecode.SP];
    if sp < RAM_ADDR then Halt
    else if CanStore(next.mem, sp, 1) then Next(SetReg(StoreByte(next, sp, b), Bytecode.SP, sp + 1))
    else Stuck
  }

  /** A byte taken from the stack. */
  function PoppedByte(next: Cpu, d: Bytecode.Reg): Outcome {
    var sp := Wrap((next.regs[Bytecode.SP] as int) - 1);
    if CanLoad(next, sp) then Next(SetReg(SetReg(next, Bytecode.SP, sp), d, next.mem[sp])) else Stuck
  }

  /** What a line that goes on to the next one does to registers and memory. */
  function Effect(next: Cpu, prog: Lines, lens: Lens, i: nat): Outcome
    requires |lens| == |prog| && Small(lens) && i < |prog|
  {
    match prog[i]
    case Mov(Named(d), src) =>
      var v := SourceNow(next, prog, lens, src);
      if v.Some? then Next(SetReg(next, d, v.value)) else Stuck
    case Alu(op, Named(_), _, _, _, _, _) => if op == Bytecode.SKIP then Stuck else AluEffect(next, prog[i])
    case Push8(Named(s)) =>
      PushedByte(next, Lo(if s == Bytecode.IP then Wrap(Offset(lens, i) + 1) else next.regs[s]))
    case Pop8(Named(d)) => PoppedByte(next, d)
    case ClearInstructionCache => Next(next)
    case Debug => Next(next)
    case Nop => Next(next)
    case Syscall => Stuck
    case line => RegisterEffect(next, line)
  }

  /** Going on at the next line, if IP was left alone. */
  function Onward(o: Outcome, back: Word, i: nat): LineOutcome {
    match o
    case Next(d) => if d.regs[Bytecode.IP] == back then Go(i + 1, d) else LineStuck
    case Halt => LineHalt
    case Stuck => LineStuck
  }

  /** Line `i`, run on its own terms: labels, symbols and operands, no encodings. */
  function LineStep(c: Cpu, prog: Lines, lens: Lens, i: nat): (o: LineOutcome)
    requires |lens| == |prog| && Small(lens)
    ensures o.Go? ==> o.line <= |prog|
  {
    if i >= |prog| then LineStuck
    else
      var line, back := prog[i], LineAddr(lens, i + 1);
      if line.Jmp? then JmpStep(c, prog, lens, line.target)
      else if line.Call? then CallStep(c, prog, lens, line.target, back)
      else if line.Ret? then RetStep(c, lens)
      else if IsSkipLine(line) then SkipStep(c, lens, i, line)
      else if RawCount(line) > 0 then Onward(Effect(GoTo(c, back), prog, lens, i), back, i)
      else if line.Define? && line.data != [] then LineStuck
      else Go(i + 1, c)
  }

  predicate IsSkipLine(line: Line) {
    line.Alu? && line.op == Bytecode.SKIP
  }

  predicate IsBranch(line: Line) {
    line.Jmp? || line.Call? || line.Ret? || IsSkipLine(line)
  }

  function JmpStep(c: Cpu, prog: Lines, lens: Lens, target: string): (o: LineOutcome)
    requires |lens| == |prog| && Small(lens)
    ensures o.Go? ==> o.line <= |prog|
  {
    var to := Index(prog, LabelKind, target);
    if to.None? then LineStuck else Go(to.value, GoTo(c, LineAddr(lens, to.value)))
  }

  function CallStep(c: Cpu, prog: Lines, lens: Lens, target: string, back: Word): (o: LineOutcome)
    requires |lens| == |prog| && Small(lens)
    ensures o.Go? ==> o.line <= |prog|
  {
    var to := Index(prog, LabelKind, target);
    if to.None? || !CanStore(c.mem, c.regs[Bytecode.SP], 2) then LineStuck
    else Go(to.value, Called(c, LineAddr(lens, to.value), back))
  }

  function RetStep(c: Cpu, lens: Lens): (o: LineOutcome)
    ensures o.Go? ==> o.line <= |lens|
  {
    var sp := Wrap((c.regs[Bytecode.SP] as int) - 2);
    if !CanLoadWord(c, sp) || LineAt(lens, LoadWord(c, sp), 0).None? then LineStuck
    else Go(LineAt(lens, LoadWord(c, sp), 0).value, GoTo(SetReg(c, Bytecode.SP, sp), LoadWord(c, sp)))
  }

  function SkipStep(c: Cpu, lens: Lens, i: nat, line: Line): (o: LineOutcome)
    requires i < |lens| && Small(lens) && IsSkipLine(line)
    ensures o.Go? ==> o.line <= |lens|
  {
    var next := GoTo(c, LineAddr(lens, i + 1));
    if i + 1 == |lens| || line.dest.NotRegister? then LineStuck
    else if Bit(next.regs[line.dest.reg], line.skipBit) then Go(i + 2, GoTo(c, LineAddr(lens, i + 2)))
    else Go(i + 1, next)
  }

  function LineSteps(c: Cpu, prog: Lines, lens: Lens, i: nat, n: nat): (o: LineOutcome)
    requires |lens| == |prog| && Small(lens)
    decreases n
  {
    if n == 0 then Go(i, c)
    else
      var o := LineStep(c, prog, lens, i);
      if o.Go? then LineSteps(o.cpu, prog, lens, o.line, n - 1) else o
  }

  /** How many machine instructions a line is run as. */
  function Cost(prog: Lines, i: nat): nat {
    if i < |prog| then RawCount(prog[i]) else 0
  }

  function Costs(c: Cpu, prog: Lines, lens: Lens, i: nat, n: nat): nat
    requires |lens| == |prog| && Small(lens)
    decreases n
  {
    if n == 0 then 0
    else
      var o := LineStep(c, prog, lens, i);
      if o.Go? then Cost(prog, i) + Costs(o.cpu, prog, lens, o.line, n - 1) else 0
  }

  /** A settled program in memory, with the machine at a line or at its end. */
  ghost predicate AtLine(c: Cpu, prog: Lines, lens: Lens, opts: Options, i: nat) {
    && Fixpoint(prog, lens, opts) && i <= |prog| && Loaded(c, prog, lens, opts)
    && c.regs[Bytecode.IP] == Offset(lens, i)
  }

  // The program stays in memory.

  lemma ExecKeepsProgram(c: Cpu, i: Bytecode.Instr, x: Word)
    requires !IsSkip(i) && Exec(c, i).Next? && x in c.mem && x < RAM_ADDR
    ensures x in Exec(c, i).cpu.mem && Exec(c, i).cpu.mem[x] == c.mem[x]
  {
    hide AluResult, InPlace, Hi, Lo, Clz16, LoadWord;
  }

  lemma {:induction false} SkipKeepsMemory(c: Cpu, n: nat)
    requires SkipOver(c, n).Next?
    ensures SkipOver(c, n).cpu.mem == c.mem
    decreases n
  {
    hide CanFetch;
    if n > 0 {
      assert CanFetch(c);
      SkipKeepsMemory(Advance(c), n - 1);
    }
  }

  lemma StepKeepsProgram(c: Cpu, x: Word)
    requires Step(c).Next? && x in c.mem && x < RAM_ADDR
    ensures x in Step(c).cpu.mem && Step(c).cpu.mem[x] == c.mem[x]
  {
    hide Exec, CanFetch, FetchInstr, IsSkip, SkipOver;
    var i := FetchInstr(c);
    if IsSkip(i) {
      SkipKeepsMemory(Advance(c), SkipCount(Advance(c), i));
    } else {
      ExecKeepsProgram(Advance(c), i, x);
    }
  }

  lemma {:induction false} StepsKeepProgram(c: Cpu, n: nat, x: Word)
    requires Steps(c, n).Next? && x in c.mem && x < RAM_ADDR
    ensures x in Steps(c, n).cpu.mem && Steps(c, n).cpu.mem[x] == c.mem[x]
    decreases n
  {
    hide Step;
    if n > 0 {
      StepKeepsProgram(c, x);
      StepsKeepProgram(Step(c).cpu, n - 1, x);
    }
  }

  lemma StillLoaded(c: Cpu, d: Cpu, n: nat, prog: Lines, lens: Lens, opts: Options)
    requires |lens| == |prog| && Small(lens) && Loaded(c, prog, lens, opts) && Steps(c, n) == Next(d)
    ensures Loaded(d, prog, lens, opts)
  {
    hide Steps, Loaded, Small;
    forall x: Word | x in c.mem && x < RAM_ADDR
      ensures x in d.mem && d.mem[x] == c.mem[x]
    {
      StepsKeepProgram(c, n, x);
    }
    StoresKeepProgram(c, d, prog, lens, opts);
  }

  lemma OneStep(c: Cpu)
    ensures Steps(c, 1) == Step(c)
  {
    hide Step;
  }

  // Each kind of line.

  /** A line's machine instructions have its effect and leave IP where it is. */
  lemma EffectMeaning(c: Cpu, prog: Lines, lens: Lens, opts: Options, i: nat)
    requires AtLineStart(c, prog, lens, opts, i) && RawCount(prog[i]) > 0 && !IsBranch(prog[i])
    ensures Offset(lens, i + 1) < 0x8000
    ensures var o := Effect(GoTo(c, Offset(lens, i + 1)), prog, lens, i);
            (o.Next? ==> Steps(c, RawCount(prog[i])) == o) && (o.Halt? ==> Step(c).Halt?)
  {
    hide Step, Steps, Loaded, Small, Offset, GoTo, Settled, LineOk, AluEffect, RegisterEffect, SourceNow, PushedByte;
    hide PoppedByte;
    OneStep(c);
    match prog[i] {
      case Mov(_, _) => MovMeaning(c, prog, lens, opts, i);
      case Alu(_, _, _, _, _, _, _) => AluMeaning(c, prog, lens, opts, i);
      case Push8(_) => PushMeaning(c, prog, lens, opts, i);
      case Pop8(_) => PopMeaning(c, prog, lens, opts, i);
      case Store8(_, _) => RegisterLineMeaning(c, prog, lens, opts, i);
      case Load8(_, _) => RegisterLineMeaning(c, prog, lens, opts, i);
      case Xchg8(_, _) => RegisterLineMeaning(c, prog, lens, opts, i);
      case Clz(_, _) => RegisterLineMeaning(c, prog, lens, opts, i);
      case _ => ShortMeaning(c, prog, lens, opts, i);
    }
  }

  lemma ShortMeaning(c: Cpu, prog: Lines, lens: Lens, opts: Options, i: nat)
    requires AtLineStart(c, prog, lens, opts, i)
    requires prog[i].Nop? || prog[i].Debug? || prog[i].ClearInstructionCache? || prog[i].Syscall?
    ensures Offset(lens, i + 1) < 0x8000
    ensures !prog[i].Syscall? ==> Step(c) == Next(GoTo(c, Offset(lens, i + 1)))
  {
    hide Step, Loaded, Small, Offset, Bytecode.Encode, Settled, LineOk;
    OneInstrRuns(c, prog, lens, opts, i);
  }

  lemma PushMeaning(c: Cpu, prog: Lines, lens: Lens, opts: Options, i: nat)
    requires AtLineStart(c, prog, lens, opts, i) && prog[i].Push8?
    ensures Offset(lens, i + 1) < 0x8000
    ensures var o := Effect(GoTo(c, Offset(lens, i + 1)), prog, lens, i);
            (o.Next? ==> Steps(c, 2) == o) && (o.Halt? ==> Step(c).Halt?)
  {
    hide Step, Steps, Loaded, Small, Offset, Settled, LineOk, Bytecode.Encode, CanStore, Lo;
    TwoInstrCode(c, prog, lens, opts, i);
    Push8Code(prog, lens, opts, i);
    var sp, s := c.regs[Bytecode.SP], prog[i].src8.reg;
    if sp < RAM_ADDR {
      FetchCode(c, Bytecode.Store8(Bytecode.SP, s));
      StoreHalts(c, s);
    } else if CanStore(c.mem, sp, 1) {
      Push8Meaning(c, prog, lens, opts, i);
      SameEffect(c, sp, Lo(GoTo(c, Offset(lens, i) + 1).regs[s]), Offset(lens, i + 1));
    }
  }

  lemma StoreHalts(c: Cpu, s: Bytecode.Reg)
    requires CanFetch(c) && FetchInstr(c) == Bytecode.Store8(Bytecode.SP, s) && c.regs[Bytecode.SP] < RAM_ADDR
    ensures Step(c).Halt?
  {
    hide CanFetch, FetchInstr;
  }

  lemma SameEffect(c: Cpu, sp: Word, b: Byte, back: Word)
    requires sp == c.regs[Bytecode.SP] && sp + 1 < 0x1_0000
    ensures SetReg(GoTo(StoreByte(c, sp, b), back), Bytecode.SP, sp + 1)
         == SetReg(StoreByte(GoTo(c, back), sp, b), Bytecode.SP, sp + 1)
  {
  }

  lemma PopMeaning(c: Cpu, prog: Lines, lens: Lens, opts: Options, i: nat)
    requires AtLineStart(c, prog, lens, opts, i) && prog[i].Pop8?
    ensures Offset(lens, i + 1) < 0x8000
    ensures var o := Effect(GoTo(c, Offset(lens, i + 1)), prog, lens, i);
            !o.Halt? && (o.Next? ==> Steps(c, 2) == o)
  {
    hide Step, Steps, Loaded, Small, Offset, Settled, LineOk;
    Pop8Meaning(c, prog, lens, opts, i);
    StackMoves(c, Wrap((c.regs[Bytecode.SP] as int) - 1), Offset(lens, i + 1));
  }

  lemma StackMoves(c: Cpu, sp: Word, back: Word)
    ensures GoTo(SetReg(c, Bytecode.SP, sp), back) == SetReg(GoTo(c, back), Bytecode.SP, sp)
  {
    assert GoTo(SetReg(c, Bytecode.SP, sp), back).regs == SetReg(GoTo(c, back), Bytecode.SP, sp).regs;
  }

  /** One line of the program is as many machine instructions as it stands for. */
  lemma LineStepMeaning(c: Cpu, prog: Lines, lens: Lens, opts: Options, i: nat)
    requires AtLine(c, prog, lens, opts, i)
    ensures var o := LineStep(c, prog, lens, i);
            && (o.Go? ==> Steps(c, Cost(prog, i)) == Next(o.cpu) && AtLine(o.cpu, prog, lens, opts, o.line))
            && (o.LineHalt? ==> Step(c).Halt?)
  {
    hide Step, Steps, Loaded, Small, Offset, Settled, LineOk, Effect, GoTo, Called, CanStore, CanLoadWord, LoadWord;
    hide Bit;
    var o := LineStep(c, prog, lens, i);
    if i < |prog| && !o.LineStuck? {
      if RawCount(prog[i]) == 0 {
        NoCode(c, prog, lens, i);
      } else if IsBranch(prog[i]) {
        BranchMeaning(c, prog, lens, opts, i);
      } else {
        EffectMeaning(c, prog, lens, opts, i);
      }
      if o.Go? {
        StillLoaded(c, o.cpu, Cost(prog, i), prog, lens, opts);
        if RawCount(prog[i]) > 0 {
          ArrivesAtLine(c, prog, lens, i);
        }
      }
    }
  }

  lemma NoCode(c: Cpu, prog: Lines, lens: Lens, i: nat)
    requires Good(prog, lens) && i < |prog| && RawCount(prog[i]) == 0 && LineStep(c, prog, lens, i).Go?
    ensures LineStep(c, prog, lens, i) == Go(i + 1, c) && Offset(lens, i + 1) == Offset(lens, i)
    ensures Steps(c, 0) == Next(c)
  {
    hide Small;
    assert LineOk(prog, lens, i);
    NextOffset(lens, i);
  }

  lemma BranchMeaning(c: Cpu, prog: Lines, lens: Lens, opts: Options, i: nat)
    requires AtLineStart(c, prog, lens, opts, i)
    requires IsBranch(prog[i])
    requires LineStep(c, prog, lens, i).Go? || LineStep(c, prog, lens, i).LineHalt?
    ensures LineStep(c, prog, lens, i).Go?
    ensures Steps(c, RawCount(prog[i])) == Next(LineStep(c, prog, lens, i).cpu)
  {
    hide Step, Steps, Loaded, Small, Offset, Settled, LineOk, GoTo, Called, CanStore, CanLoadWord, LoadWord, Bit, Wrap;
    OneStep(c);
    match prog[i] {
      case Jmp(_) => JmpMeaning(c, prog, lens, opts, i);
      case Call(_) => CallMeaning(c, prog, lens, opts, i);
      case Ret => RetMeaning(c, prog, lens, opts, i);
      case _ => SkipMeaning(c, prog, lens, opts, i);
    }
  }

  /** Wherever a line leads, IP is that line's address. */
  lemma ArrivesAtLine(c: Cpu, prog: Lines, lens: Lens, i: nat)
    requires |lens| == |prog| && Small(lens) && i < |prog| && LineStep(c, prog, lens, i).Go?
    requires RawCount(prog[i]) > 0
    ensures LineStep(c, prog, lens, i).cpu.regs[Bytecode.IP] == Offset(lens, LineStep(c, prog, lens, i).line)
  {
    hide Small, Offset, Effect, CanStore, CanLoadWord, LoadWord, Bit, Wrap;
  }

  /** Any number of lines, from any line: the machine gets to the same line with the same registers and memory. */
  lemma {:induction false} LinesMeaning(c: Cpu, prog: Lines, lens: Lens, opts: Options, i: nat, n: nat)
    requires AtLine(c, prog, lens, opts, i)
    ensures var o, m := LineSteps(c, prog, lens, i, n), Costs(c, prog, lens, i, n);
            && (o.Go? ==> Steps(c, m) == Next(o.cpu) && AtLine(o.cpu, prog, lens, opts, o.line))
            && (o.LineHalt? ==> Steps(c, m).Next? && Steps(c, m + 1).Halt?)
    decreases n
  {
    hide Step, LineStep, Loaded, Small, Offset, Settled, LineOk, Cost;
    if n > 0 {
      LineStepMeaning(c, prog, lens, opts, i);
      var o := LineStep(c, prog, lens, i);
      if o.Go? {
        LinesMeaning(o.cpu, prog, lens, opts, o.line, n - 1);
        StepsSplit(c, Cost(prog, i), Costs(o.cpu, prog, lens, o.line, n - 1));
        StepsSplit(c, Cost(prog, i), Costs(o.cpu, prog, lens, o.line, n - 1) + 1);
      }
    }
  }

  lemma {:induction false} StepsSplit(c: Cpu, m: nat, n: nat)
    requires Steps(c, m).Next?
    ensures Steps(c, m + n) == Steps(Steps(c, m).cpu, n)
    decreases m
  {
    hide Step;
    if m > 0 {
      StepsSplit(Step(c).cpu, m - 1, n);
    }
  }

  /**
   * An assembled program started at address 0 runs as its lines do, on the kernel's machine and on the emulator's:
   * after any number of lines both are at the same line, with the same registers and memory, or both have stopped.
   */
  lemma ProgramMeaning(c: Cpu, prog: Lines, lens: Lens, opts: Options, n: nat)
    requires Fixpoint(prog, lens, opts) && Loaded(c, prog, lens, opts) && c.regs[Bytecode.IP] == 0
    ensures var o, m := LineSteps(c, prog, lens, 0, n), Costs(c, prog, lens, 0, n);
            && (o.Go? ==> && Steps(c, m) == Next(o.cpu) && AtLine(o.cpu, prog, lens, opts, o.line)
                          && EmuSteps(Emu(c, 0), EmuCounts(c, m)) == EmuNext(Emu(o.cpu, 0)))
            && (o.LineHalt? ==> Steps(c, m + 1).Halt? && EmuSteps(Emu(c, 0), EmuCounts(c, m) + 1).EmuHalt?)
  {
    hide Steps, EmuSteps, EmuCounts, LineSteps, Costs, Loaded, Settled, LineOk, Small, Step, EmuStep;
    var o, m := LineSteps(c, prog, lens, 0, n), Costs(c, prog, lens, 0, n);
    LinesMeaning(c, prog, lens, opts, 0, n);
    if o.Go? {
      RunSimulated(c, m);
    } else if o.LineHalt? {
      HaltsAt(c, m);
      HaltSimulated(c, m);
    }
  }

  lemma HaltsAt(c: Cpu, m: nat)
    requires Steps(c, m + 1).Halt? && Steps(c, m).Next?
    ensures Step(Steps(c, m).cpu).Halt?
  {
    hide Step, Steps;
    StepsAfter(c, m);
  }

  /** A `ret` that finds the stack as a `call` left it goes on at the line after the call. */
  lemma RetAfterCall(c: Cpu, e: Cpu, prog: Lines, lens: Lens, i: nat, j: nat)
    requires Good(prog, lens) && i < |prog| && j < |prog| && prog[i].Call? && prog[j].Ret?
    requires var o := LineStep(c, prog, lens, i);
             o.Go? && e.regs[Bytecode.SP] == o.cpu.regs[Bytecode.SP] && SameWord(o.cpu, e, c.regs[Bytecode.SP])
    ensures LineStep(e, prog, lens, j)
         == Go(i + 1, GoTo(SetReg(e, Bytecode.SP, c.regs[Bytecode.SP]), LineAddr(lens, i + 1)))
  {
    hide Small, Offset, LineOk, CanStore, CanLoadWord, LoadWord, SameWord, Called, Wrap;
    var to := Index(prog, LabelKind, prog[i].target).value;
    ReturnAddress(c, LineStep(c, prog, lens, i).cpu, e, LineAddr(lens, to), LineAddr(lens, i + 1));
    CallEndsAlone(prog, lens, i);
  }

  lemma CallEndsAlone(prog: Lines, lens: Lens, i: nat)
    requires Good(prog, lens) && i < |prog| && prog[i].Call?
    ensures LineAt(lens, LineAddr(lens, i + 1), 0) == Some(i + 1)
  {
    hide Small, Offset;
    assert LineOk(prog, lens, i);
    NextOffset(lens, i);
    forall k | 0 <= k <= i
      ensures Offset(lens, k) < Offset(lens, i + 1)
    {
      OffsetOrder(lens, k, i);
    }
  }
}
