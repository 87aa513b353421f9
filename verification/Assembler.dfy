/** The assembler working on its array of instructions: lengths, offsets, code, and the loop that relaxes them. */
module Assembler {
  import opened Words
  import opened AssemblerModel
  import opened Relaxation
  import opened DefinesLast
  import Bytecode

  function LinesOf(all: seq<Instruction>): (r: Lines)
    ensures |r| == |all| && forall i :: 0 <= i < |all| ==> r[i] == all[i].line
  {
    seq(|all|, i requires 0 <= i < |all| => all[i].line)
  }

  function LensOf(all: seq<Instruction>): (r: Lens)
    ensures |r| == |all| && forall i :: 0 <= i < |all| ==> r[i] == all[i].machineCodeLen
  {
    seq(|all|, i requires 0 <= i < |all| => all[i].machineCodeLen)
  }

  function CodeOf(all: seq<Instruction>): (r: seq<seq<Byte>>)
    ensures |r| == |all| && forall i :: 0 <= i < |all| ==> r[i] == all[i].machineCode
  {
    seq(|all|, i requires 0 <= i < |all| => all[i].machineCode)
  }

  /** Every line knows where its code starts, where its RAM is, and what a skip over it must count. */
  ghost predicate Placed(all: seq<Instruction>) {
    && Small(LensOf(all))
    && forall i :: 0 <= i < |all| ==> PlacedAt(all, i)
  }

  predicate PlacedAt(all: seq<Instruction>, i: nat)
    requires i < |all|
  {
    && all[i].machineCodeOffset == Offset(LensOf(all), i)
    && (all[i].line.Allocation? ==> all[i].ramOffset == RamAddr(LinesOf(all), i))
    && all[i].machineCodeInstructions == RawCount(all[i].line)
  }

  /** A code buffer: some bytes, then the illegal instruction to its end. */
  function Filled(data: seq<Byte>): (r: seq<Byte>)
    requires |data| <= MACHINE_CODE_MAX
    ensures |r| == MACHINE_CODE_MAX && r[..|data|] == data
    ensures forall k :: |data| <= k < MACHINE_CODE_MAX ==> r[k] == Bytecode.ILLEGAL_BYTE
  {
    data + seq(MACHINE_CODE_MAX - |data|, _ => Bytecode.ILLEGAL_BYTE)
  }

  /** Line `i` holds the code it stands for. */
  predicate Coded(all: seq<Instruction>, opts: Options, i: nat)
    requires i < |all| && Small(LensOf(all))
  {
    var prog, lens := LinesOf(all), LensOf(all);
    && Emit(prog, lens, opts, i).Emitted? && |Bytes(prog, lens, opts, i)| <= MACHINE_CODE_MAX
    && all[i].machineCode == Filled(Bytes(prog, lens, opts, i))
  }

  /** Instructions none of which is the end marker, and whose code leaves room for one. */
  predicate NoMarker(list: seq<Bytecode.Instr>) {
    forall k :: 0 <= k < |list| ==> list[k] != Bytecode.Short(Bytecode.ILLEGAL)
  }

  /** Errors are reported; a failed assertion stops the assembler. */
  datatype Output = Failed | AssertionFailed | Assembled(file: seq<Byte>)

  /** Offsets are kept in 16 bits: even at first the code must not be longer. */
  ghost predicate FitsSixteenBits(prog: Lines) {
    forall lens: Lens :: Initial(prog, lens) ==> Small(lens)
  }

  /** A mov's source can be so wrong that the line has no first length. */
  ghost predicate NoLength(prog: Lines) {
    exists i :: 0 <= i < |prog| && InitialLen(prog, i).None?
  }

  /** The error messages: for a line without a first length, or for the first line in error. */
  ghost predicate Fails(prog: Lines, opts: Options) {
    NoLength(prog) || exists i :: FirstError(prog, opts, i) && !Aborts(prog, opts, i)
  }

  /** The failed checks: on a skip that is the first error, or on the stack's address in a program without error. */
  ghost predicate Stops(prog: Lines, opts: Options) {
    && !NoLength(prog)
    && (|| (exists i :: FirstError(prog, opts, i) && Aborts(prog, opts, i))
        || ((forall i :: !InError(prog, opts, i)) && !opts.noStack && StackAddr(prog) < 256))
  }

  /** The lines code is generated from in the end. */
  function FinalLines(prog: Lines, opts: Options, stackLine: nat): Lines
    requires !opts.noStack ==> stackLine < |prog|
  {
    if opts.noStack then prog else prog[stackLine := StackLine(StackAddr(prog))]
  }

  class Program {
    const instructions: array<Instruction>
    const opts: Options
    var stackRamOffset: Word

    ghost function All(): seq<Instruction>
      reads instructions
    {
      instructions[..]
    }

    constructor (lines: Lines, options: Options)
      ensures LinesOf(instructions[..]) == lines && opts == options && fresh(instructions)
    {
      var a := new Instruction[|lines|](i requires 0 <= i < |lines| => Instruction(lines[i], [], 0, 0, 0, 0));
      instructions, opts, stackRamOffset := a, options, 0;
      new;
      assert LinesOf(instructions[..]) == lines;
    }

    // Looking symbols up.

    /** The first line declaring a symbol, or -1. */
    method GetIndex(kind: Kind, name: string) returns (r: int)
      ensures r == -1 <==> Index(LinesOf(All()), kind, name).None?
      ensures r != -1 ==> Index(LinesOf(All()), kind, name) == Some(r)
    {
      ghost var prog := LinesOf(All());
      var i := 0;
      while i < instructions.Length
        invariant 0 <= i <= instructions.Length
        invariant IndexFrom(prog, kind, name, 0) == IndexFrom(prog, kind, name, i)
      {
        if Declares(instructions[i].line, kind, name) {
          return i;
        }
        i := i + 1;
      }
      return -1;
    }

    method GetLabelAddr(name: string) returns (r: int)
      requires Placed(All())
      ensures r == -1 <==> LabelAddr(LinesOf(All()), LensOf(All()), name).None?
      ensures r != -1 ==> LabelAddr(LinesOf(All()), LensOf(All()), name) == Some(r)
    {
      hide Offset;
      var k := GetIndex(LabelKind, name);
      if k == -1 {
        return -1;
      }
      assert PlacedAt(All(), k);
      return instructions[k].machineCodeOffset;
    }

    method GetConstValue(name: string) returns (r: int)
      ensures r == -1 <==> ConstValue(LinesOf(All()), name).None?
      ensures r != -1 ==> ConstValue(LinesOf(All()), name) == Some(r)
    {
      var k := GetIndex(ConstKind, name);
      if k == -1 {
        return -1;
      }
      return instructions[k].line.value;
    }

    /** The value of a symbol a mov names: define, allocation, label, constant, in that order. */
    method GetSymbolValue(name: string) returns (r: Option<Word>)
      requires Placed(All())
      ensures r == SymbolValue(LinesOf(All()), LensOf(All()), name)
    {
      hide Offset, RamAddr, Index;
      var k := GetIndex(DefineKind, name);
      if k != -1 {
        assert PlacedAt(All(), k);
        return Some(instructions[k].machineCodeOffset);
      }
      k := GetIndex(AllocationKind, name);
      if k != -1 {
        assert PlacedAt(All(), k);
        return Some(instructions[k].ramOffset);
      }
      var addr := GetLabelAddr(name);
      if addr != -1 {
        return Some(addr);
      }
      var value := GetConstValue(name);
      if value != -1 {
        return Some(value);
      }
      return None;
    }

    // Passes.

    /** The guesses before the first pass; an unknown mov source is an error. */
    method CalculateInitialMachineCodeLengths() returns (ok: bool)
      modifies instructions
      ensures LinesOf(All()) == old(LinesOf(All()))
      ensures ok ==> Initial(LinesOf(All()), LensOf(All()))
      ensures ok ==> forall i :: 0 <= i < |All()| ==> All()[i].machineCodeInstructions == RawCount(All()[i].line)
      ensures !ok ==> exists i :: 0 <= i < |All()| && InitialLen(LinesOf(All()), i).None?
    {
      hide InitialLen, RawCount;
      ghost var prog := LinesOf(All());
      var i := 0;
      while i < instructions.Length
        invariant 0 <= i <= instructions.Length && LinesOf(All()) == prog
        invariant forall k :: 0 <= k < i ==> InitialLen(prog, k) == Some(instructions[k].machineCodeLen)
        invariant forall k :: 0 <= k < i ==> instructions[k].machineCodeInstructions == RawCount(prog[k])
      {
        var len := InitialLen(LinesOf(instructions[..]), i);
        if len.None? {
          return false;
        }
        instructions[i] := instructions[i].(machineCodeLen := len.value,
                                            machineCodeInstructions := RawCount(instructions[i].line));
        assert LinesOf(All()) == prog;
        i := i + 1;
      }
      return true;
    }

    /** Each line starts where the lines before it end; allocations are laid out in RAM. */
    method CalculateMachineCodeOffsets()
      requires Small(LensOf(All()))
      requires forall i :: 0 <= i < |All()| ==> All()[i].machineCodeInstructions == RawCount(All()[i].line)
      modifies instructions, this`stackRamOffset
      ensures LinesOf(All()) == old(LinesOf(All())) && LensOf(All()) == old(LensOf(All()))
      ensures Placed(All()) && stackRamOffset == StackAddr(LinesOf(All()))
      ensures CodeOf(All()) == old(CodeOf(All()))
    {
      hide PlacedAt, Offset, RamBefore, Index, AllocationSize, RawCount;
      ghost var prog, lens := LinesOf(All()), LensOf(All());
      ghost var code := CodeOf(All());
      var nextMachineCodeOffset: nat, nextRamOffset: nat := 0, 0x8000;
      OffsetStarts(prog, lens);
      var i := 0;
      while i < instructions.Length
        invariant 0 <= i <= instructions.Length
        invariant LinesOf(All()) == prog && LensOf(All()) == lens && CodeOf(All()) == code
        invariant nextMachineCodeOffset == Offset(lens, i) && nextRamOffset == 0x8000 + RamBefore(prog, i)
        invariant forall k :: 0 <= k < |prog| ==> All()[k].machineCodeInstructions == RawCount(prog[k])
        invariant forall k :: 0 <= k < i ==> PlacedAt(All(), k)
      {
        OffsetOrder(lens, i, |lens|);
        OffsetNext(prog, lens, i);
        ghost var before := All();
        var placed := instructions[i].(machineCodeOffset := nextMachineCodeOffset % 0x1_0000);
        nextMachineCodeOffset := nextMachineCodeOffset + placed.machineCodeLen;
        if placed.line.Allocation? {
          placed := placed.(ramOffset := nextRamOffset % 0x1_0000);
          var size := GetAllocationSize(i, prog);
          nextRamOffset := nextRamOffset + size;
        }
        instructions[i] := placed;
        PlacedMore(before, i, placed);
        assert All() == before[i := placed];
        i := i + 1;
      }
      stackRamOffset := nextRamOffset % 0x1_0000;
    }

    /** An allocation's length is a constant's value or a number; sizes are cut to 16 bits. */
    method GetAllocationSize(i: nat, ghost prog: Lines) returns (size: Word)
      requires i < instructions.Length && instructions[i].line.Allocation?
      requires |prog| == |All()| && forall k :: 0 <= k < |prog| ==> All()[k].line == prog[k]
      ensures size == AllocationSize(prog, prog[i])
    {
      hide Index;
      assert LinesOf(All()) == prog;
      var line := instructions[i].line;
      var len := GetConstValue(line.lenText);
      if len == -1 {
        len := line.lenNumber % 0x1_0000;
      }
      size := len * line.membSize % 0x1_0000;
    }

    /** The machine instructions of line `i`, from the addresses the lines hold. */
    method EmitLine(i: nat) returns (code: Emission)
      requires Placed(All()) && i < instructions.Length
      ensures code == Emit(LinesOf(All()), LensOf(All()), opts, i)
    {
      hide Offset, StandaloneCode, AluCode, EmitJmp, EmitCall, MovCode, RawCount, LabelAddr, SymbolValue, Small;
      var instruction := instructions[i];
      match instruction.line {
        case Mov(dest, src) =>
          var value := None;
          if src.Symbol? {
            value := GetSymbolValue(src.name);
          }
          code := MovCode(dest, src, value);
        case Alu(_, _, _, _, _, _, _) =>
          var nextRaw := 0;
          if i + 1 < instructions.Length {
            assert PlacedAt(All(), i + 1);
            nextRaw := instructions[i + 1].machineCodeInstructions;
          }
          code := AluCode(instruction.line, opts, nextRaw);
        case Jmp(target) =>
          assert PlacedAt(All(), i);
          var addr := GetLabelAddr(target);
          code := if addr == -1 then Refused
                  else Emitted(EmitJmp(addr, instruction.machineCodeOffset, instruction.machineCodeLen));
        case Call(target) =>
          if opts.noScratch || opts.noStack {
            return Refused;
          }
          var addr := GetLabelAddr(target);
          code := if addr == -1 then Refused else Emitted(EmitCall(addr));
        case line =>
          code := StandaloneCode(line, opts);
      }
    }

    /** Walking a buffer instruction by instruction up to the end marker. */
    method ActualLen(machineCode: seq<Byte>, ghost list: seq<Bytecode.Instr>) returns (actualLen: nat)
      requires NoMarker(list) && |Bytecode.EncodeAll(list)| + 3 <= MACHINE_CODE_MAX
      requires machineCode == Filled(Bytecode.EncodeAll(list))
      ensures actualLen == |Bytecode.EncodeAll(list)|
    {
      hide Bytecode.EncodeAll, Bytecode.ParseLength;
      ghost var data := Bytecode.EncodeAll(list);
      ghost var left := list;
      actualLen := 0;
      while actualLen < MACHINE_CODE_MAX
        invariant 0 <= actualLen <= |data| && data[actualLen..] == Bytecode.EncodeAll(left)
        invariant NoMarker(left)
        decreases |data| - actualLen
      {
        WalkStep(data, actualLen, left);
        if machineCode[actualLen] == Bytecode.ILLEGAL_BYTE {
          break;
        }
        assert machineCode[actualLen] == data[actualLen];
        actualLen := actualLen + Bytecode.ParseLength(machineCode[actualLen]);
        left := left[1..];
      }
    }

    /** Generating line `i`'s code into its buffer; fails where the line is in error. */
    method GenerateLine(i: nat) returns (ok: bool, aborted: bool, ghost list: seq<Bytecode.Instr>)
      requires Placed(All()) && Good(LinesOf(All()), LensOf(All())) && i < instructions.Length
      modifies instructions
      ensures LinesOf(All()) == old(LinesOf(All())) && LensOf(All()) == old(LensOf(All())) && Placed(All())
      ensures ok == Emit(LinesOf(All()), LensOf(All()), opts, i).Emitted?
      ensures aborted == Emit(LinesOf(All()), LensOf(All()), opts, i).Aborted?
      ensures ok ==> Coded(All(), opts, i) && list == Emit(LinesOf(All()), LensOf(All()), opts, i).list
      ensures forall k :: 0 <= k < |All()| && k != i ==> All()[k] == old(All())[k]
      ensures All()[i] == old(All())[i].(machineCode := All()[i].machineCode)
    {
      hide Placed, PlacedAt, Good, Small, Emit, Bytecode.EncodeAll;
      ghost var before := All();
      ghost var prog, lens := LinesOf(before), LensOf(before);
      FitsBuffer(prog, lens, opts, i);
      PlacedIsSmall(before);
      list := [];
      var code := EmitLine(i);
      if !code.Emitted? {
        return false, code.Aborted?, list;
      }
      list := code.list;
      // The checks on a jump's length never fail: it always has an instruction.
      assert prog[i].Jmp? ==> code.list != [];
      var line := instructions[i].line;
      var bytes := if line.Define? then line.data else Bytecode.EncodeAll(code.list);
      assert bytes == Bytes(prog, lens, opts, i);
      instructions[i] := instructions[i].(machineCode := Filled(bytes));
      SameLayout(before, i, instructions[i]);
      assert All() == before[i := instructions[i]];
      return true, false, list;
    }

    /**
     * One pass: every line's code, until a line turns out shorter than it was taken to be. Then its length is
     * corrected and the pass ends.
     */
    method GenerateMachineCode() returns (ok: bool, aborted: bool, change: bool, ghost at: nat)
      requires Placed(All()) && Good(LinesOf(All()), LensOf(All()))
      modifies instructions
      ensures LinesOf(All()) == old(LinesOf(All()))
      ensures forall k :: 0 <= k < |All()| ==> All()[k].machineCodeInstructions == RawCount(All()[k].line)
      ensures !ok ==> !change && LensOf(All()) == old(LensOf(All()))
      ensures !ok ==> at < |All()| && !Emit(LinesOf(All()), LensOf(All()), opts, at).Emitted?
      ensures !ok ==> forall k :: 0 <= k < at ==> Emit(LinesOf(All()), LensOf(All()), opts, k).Emitted?
      ensures !ok ==> aborted == Emit(LinesOf(All()), LensOf(All()), opts, at).Aborted?
      ensures ok && change ==> Shrinks(LinesOf(All()), old(LensOf(All())), opts, at)
      ensures ok && change ==> LensOf(All()) == Shrunk(LinesOf(All()), old(LensOf(All())), opts, at)
      ensures ok && !change ==> LensOf(All()) == old(LensOf(All())) && Placed(All())
      ensures ok && !change ==> Fixpoint(LinesOf(All()), LensOf(All()), opts)
      ensures ok && !change ==> forall k :: 0 <= k < |All()| ==> Coded(All(), opts, k)
    {
      hide Good, Small, PlacedAt, Emit, Coded, Bytes, RawCount, Settled;
      ghost var prog, lens := LinesOf(All()), LensOf(All());
      aborted := false;
      var i := 0;
      while i < instructions.Length
        invariant 0 <= i <= instructions.Length && LinesOf(All()) == prog && LensOf(All()) == lens && Placed(All())
        invariant forall k :: 0 <= k < i ==> Settled(prog, lens, opts, k) && Coded(All(), opts, k)
      {
        ghost var before := All();
        ghost var list;
        ok, aborted, list := GenerateLine(i);
        if !ok {
          RawPlaced(All());
          SettledEmitted(prog, lens, opts, i);
          return false, aborted, false, i;
        }
        CodedKept(before, All(), opts, i);
        var instruction := instructions[i];
        if instruction.machineCodeLen > 0 && !instruction.line.Define? {
          FitsBuffer(prog, lens, opts, i);
          CodedWalk(All(), opts, i);
          var actualLen := ActualLen(instruction.machineCode, list);
          if actualLen != instruction.machineCodeLen {
            assert actualLen < instruction.machineCodeLen;
            ghost var placed := All();
            instructions[i] := instructions[i].(machineCodeLen := actualLen);
            Resized(placed, i, actualLen);
            assert All() == placed[i := instructions[i]];
            return true, false, true, i;
          }
        }
        NotShrinking(prog, lens, opts, i);
        i := i + 1;
      }
      RawPlaced(All());
      return true, false, false, 0;
    }

    /** Passes until one changes nothing: each that changes something makes the program shorter. */
    method Relax() returns (ok: bool, aborted: bool, ghost at: nat)
      requires WellFormed(LinesOf(All())) && Initial(LinesOf(All()), LensOf(All())) && Small(LensOf(All()))
      requires forall k :: 0 <= k < |All()| ==> All()[k].machineCodeInstructions == RawCount(All()[k].line)
      modifies instructions, this`stackRamOffset
      ensures LinesOf(All()) == old(LinesOf(All())) && Descends(old(LensOf(All())), LensOf(All()))
      ensures ok ==> Fixpoint(LinesOf(All()), LensOf(All()), opts) && Placed(All())
      ensures ok ==> forall k :: 0 <= k < |All()| ==> Coded(All(), opts, k)
      ensures ok ==> stackRamOffset == StackAddr(LinesOf(All()))
      ensures !ok ==> FirstError(LinesOf(All()), opts, at) && aborted == Aborts(LinesOf(All()), opts, at)
    {
      hide Small, Offset, LineOk, RawCount, Coded, Emit, Placed, Bytes, Settled, StackAddr, InitialLen, InError, Aborts;
      ghost var prog, first := LinesOf(All()), LensOf(All());
      InitialGood(prog, first);
      var change := true;
      while change
        invariant LinesOf(All()) == prog && Good(prog, LensOf(All())) && Descends(first, LensOf(All()))
        invariant forall k :: 0 <= k < |prog| ==> All()[k].machineCodeInstructions == RawCount(All()[k].line)
        invariant !change ==> Fixpoint(prog, LensOf(All()), opts) && Placed(All())
        invariant !change ==> forall k :: 0 <= k < |prog| ==> Coded(All(), opts, k)
        invariant !change ==> stackRamOffset == StackAddr(prog)
        decreases change, Offset(LensOf(All()), |prog|)
      {
        CalculateMachineCodeOffsets();
        ghost var lens := LensOf(All());
        ok, aborted, change, at := GenerateMachineCode();
        if !ok {
          RefusedFirst(prog, lens, opts, at);
          return false, aborted, at;
        }
        if change {
          ShrunkGood(prog, lens, opts, at);
        }
      }
      return true, false, 0;
    }

    /**
     * The stack's address goes into the line that sets it, and code is generated once more. The program stops
     * with a failed assertion if that line then needs fewer than its three bytes.
     */
    method SetStack(at: nat) returns (ok: bool)
      requires Placed(All()) && Fixpoint(LinesOf(All()), LensOf(All()), opts)
      requires at < instructions.Length && All()[at].line == StackLine(65535)
      requires stackRamOffset == StackAddr(LinesOf(All()))
      modifies instructions
      ensures LinesOf(All()) == old(LinesOf(All()))[at := StackLine(stackRamOffset)]
      ensures ok <==> stackRamOffset >= 256
      ensures ok ==> Fixpoint(LinesOf(All()), LensOf(All()), opts) && LensOf(All()) == old(LensOf(All()))
      ensures ok ==> forall k :: 0 <= k < |All()| ==> Coded(All(), opts, k)
    {
      hide Small, Offset, LineOk, RawCount, Coded, Emit, PlacedAt, Bytes, StackAddr, Settled;
      ghost var before := All();
      ghost var prog, lens := LinesOf(before), LensOf(before);
      StackLineSettles(prog, lens, opts, at, stackRamOffset);
      instructions[at] := instructions[at].(line := StackLine(stackRamOffset));
      StackLinePlaced(before, at, instructions[at]);
      assert All() == before[at := instructions[at]];
      ghost var changed;
      var done, aborted, change;
      done, aborted, change, changed := GenerateMachineCode();
      StackPass(LinesOf(All()), lens, opts, at, stackRamOffset, changed, done, change);
      return !change;
    }

    /** Moving every define behind everything else, by swapping neighbours until none is out of order. */
    method ShiftDefines() returns (anyChange: bool)
      requires instructions.Length > 0
      modifies instructions
      ensures All() == CodeLines(old(All())) + DataLines(old(All()))
      ensures anyChange <==> All() != old(All())
    {
      ghost var start := All();
      anyChange := false;
      var change := true;
      while change
        invariant CodeLines(All()) == CodeLines(start) && DataLines(All()) == DataLines(start)
        invariant !change ==> Ordered(All(), |All()| - 1)
        invariant Inversions(All()) <= Inversions(start)
        invariant anyChange <==> Inversions(All()) < Inversions(start)
        invariant !anyChange ==> All() == start
        decreases change, Inversions(All())
      {
        change := false;
        ghost var pass := All();
        for i := 0 to instructions.Length - 1
          invariant CodeLines(All()) == CodeLines(start) && DataLines(All()) == DataLines(start)
          invariant Inversions(All()) <= Inversions(pass)
          invariant change <==> Inversions(All()) < Inversions(pass)
          invariant !change ==> All() == pass && Ordered(All(), i)
        {
          if instructions[i].line.Define? && !instructions[i + 1].line.Define? {
            ghost var before := All();
            var tempInstruction := instructions[i];
            instructions[i] := instructions[i + 1];
            instructions[i + 1] := tempInstruction;
            assert All() == before[i := before[i + 1]][i + 1 := before[i]];
            SwapLowers(before, i);
            change := true;
          }
        }
        anyChange := anyChange || change;
      }
      OrderedIsPartitioned(All());
    }

    /** The bytes of the program, line after line. */
    method WriteMachineCode() returns (file: seq<Byte>)
      requires Fixpoint(LinesOf(All()), LensOf(All()), opts)
      requires forall k :: 0 <= k < |All()| ==> Coded(All(), opts, k)
      ensures file == Image(LinesOf(All()), LensOf(All()), opts, |All()|)
    {
      hide Emit, Bytes, LineOk, Offset, Small;
      ghost var prog, lens := LinesOf(All()), LensOf(All());
      file := [];
      for i := 0 to instructions.Length
        invariant file == Image(prog, lens, opts, i)
      {
        SettledLine(prog, lens, opts, i);
        assert Coded(All(), opts, i);
        file := file + instructions[i].machineCode[..instructions[i].machineCodeLen];
      }
    }

    /**
     * From parsed lines to the program's bytes: first lengths, passes, the stack's address, a last pass. A line with
     * no first length, or else the first line in error, decides how the assembler fails.
     */
    method Assemble(stackLine: nat) returns (output: Output)
      requires WellFormed(LinesOf(All())) && FitsSixteenBits(LinesOf(All()))
      requires !opts.noStack ==> stackLine < instructions.Length && All()[stackLine].line == StackLine(65535)
      modifies instructions, this`stackRamOffset
      ensures output.Assembled? ==>
        && LinesOf(All()) == FinalLines(old(LinesOf(All())), opts, stackLine)
        && Fixpoint(LinesOf(All()), LensOf(All()), opts)
        && output.file == Image(LinesOf(All()), LensOf(All()), opts, |All()|)
      ensures output.Failed? <==> Fails(old(LinesOf(All())), opts)
      ensures output.AssertionFailed? <==> Stops(old(LinesOf(All())), opts)
    {
      hide Small, Offset, LineOk, RawCount, Coded, Emit, Placed, Bytes, StackAddr, InitialLen, WellFormed, InError;
      hide Aborts, Fails, Stops;
      ghost var prog := LinesOf(All());
      var ok := CalculateInitialMachineCodeLengths();
      if !ok {
        NoLengthFails(prog, opts);
        return Failed;
      }
      assert Initial(prog, LensOf(All()));
      var aborted;
      ghost var at;
      ok, aborted, at := Relax();
      if !ok {
        ErrorDecides(prog, opts, at);
        return if aborted then AssertionFailed else Failed;
      }
      FixpointHasNoError(prog, LensOf(All()), opts);
      StackDecides(prog, opts);
      if !opts.noStack {
        ok := SetStack(stackLine);
        if !ok {
          return AssertionFailed;
        }
      } else {
        ghost var lens := LensOf(All());
        var done, change;
        done, aborted, change, at := GenerateMachineCode();
        FixpointStays(prog, lens, opts, at);
      }
      var file := WriteMachineCode();
      return Assembled(file);
    }
  }

  /** Placing one more line leaves the earlier ones placed, and changes no line, length or code. */
  lemma PlacedMore(all: seq<Instruction>, i: nat, placed: Instruction)
    requires i < |all| && forall k :: 0 <= k < i ==> PlacedAt(all, k)
    requires placed.line == all[i].line && placed.machineCodeLen == all[i].machineCodeLen
    requires placed.machineCode == all[i].machineCode
    requires placed.machineCodeInstructions == all[i].machineCodeInstructions == RawCount(all[i].line)
    requires placed.machineCodeOffset == Offset(LensOf(all), i)
    requires all[i].line.Allocation? ==> placed.ramOffset == RamAddr(LinesOf(all), i)
    ensures var more := all[i := placed];
            && LinesOf(more) == LinesOf(all) && LensOf(more) == LensOf(all) && CodeOf(more) == CodeOf(all)
            && forall k :: 0 <= k <= i ==> PlacedAt(more, k)
  {
    hide Offset, RamAddr, RawCount;
    var more := all[i := placed];
    assert LinesOf(more) == LinesOf(all) && LensOf(more) == LensOf(all) && CodeOf(more) == CodeOf(all);
    forall k | 0 <= k <= i
      ensures PlacedAt(more, k)
    {
      if k < i {
        assert PlacedAt(all, k);
      }
    }
  }

  lemma OffsetStarts(prog: Lines, lens: Lens)
    ensures Offset(lens, 0) == 0 && RamBefore(prog, 0) == 0
  {
  }

  lemma OffsetNext(prog: Lines, lens: Lens, i: nat)
    requires i < |prog| == |lens|
    ensures Offset(lens, i + 1) == Offset(lens, i) + lens[i]
    ensures RamBefore(prog, i + 1) ==
            RamBefore(prog, i) + if prog[i].Allocation? then AllocationSize(prog, prog[i]) else 0
  {
  }

  /** The walk is at the end exactly when no instruction is left, and else steps over one. */
  lemma WalkStep(data: seq<Byte>, at: nat, left: seq<Bytecode.Instr>)
    requires at <= |data| && data[at..] == Bytecode.EncodeAll(left) && NoMarker(left)
    ensures left == [] <==> at == |data|
    ensures left != [] ==>
      && data[at] != Bytecode.ILLEGAL_BYTE && at + Bytecode.ParseLength(data[at]) <= |data|
      && data[at + Bytecode.ParseLength(data[at])..] == Bytecode.EncodeAll(left[1..])
  {
    hide Bytecode.Encode, Bytecode.ParseLength, Bytecode.ParseAt;
    if left != [] {
      var rest := Bytecode.EncodeAll(left[1..]);
      Bytecode.DecodeFirst(left[0], rest);
      Bytecode.SentinelFree(left[0]);
      var n := |Bytecode.Encode(left[0])|;
      assert data[at..][n..] == data[at + n..];
    }
  }

  // Facts for the passes.

  lemma PlacedIsSmall(all: seq<Instruction>)
    requires Placed(all)
    ensures Small(LensOf(all))
  {
  }

  lemma RawPlaced(all: seq<Instruction>)
    requires Placed(all)
    ensures forall k :: 0 <= k < |all| ==> all[k].machineCodeInstructions == RawCount(all[k].line)
  {
    forall k | 0 <= k < |all|
      ensures all[k].machineCodeInstructions == RawCount(all[k].line)
    {
      assert PlacedAt(all, k);
    }
  }

  /** No line's code holds the end marker's instruction, or needs more than a few bytes; jumps always have code. */
  lemma FitsBuffer(prog: Lines, lens: Lens, opts: Options, i: nat)
    requires Good(prog, lens) && i < |prog|
    ensures Small(lens)
    ensures Emit(prog, lens, opts, i).Emitted? ==>
      && var list := Emit(prog, lens, opts, i).list;
      && NoMarker(list) && |Bytecode.EncodeAll(list)| <= 6 && |Bytes(prog, lens, opts, i)| <= MACHINE_CODE_MAX
      && (prog[i].Jmp? ==> list != [])
      && |Bytes(prog, lens, opts, i)| <= lens[i]
  {
    hide Offset, Small, Bytecode.EncodeAll, Emit;
    if Emit(prog, lens, opts, i).Emitted? {
      EmittedFits(prog, lens, opts, i);
      EmittedList(prog, lens, opts, i);
    }
  }

  lemma EmittedList(prog: Lines, lens: Lens, opts: Options, i: nat)
    requires Good(prog, lens) && i < |prog| && Emit(prog, lens, opts, i).Emitted?
    ensures var list := Emit(prog, lens, opts, i).list;
            NoMarker(list) && |Bytecode.EncodeAll(list)| <= 6 && (prog[i].Jmp? ==> list != [])
  {
    hide Offset, Small, Bytecode.EncodeAll, JmpOk, LabelAddr, SymbolValue;
    var list := Emit(prog, lens, opts, i).list;
    assert LineOk(prog, lens, i);
    if prog[i].Jmp? {
      JmpBytes(LabelAddr(prog, lens, prog[i].target).value, Offset(lens, i), lens[i]);
    }
    ShortCode(list);
  }

  lemma ShortCode(list: seq<Bytecode.Instr>)
    requires |list| <= 2
    ensures |Bytecode.EncodeAll(list)| <= 6
  {
    if |list| == 1 {
      OneInstr(list[0]);
      assert list == [list[0]];
    } else if |list| == 2 {
      TwoInstrs(list[0], list[1]);
      assert list == [list[0], list[1]];
    }
  }

  /** New code in a buffer moves nothing. */
  lemma SameLayout(all: seq<Instruction>, i: nat, x: Instruction)
    requires i < |all| && x == all[i].(machineCode := x.machineCode)
    ensures LinesOf(all[i := x]) == LinesOf(all) && LensOf(all[i := x]) == LensOf(all)
    ensures Placed(all) ==> Placed(all[i := x])
  {
    hide Offset, RamAddr, RawCount, Small;
    var more := all[i := x];
    assert LinesOf(more) == LinesOf(all) && LensOf(more) == LensOf(all);
    if Placed(all) {
      forall k | 0 <= k < |more|
        ensures PlacedAt(more, k)
      {
        assert PlacedAt(all, k);
      }
    }
  }

  lemma CodedKept(before: seq<Instruction>, after: seq<Instruction>, opts: Options, i: nat)
    requires |after| == |before| && LinesOf(after) == LinesOf(before) && LensOf(after) == LensOf(before)
    requires forall k :: 0 <= k < |after| && k != i ==> after[k] == before[k]
    requires Small(LensOf(before))
    ensures forall k :: 0 <= k < |after| && k != i && Coded(before, opts, k) ==> Coded(after, opts, k)
  {
  }

  lemma CodedWalk(all: seq<Instruction>, opts: Options, i: nat)
    requires i < |all| && Small(LensOf(all)) && Coded(all, opts, i) && !all[i].line.Define?
    ensures var list := Emit(LinesOf(all), LensOf(all), opts, i).list;
            |Bytecode.EncodeAll(list)| <= MACHINE_CODE_MAX
            && all[i].machineCode == Filled(Bytecode.EncodeAll(list))
            && Bytes(LinesOf(all), LensOf(all), opts, i) == Bytecode.EncodeAll(list)
  {
  }

  lemma Resized(all: seq<Instruction>, i: nat, n: nat)
    requires i < |all| && Placed(all)
    ensures var after := all[i := all[i].(machineCodeLen := n)];
            && LinesOf(after) == LinesOf(all) && LensOf(after) == LensOf(all)[i := n]
            && forall k :: 0 <= k < |after| ==> after[k].machineCodeInstructions == RawCount(after[k].line)
  {
    hide RawCount, PlacedAt, Small;
    RawPlaced(all);
    var after := all[i := all[i].(machineCodeLen := n)];
    assert LinesOf(after) == LinesOf(all) && LensOf(after) == LensOf(all)[i := n];
  }

  lemma NotShrinking(prog: Lines, lens: Lens, opts: Options, i: nat)
    requires |lens| == |prog| && Small(lens) && i < |prog| && Emit(prog, lens, opts, i).Emitted?
    requires lens[i] > 0 && !prog[i].Define? ==> |Bytes(prog, lens, opts, i)| == lens[i]
    ensures Settled(prog, lens, opts, i)
  {
  }

  lemma StackLinePlaced(all: seq<Instruction>, at: nat, x: Instruction)
    requires Placed(all) && at < |all| && all[at].line.Mov? && x.line.Mov? && x == all[at].(line := x.line)
    ensures var more := all[at := x];
            && Placed(more) && LensOf(more) == LensOf(all) && LinesOf(more) == LinesOf(all)[at := x.line]
  {
    hide Offset, Small, RamBefore;
    var more := all[at := x];
    assert LensOf(more) == LensOf(all) && LinesOf(more) == LinesOf(all)[at := x.line];
    forall k | 0 <= k < |more|
      ensures PlacedAt(more, k)
    {
      assert PlacedAt(all, k);
      RamKept(LinesOf(all), at, x.line, k);
    }
  }

  /** What the pass over a settled program with the stack line filled in does. */
  lemma StackPass(after: Lines, lens: Lens, opts: Options, at: nat, value: Word, changed: nat, done: bool, change: bool)
    requires Good(after, lens) && at < |after| && (Fixpoint(after, lens, opts) <==> value >= 256)
    requires value < 256 ==> Shrinks(after, lens, opts, at)
    requires forall i :: 0 <= i < |after| && i != at ==> Settled(after, lens, opts, i)
    requires !done ==> changed < |after| && !Emit(after, lens, opts, changed).Emitted?
    requires done && change ==> Shrinks(after, lens, opts, changed)
    requires done && !change ==> Fixpoint(after, lens, opts)
    requires !done ==> !change
    ensures done && (change <==> value < 256)
  {
    hide Emit, Small, LineOk, Bytes, Shrinks;
    forall i | 0 <= i < |after| && (i != at || value >= 256)
      ensures Emit(after, lens, opts, i).Emitted? && !Shrinks(after, lens, opts, i)
    {
      assert Settled(after, lens, opts, i);
    }
    ShrinkingIsEmitted(after, lens, opts, at);
    ShrinkingIsEmitted(after, lens, opts, changed);
  }

  lemma ShrinkingIsEmitted(prog: Lines, lens: Lens, opts: Options, i: nat)
    requires |lens| == |prog| && Small(lens)
    ensures Shrinks(prog, lens, opts, i) ==> i < |prog| && Emit(prog, lens, opts, i).Emitted?
  {
  }

  lemma FixpointStays(prog: Lines, lens: Lens, opts: Options, at: nat)
    requires Fixpoint(prog, lens, opts)
    ensures !Shrinks(prog, lens, opts, at) && (at < |prog| ==> Emit(prog, lens, opts, at).Emitted?)
  {
    hide Emit, Bytes, Small, LineOk;
    ShrinkingIsEmitted(prog, lens, opts, at);
    assert at < |prog| ==> Settled(prog, lens, opts, at);
  }

  lemma SettledEmitted(prog: Lines, lens: Lens, opts: Options, n: nat)
    requires |lens| == |prog| && Small(lens) && n <= |prog|
    requires forall k :: 0 <= k < n ==> Settled(prog, lens, opts, k)
    ensures forall k :: 0 <= k < n ==> Emit(prog, lens, opts, k).Emitted?
  {
    hide Emit, Shrinks, Small;
    forall k | 0 <= k < n
      ensures Emit(prog, lens, opts, k).Emitted?
    {
      assert Settled(prog, lens, opts, k);
    }
  }

  /** The line at which a pass gives up is the first line in error. */
  lemma RefusedFirst(prog: Lines, lens: Lens, opts: Options, at: nat)
    requires |lens| == |prog| && Small(lens) && at < |prog| && !Emit(prog, lens, opts, at).Emitted?
    requires forall k :: 0 <= k < at ==> Emit(prog, lens, opts, k).Emitted?
    ensures FirstError(prog, opts, at) && Emit(prog, lens, opts, at).Aborted? == Aborts(prog, opts, at)
  {
    hide InError, Aborts, Emit, Small, InitialLen;
    RefusedExactly(prog, lens, opts, at);
    forall k: nat | k < at
      ensures !InError(prog, opts, k)
    {
      RefusedExactly(prog, lens, opts, k);
    }
  }

  lemma NoLengthFails(prog: Lines, opts: Options)
    requires exists i :: 0 <= i < |prog| && InitialLen(prog, i).None?
    ensures Fails(prog, opts) && !Stops(prog, opts)
  {
    hide InitialLen, InError, Aborts, StackAddr;
  }

  lemma OneFirstError(prog: Lines, opts: Options, i: nat, k: nat)
    requires FirstError(prog, opts, i) && FirstError(prog, opts, k)
    ensures i == k
  {
    hide InError;
  }

  lemma ErrorDecides(prog: Lines, opts: Options, at: nat)
    requires FirstError(prog, opts, at) && !NoLength(prog)
    ensures Fails(prog, opts) == !Aborts(prog, opts, at) && Stops(prog, opts) == Aborts(prog, opts, at)
  {
    hide InError, Aborts, NoLength, StackAddr;
    forall k | FirstError(prog, opts, k)
      ensures k == at
    {
      OneFirstError(prog, opts, at, k);
    }
  }

  lemma StackDecides(prog: Lines, opts: Options)
    requires forall i :: !InError(prog, opts, i)
    requires !NoLength(prog)
    ensures !Fails(prog, opts) && Stops(prog, opts) == (!opts.noStack && StackAddr(prog) < 256)
  {
    hide InError, Aborts, NoLength, StackAddr;
  }

  lemma FixpointHasNoError(prog: Lines, lens: Lens, opts: Options)
    requires Fixpoint(prog, lens, opts)
    ensures forall i :: !InError(prog, opts, i)
  {
    hide InError, Emit, Small, LineOk, Bytes, InitialLen;
    forall i: nat
      ensures !InError(prog, opts, i)
    {
      if i < |prog| {
        assert Settled(prog, lens, opts, i);
        RefusedExactly(prog, lens, opts, i);
      } else {
        NoLineNoError(prog, opts, i);
      }
    }
  }

  lemma NoLineNoError(prog: Lines, opts: Options, i: nat)
    requires i >= |prog|
    ensures !InError(prog, opts, i)
  {
  }

  /**
   * A program that declares 16384 words: the magic bytes, the stack's line, and the allocation, which fills RAM so
   * exactly that the stack's address wraps around to 0.
   */
  function FullRam(): Lines {
    var magic := Load8(Named(5), Named(7));
    [magic, magic, StackLine(65535), Allocation("a", 2, "16384", 16384)]
  }

  lemma StackWraps()
    ensures Stops(FullRam(), Options(false, false))
  {
    var prog, opts := FullRam(), Options(false, false);
    assert forall i :: 0 <= i < |prog| ==> InitialLen(prog, i).Some?;
    forall i: nat
      ensures !InError(prog, opts, i)
    {
    }
    assert ConstValue(prog, "16384").None?;
    assert StackAddr(prog) == 0;
  }
}
