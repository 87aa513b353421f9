/** What assembled lines do when the machine runs them. */
module AssembledMeaning {
  import opened AddressMap
  import opened Words
  import opened AssemblerModel
  import opened Relaxation
  import opened Isa
  import Bytecode

  /** The machine holds the program's bytes from address 0. */
  ghost predicate Loaded(c: Cpu, prog: Lines, lens: Lens, opts: Options)
    requires |lens| == |prog| && Small(lens)
  {
    var image := Image(prog, lens, opts, |prog|);
    && |image| <= PROGMEM_END
    && forall a :: 0 <= a < |image| ==> a in c.mem && c.mem[a] == image[a]
  }

  /** A settled program in memory, with the machine about to run line `i`. */
  ghost predicate AtLineStart(c: Cpu, prog: Lines, lens: Lens, opts: Options, i: nat) {
    && Fixpoint(prog, lens, opts) && i < |prog| && Loaded(c, prog, lens, opts)
    && c.regs[Bytecode.IP] == Offset(lens, i)
  }

  /** The machine with IP at an address. */
  function GoTo(c: Cpu, a: nat): Cpu
    requires a < 0x1_0000
  {
    SetReg(c, Bytecode.IP, a)
  }

  // Fetching emitted code.

  /** Bytes in memory from `a` on. */
  ghost predicate DataAt(c: Cpu, a: nat, data: seq<Byte>) {
    a + |data| <= PROGMEM_END && forall x :: a <= x < a + |data| ==> x in c.mem && c.mem[x] == data[x - a]
  }

  ghost predicate CodeAt(c: Cpu, a: nat, i: Bytecode.Instr) {
    DataAt(c, a, Bytecode.Encode(i))
  }

  lemma FetchCode(c: Cpu, i: Bytecode.Instr)
    requires CodeAt(c, c.regs[Bytecode.IP], i)
    ensures CanFetch(c) && FetchInstr(c) == i
    ensures FetchLength(c) == |Bytecode.Encode(i)|
    ensures Advance(c) == GoTo(c, c.regs[Bytecode.IP] + |Bytecode.Encode(i)|)
  {
    hide Bytecode.Parse, Bytecode.ParseLength, Bytecode.Encode;
    var e, ip := Bytecode.Encode(i), c.regs[Bytecode.IP];
    Bytecode.ParseEncode(i, 0, 0);
    assert c.mem[ip + 0] == e[0];
    assert |e| > 1 ==> c.mem[ip + 1] == e[1];
    assert |e| > 2 ==> c.mem[ip + 2] == e[2];
  }

  /** Line `i`'s bytes are in memory at its offset. */
  lemma LineInMemory(c: Cpu, prog: Lines, lens: Lens, opts: Options, i: nat)
    requires Fixpoint(prog, lens, opts) && i < |prog| && Loaded(c, prog, lens, opts)
    ensures var data := Bytes(prog, lens, opts, i);
            && |data| == lens[i] && Offset(lens, i + 1) == Offset(lens, i) + lens[i] <= PROGMEM_END
            && DataAt(c, Offset(lens, i), data)
  {
    hide Bytes, Emit, LineOk, Small, Offset;
    ImageAt(prog, lens, opts, i, |prog|);
    SettledLine(prog, lens, opts, i);
    NextOffset(lens, i);
    var image, data, off := Image(prog, lens, opts, |prog|), Bytes(prog, lens, opts, i), Offset(lens, i);
    forall x | off <= x < off + |data|
      ensures x in c.mem && c.mem[x] == data[x - off]
    {
      assert image[off..off + lens[i]][x - off] == image[x];
    }
  }

  lemma NextOffset(lens: Lens, i: nat)
    requires i < |lens|
    ensures Offset(lens, i + 1) == Offset(lens, i) + lens[i]
  {
  }

  /** The code list of a line. */
  function ListOf(prog: Lines, lens: Lens, opts: Options, i: nat): seq<Bytecode.Instr>
    requires |lens| == |prog| && Small(lens) && i < |prog| && Emit(prog, lens, opts, i).Emitted?
  {
    Emit(prog, lens, opts, i).list
  }

  /** A line of one machine instruction, in memory. */
  lemma OneInstrCode(c: Cpu, prog: Lines, lens: Lens, opts: Options, i: nat)
    requires Fixpoint(prog, lens, opts) && i < |prog| && Loaded(c, prog, lens, opts) && RawCount(prog[i]) == 1
    ensures Emit(prog, lens, opts, i).Emitted? && |ListOf(prog, lens, opts, i)| == 1
    ensures var instr := ListOf(prog, lens, opts, i)[0];
            && CodeAt(c, Offset(lens, i), instr) && lens[i] == |Bytecode.Encode(instr)|
            && Offset(lens, i + 1) == Offset(lens, i) + |Bytecode.Encode(instr)| <= PROGMEM_END
  {
    hide Emit, LineOk, Small, Offset, Bytecode.Encode, Loaded, Bytecode.EncodeAll, DataAt;
    SettledLine(prog, lens, opts, i);
    LineInMemory(c, prog, lens, opts, i);
    var list := ListOf(prog, lens, opts, i);
    Bytecode.EncodeAllOne(list[0]);
    assert list == [list[0]];
    BytesInMemory(c, Offset(lens, i), list[0], Bytes(prog, lens, opts, i), 0);
  }

  /** A stretch of bytes in memory that is an instruction's encoding. */
  lemma BytesInMemory(c: Cpu, a: nat, i: Bytecode.Instr, data: seq<Byte>, at: nat)
    requires at + |Bytecode.Encode(i)| <= |data| && DataAt(c, a, data)
    requires data[at..at + |Bytecode.Encode(i)|] == Bytecode.Encode(i)
    ensures CodeAt(c, a + at, i)
  {
  }

  /** A line of two machine instructions, in memory. */
  lemma TwoInstrCode(c: Cpu, prog: Lines, lens: Lens, opts: Options, i: nat)
    requires Fixpoint(prog, lens, opts) && i < |prog| && Loaded(c, prog, lens, opts) && RawCount(prog[i]) == 2
    ensures Emit(prog, lens, opts, i).Emitted? && |ListOf(prog, lens, opts, i)| == 2
    ensures var list := ListOf(prog, lens, opts, i);
            var mid := Offset(lens, i) + |Bytecode.Encode(list[0])|;
            && CodeAt(c, Offset(lens, i), list[0]) && CodeAt(c, mid, list[1])
            && Offset(lens, i + 1) == mid + |Bytecode.Encode(list[1])| <= PROGMEM_END
  {
    hide Emit, LineOk, Small, Offset, Bytecode.Encode, Loaded, Bytecode.EncodeAll, DataAt;
    SettledLine(prog, lens, opts, i);
    LineInMemory(c, prog, lens, opts, i);
    var list := ListOf(prog, lens, opts, i);
    assert list == [list[0], list[1]];
    Bytecode.EncodeAllTwo(list[0], list[1]);
    var data := Bytes(prog, lens, opts, i);
    BytesInMemory(c, Offset(lens, i), list[0], data, 0);
    BytesInMemory(c, Offset(lens, i), list[1], data, |Bytecode.Encode(list[0])|);
  }

  /** One line, one instruction: the machine runs it with IP at the next line. */
  lemma OneInstrRuns(c: Cpu, prog: Lines, lens: Lens, opts: Options, i: nat)
    requires AtLineStart(c, prog, lens, opts, i) && RawCount(prog[i]) == 1
    ensures Emit(prog, lens, opts, i).Emitted? && |ListOf(prog, lens, opts, i)| == 1 && Offset(lens, i + 1) < 0x8000
    ensures lens[i] == |Bytecode.Encode(ListOf(prog, lens, opts, i)[0])|
    ensures Offset(lens, i + 1) == Offset(lens, i) + lens[i]
    ensures !IsSkip(ListOf(prog, lens, opts, i)[0]) ==>
      Step(c) == Exec(GoTo(c, Offset(lens, i + 1)), ListOf(prog, lens, opts, i)[0])
  {
    hide Emit, LineOk, Small, Offset, Bytecode.Encode, Loaded, CodeAt, Settled, Exec, CanFetch, FetchInstr, Advance;
    OneInstrCode(c, prog, lens, opts, i);
    FetchCode(c, ListOf(prog, lens, opts, i)[0]);
  }

  // Jumps.

  lemma IncDecAmount(amount: IncDecAmount)
    ensures Bytecode.IncDecValue((amount - 1) / 8, (amount - 1) % 8) == amount
  {
  }

  /** Each form a settled jump can take sets IP to the target. */
  lemma JmpForms(next: Cpu, addr: Word, off: nat, len: nat)
    requires JmpOk(addr, off, len) && off + len <= PROGMEM_END && next.regs[Bytecode.IP] == off + len
    requires |EmitJmp(addr, off, len)| == 1
    ensures var instr := EmitJmp(addr, off, len)[0];
            !IsSkip(instr) && Exec(next, instr) == Next(GoTo(next, addr))
  {
  }

  /** Running a `jmp` leaves IP at its label, whose line it then starts, and changes nothing else. */
  lemma JmpMeaning(c: Cpu, prog: Lines, lens: Lens, opts: Options, i: nat)
    requires AtLineStart(c, prog, lens, opts, i) && prog[i].Jmp?
    ensures LabelAddr(prog, lens, prog[i].target).Some?
    ensures var d := GoTo(c, LabelAddr(prog, lens, prog[i].target).value);
            Step(c) == Next(d) && AtLineStart(d, prog, lens, opts, Index(prog, LabelKind, prog[i].target).value)
  {
    hide Step, Exec, Loaded, Small, Offset, EmitJmp, JmpOk, Bytecode.Encode;
    OneInstrRuns(c, prog, lens, opts, i);
    assert LineOk(prog, lens, i);
    var addr := LabelAddr(prog, lens, prog[i].target).value;
    var next := GoTo(c, Offset(lens, i + 1));
    JmpForms(next, addr, Offset(lens, i), lens[i]);
    GoToTwice(c, Offset(lens, i + 1), addr);
    SameMemoryLoaded(c, GoTo(c, addr), prog, lens, opts);
  }

  /** Whatever the machine holds, the instruction, run with IP past it, takes it to an address. */
  ghost predicate JumpsTo(i: Bytecode.Instr, ip: Word, addr: Word) {
    !IsSkip(i) && forall c: Cpu :: c.regs[Bytecode.IP] == ip ==> Exec(c, i) == Next(GoTo(c, addr))
  }

  predicate SetsOrMoves(i: Bytecode.Instr) {
    i.Set8? || (i.Alu? && (i.op == Bytecode.INC || i.op == Bytecode.DEC))
  }

  /** A two byte jump is tried exactly where some set, inc or dec of two bytes gets to the target. */
  lemma ReachesExactly(addr: Word, ip: Word)
    requires addr != ip && ip < 0x8000 && addr < 0x8000
    ensures Reaches(addr, ip) <==>
            exists i: Bytecode.Instr :: SetsOrMoves(i) && |Bytecode.Encode(i)| == 2 && JumpsTo(i, ip, addr)
  {
    hide Bytecode.Encode, Exec, Wrap, JumpsTo;
    if Reaches(addr, ip) {
      var i := if addr < 256 then Bytecode.Set8(Bytecode.IP, addr)
               else if addr > ip then IncDec(Bytecode.INC, Bytecode.IP, addr - ip)
               else IncDec(Bytecode.DEC, Bytecode.IP, ip - addr);
      TwoByteJump(addr, ip);
      assert SetsOrMoves(i) && |Bytecode.Encode(i)| == 2 && JumpsTo(i, ip, addr);
    }
    forall i: Bytecode.Instr | SetsOrMoves(i) && JumpsTo(i, ip, addr)
      ensures Reaches(addr, ip)
    {
      JumpIsNear(i, addr, ip);
    }
  }

  lemma TwoByteJump(addr: Word, ip: Word)
    requires Reaches(addr, ip)
    ensures var i := if addr < 256 then Bytecode.Set8(Bytecode.IP, addr)
                     else if addr > ip then IncDec(Bytecode.INC, Bytecode.IP, addr - ip)
                     else IncDec(Bytecode.DEC, Bytecode.IP, ip - addr);
            |Bytecode.Encode(i)| == 2 && JumpsTo(i, ip, addr)
  {
    if addr >= 256 {
      IncDecAmount(if addr > ip then addr - ip else ip - addr);
    }
  }

  lemma JumpIsNear(i: Bytecode.Instr, addr: Word, ip: Word)
    requires SetsOrMoves(i) && JumpsTo(i, ip, addr) && addr != ip && ip < 0x8000 && addr < 0x8000
    ensures Reaches(addr, ip)
  {
    var c := Cpu([1, 1, 1, 1, 1, 1, 1, ip], map[]);
    assert Exec(c, i) == Next(GoTo(c, addr));
    assert Exec(c, i).cpu.regs[Bytecode.IP] == addr;
  }

  lemma GoToTwice(c: Cpu, a: nat, b: nat)
    requires a < 0x1_0000 && b < 0x1_0000
    ensures GoTo(GoTo(c, a), b) == GoTo(c, b)
  {
  }

  // Moves.

  lemma SetMeaning(next: Cpu, dest: Bytecode.Reg, value: Word)
    ensures !IsSkip(Bytecode.SetInstr(dest, value))
    ensures Exec(next, Bytecode.SetInstr(dest, value)) == Next(SetReg(next, dest, value))
  {
  }

  lemma {:induction false} OrSelf(a: nat, n: nat)
    requires a < Pow2(n)
    ensures Bitwise(OrGate, a, a, n) == a
    decreases n
  {
    if n > 0 {
      OrSelf(a / 2, n - 1);
    }
  }

  /** What a mov's source is worth when the machine gets there. */
  function SourceNow(next: Cpu, prog: Lines, lens: Lens, src: Source): Option<Word>
    requires |lens| == |prog| && Small(lens)
  {
    if src.FromRegister? then Some(next.regs[src.reg]) else SourceValue(prog, lens, src)
  }

  /** Running a `mov` puts its source in the register: a number, another register, or a symbol's final value. */
  lemma MovMeaning(c: Cpu, prog: Lines, lens: Lens, opts: Options, i: nat)
    requires AtLineStart(c, prog, lens, opts, i) && prog[i].Mov?
    ensures prog[i].dest.Named? && Offset(lens, i + 1) < 0x8000
    ensures var next := GoTo(c, Offset(lens, i + 1));
            && SourceNow(next, prog, lens, prog[i].src).Some?
            && Step(c) == Next(SetReg(next, prog[i].dest.reg, SourceNow(next, prog, lens, prog[i].src).value))
  {
    hide Step, Exec, Loaded, Small, Offset, Bytecode.Encode, Bytecode.SetInstr, SymbolValue, Gated;
    OneInstrRuns(c, prog, lens, opts, i);
    var next := GoTo(c, Offset(lens, i + 1));
    var dest, src := prog[i].dest.reg, prog[i].src;
    if src.FromRegister? {
      CopyMeaning(next, dest, src.reg);
    } else {
      SetMeaning(next, dest, SourceValue(prog, lens, src).value);
    }
  }

  /** Running a `mov` of a define's symbol leaves the register pointing at the define's data. */
  lemma MovOfDefine(c: Cpu, prog: Lines, lens: Lens, opts: Options, i: nat, k: nat)
    requires AtLineStart(c, prog, lens, opts, i) && prog[i].Mov? && prog[i].src.Symbol?
    requires FirstDeclares(prog, k, DefineKind, prog[i].src.name)
    ensures prog[i].dest.Named? && Step(c).Next?
    ensures prog[k].Define? && DataAt(Step(c).cpu, Step(c).cpu.regs[prog[i].dest.reg], prog[k].data)
  {
    hide Step, Small, Offset, Loaded, Bytes, DataAt, FirstDeclares, LineOk, Settled;
    MovMeaning(c, prog, lens, opts, i);
    DefineIs(prog, lens, opts, k, prog[i].src.name);
    SameMemoryLoaded(c, Step(c).cpu, prog, lens, opts);
    LineInMemory(Step(c).cpu, prog, lens, opts, k);
  }

  lemma DefineIs(prog: Lines, lens: Lens, opts: Options, k: nat, name: string)
    requires |lens| == |prog| && Small(lens) && FirstDeclares(prog, k, DefineKind, name)
    ensures k < |prog| && SymbolValue(prog, lens, name) == Some(LineAddr(lens, k))
    ensures LineAddr(lens, k) == Offset(lens, k)
    ensures prog[k].Define? && Bytes(prog, lens, opts, k) == prog[k].data
  {
    hide Small, Offset;
    ResolvesFirst(prog, name, k);
  }

  /** Running a `mov` of a label that is nothing else leaves the register at the address the label's line starts at. */
  lemma MovOfLabel(c: Cpu, prog: Lines, lens: Lens, opts: Options, i: nat, k: nat)
    requires AtLineStart(c, prog, lens, opts, i) && prog[i].Mov? && prog[i].src.Symbol?
    requires var name := prog[i].src.name;
             && FirstDeclares(prog, k, LabelKind, name)
             && Undeclared(prog, DefineKind, name) && Undeclared(prog, AllocationKind, name)
    ensures prog[i].dest.Named? && Step(c).Next?
    ensures AtLineStart(GoTo(c, Step(c).cpu.regs[prog[i].dest.reg]), prog, lens, opts, k)
  {
    hide Step, Small, Offset, Loaded, FirstDeclares, LineOk, Settled, Undeclared;
    MovMeaning(c, prog, lens, opts, i);
    ResolvesFirst(prog, prog[i].src.name, k);
    assert SymbolValue(prog, lens, prog[i].src.name) == Some(LineAddr(lens, k));
    SameMemoryLoaded(c, GoTo(c, LineAddr(lens, k)), prog, lens, opts);
  }

  /** Running a `mov` of an allocation, a constant or a number loads where it is in RAM, or what it is. */
  lemma MovOfValue(c: Cpu, prog: Lines, lens: Lens, opts: Options, i: nat, k: nat)
    requires AtLineStart(c, prog, lens, opts, i) && prog[i].Mov?
    ensures prog[i].dest.Named? && Step(c).Next?
    ensures var now, src := Step(c).cpu.regs[prog[i].dest.reg], prog[i].src;
            && (src.Number? && src.value < 0x1_0000 ==> now == src.value)
            && (src.Character? ==> now == src.code)
            && (src.Symbol? && IsAllocation(prog, src.name, k) ==> now == RamAddr(prog, k))
            && (src.Symbol? && IsConst(prog, src.name, k) ==> prog[k].Const? && now == prog[k].value)
  {
    hide Step, Small, Offset, Loaded, FirstDeclares, LineOk, Settled, Undeclared;
    MovMeaning(c, prog, lens, opts, i);
    if prog[i].src.Symbol? {
      ResolvesFirst(prog, prog[i].src.name, k);
      ConstHasValue(prog, k, prog[i].src.name);
    }
  }

  /** Running the line filled in for the stack leaves the stack register behind the last allocation. */
  lemma StackIsSet(c: Cpu, prog: Lines, lens: Lens, opts: Options, i: nat)
    requires i < |prog| && prog[i].Mov? && 0x8000 + RamBefore(prog, |prog|) < 0x1_0000
    requires AtLineStart(c, prog[i := StackLine(StackAddr(prog))], lens, opts, i)
    ensures Step(c).Next? && Step(c).cpu.regs[6] == 0x8000 + RamBefore(prog, |prog|)
  {
    hide Step, AtLineStart, RamBefore;
    MovOfValue(c, prog[i := StackLine(StackAddr(prog))], lens, opts, i, 0);
  }

  predicate IsAllocation(prog: Lines, name: string, k: nat) {
    FirstDeclares(prog, k, AllocationKind, name) && Undeclared(prog, DefineKind, name)
  }

  predicate IsConst(prog: Lines, name: string, k: nat) {
    && FirstDeclares(prog, k, ConstKind, name) && Undeclared(prog, DefineKind, name)
    && Undeclared(prog, AllocationKind, name) && Undeclared(prog, LabelKind, name)
  }

  lemma CopyMeaning(next: Cpu, dest: Bytecode.Reg, src: Bytecode.Reg)
    ensures var copy := Bytecode.Alu(Bytecode.OR, dest, src, src);
            !IsSkip(copy) && Exec(next, copy) == Next(SetReg(next, dest, next.regs[src]))
  {
    PowersUpTo16();
    OrSelf(next.regs[src], 16);
  }

  // Skips.

  /** `n` instructions of a line are passed over. */
  lemma SkipLine(c: Cpu, prog: Lines, lens: Lens, opts: Options, i: nat)
    requires AtLineStart(c, prog, lens, opts, i) && RawCount(prog[i]) > 0
    ensures Offset(lens, i + 1) < 0x8000
    ensures SkipOver(c, RawCount(prog[i])) == Next(GoTo(c, Offset(lens, i + 1)))
  {
    hide Emit, LineOk, Small, Offset, Bytecode.Encode, Loaded, CodeAt, Settled, CanFetch, FetchInstr, Advance;
    if RawCount(prog[i]) == 1 {
      OneInstrCode(c, prog, lens, opts, i);
      FetchCode(c, ListOf(prog, lens, opts, i)[0]);
      assert SkipOver(c, 1) == SkipOver(Advance(c), 0);
    } else {
      TwoInstrCode(c, prog, lens, opts, i);
      var list := ListOf(prog, lens, opts, i);
      var mid := Offset(lens, i) + |Bytecode.Encode(list[0])|;
      FetchCode(c, list[0]);
      var d := Advance(c);
      SameMemoryCode(c, d, mid, list[1]);
      FetchCode(d, list[1]);
      GoToTwice(c, mid, Offset(lens, i + 1));
      assert SkipOver(c, 2) == SkipOver(d, 1) == SkipOver(Advance(d), 0);
    }
  }

  lemma SameMemoryCode(c: Cpu, d: Cpu, a: nat, i: Bytecode.Instr)
    requires CodeAt(c, a, i) && d.mem == c.mem
    ensures CodeAt(d, a, i)
  {
  }

  lemma SameMemoryLoaded(c: Cpu, d: Cpu, prog: Lines, lens: Lens, opts: Options)
    requires |lens| == |prog| && Small(lens) && Loaded(c, prog, lens, opts) && d.mem == c.mem
    ensures Loaded(d, prog, lens, opts)
  {
  }

  /**
   * A skip goes on after the next line when its bit is set, however many machine instructions and bytes that
   * line came to, and at the next line when it is not.
   */
  lemma SkipMeaning(c: Cpu, prog: Lines, lens: Lens, opts: Options, i: nat)
    requires AtLineStart(c, prog, lens, opts, i) && prog[i].Alu? && prog[i].op == Bytecode.SKIP
    ensures i + 1 < |prog| && prog[i].dest.Named? && Offset(lens, i + 2) < 0x8000
    ensures var next := GoTo(c, Offset(lens, i + 1));
            Step(c) == Next(if Bit(next.regs[prog[i].dest.reg], prog[i].skipBit)
                            then GoTo(c, Offset(lens, i + 2)) else next)
  {
    hide Loaded, Small, Offset, Bytecode.Encode, CanFetch, FetchInstr, Bit, CodeAt, LineOk, Settled, Advance;
    OneInstrCode(c, prog, lens, opts, i);
    var skip := ListOf(prog, lens, opts, i)[0];
    SkipCode(prog, lens, opts, i);
    FetchCode(c, skip);
    var next := GoTo(c, Offset(lens, i + 1));
    SameMemoryLoaded(c, next, prog, lens, opts);
    SkipLine(next, prog, lens, opts, i + 1);
    GoToTwice(c, Offset(lens, i + 1), Offset(lens, i + 2));
  }

  lemma SkipCode(prog: Lines, lens: Lens, opts: Options, i: nat)
    requires |lens| == |prog| && Small(lens) && i < |prog| && prog[i].Alu? && prog[i].op == Bytecode.SKIP
    requires Emit(prog, lens, opts, i).Emitted?
    ensures i + 1 < |prog| && RawCount(prog[i + 1]) > 0 && prog[i].dest.Named?
    ensures ListOf(prog, lens, opts, i) ==
            [Bytecode.Alu(Bytecode.SKIP, prog[i].dest.reg, prog[i].skipBit, RawCount(prog[i + 1]) - 1)]
  {
  }

  // Lines of two machine instructions.

  /** The first instruction runs, and then the second, if the first stayed in line. */
  lemma TwoInstrsRun(c: Cpu, prog: Lines, lens: Lens, opts: Options, i: nat, d: Cpu)
    requires AtLineStart(c, prog, lens, opts, i) && RawCount(prog[i]) == 2
    requires Emit(prog, lens, opts, i).Emitted? && |ListOf(prog, lens, opts, i)| == 2
    requires var list := ListOf(prog, lens, opts, i);
             var mid := Offset(lens, i) + |Bytecode.Encode(list[0])|;
             && mid < 0x1_0000 && !IsSkip(list[0]) && !IsSkip(list[1])
             && Exec(GoTo(c, mid), list[0]) == Next(d) && d.regs[Bytecode.IP] == mid
             && forall a :: a in c.mem && a < RAM_ADDR ==> a in d.mem && d.mem[a] == c.mem[a]
    ensures Offset(lens, i + 1) < 0x8000
    ensures Steps(c, 2) == Exec(GoTo(d, Offset(lens, i + 1)), ListOf(prog, lens, opts, i)[1])
  {
    hide Emit, LineOk, Small, Offset, Bytecode.Encode, Loaded, CodeAt, Settled, Exec, CanFetch, FetchInstr, Advance;
    hide IsSkip, GoTo, ListOf, WellFormed, RawCount;
    TwoInstrCode(c, prog, lens, opts, i);
    var list := ListOf(prog, lens, opts, i);
    var mid := Offset(lens, i) + |Bytecode.Encode(list[0])|;
    FetchCode(c, list[0]);
    KeptCode(c, d, mid, list[1]);
    FetchCode(d, list[1]);
    assert Step(c) == Next(d);
    StepsTwo(c, d);
  }

  lemma StepsTwo(c: Cpu, d: Cpu)
    requires Step(c) == Next(d)
    ensures Steps(c, 2) == Step(d)
  {
  }

  lemma KeptCode(c: Cpu, d: Cpu, a: nat, i: Bytecode.Instr)
    requires CodeAt(c, a, i) && forall x :: x in c.mem && x < RAM_ADDR ==> x in d.mem && d.mem[x] == c.mem[x]
    ensures CodeAt(d, a, i)
  {
  }

  /** Stores into RAM leave the program in memory. */
  lemma StoresKeepProgram(c: Cpu, d: Cpu, prog: Lines, lens: Lens, opts: Options)
    requires |lens| == |prog| && Small(lens) && Loaded(c, prog, lens, opts)
    requires forall x :: x in c.mem && x < RAM_ADDR ==> x in d.mem && d.mem[x] == c.mem[x]
    ensures Loaded(d, prog, lens, opts)
  {
  }

  // Calls.

  /** The machine after a call to `addr` from a line after which the code goes on at `back`. */
  function Called(c: Cpu, addr: Word, back: Word): Cpu
    requires CanStore(c.mem, c.regs[Bytecode.SP], 2)
  {
    var sp := c.regs[Bytecode.SP];
    Cpu(c.regs[Bytecode.SCRATCH := addr][Bytecode.SP := sp + 2][Bytecode.IP := addr], StoreWord(c, sp, back).mem)
  }

  lemma CallForm(c: Cpu, addr: Word, mid: Word, back: Word)
    requires CanStore(c.mem, c.regs[Bytecode.SP], 2)
    ensures var d := SetReg(GoTo(c, mid), Bytecode.SCRATCH, addr);
            Exec(GoTo(d, back), EmitCall(addr)[1]) == Next(Called(c, addr, back))
  {
  }

  /** Running a `call` pushes the next line's address and goes to the label, whose line it then starts. */
  lemma CallMeaning(c: Cpu, prog: Lines, lens: Lens, opts: Options, i: nat)
    requires AtLineStart(c, prog, lens, opts, i) && prog[i].Call? && CanStore(c.mem, c.regs[Bytecode.SP], 2)
    ensures LabelAddr(prog, lens, prog[i].target).Some? && Offset(lens, i + 1) < 0x8000
    ensures var d := Called(c, LabelAddr(prog, lens, prog[i].target).value, Offset(lens, i + 1));
            Steps(c, 2) == Next(d) && AtLineStart(d, prog, lens, opts, Index(prog, LabelKind, prog[i].target).value)
  {
    hide LineOk, Small, Offset, Bytecode.Encode, Loaded, CodeAt, Settled, Exec, Bytecode.SetInstr, Steps, CanStore;
    TwoInstrCode(c, prog, lens, opts, i);
    var addr := LabelAddr(prog, lens, prog[i].target).value;
    var list := ListOf(prog, lens, opts, i);
    assert list == EmitCall(addr);
    var mid := Offset(lens, i) + |Bytecode.Encode(list[0])|;
    SetMeaning(GoTo(c, mid), Bytecode.SCRATCH, addr);
    var d := SetReg(GoTo(c, mid), Bytecode.SCRATCH, addr);
    TwoInstrsRun(c, prog, lens, opts, i, d);
    CallForm(c, addr, mid, Offset(lens, i + 1));
    CalledKeeps(c, addr, Offset(lens, i + 1));
    StoresKeepProgram(c, Called(c, addr, Offset(lens, i + 1)), prog, lens, opts);
  }

  lemma CalledKeeps(c: Cpu, addr: Word, back: Word)
    requires CanStore(c.mem, c.regs[Bytecode.SP], 2)
    ensures var d := Called(c, addr, back);
            forall x :: x in c.mem && x < RAM_ADDR ==> x in d.mem && d.mem[x] == c.mem[x]
  {
  }

  /** Running a `ret` goes to the address the stack holds. */
  lemma RetMeaning(c: Cpu, prog: Lines, lens: Lens, opts: Options, i: nat)
    requires AtLineStart(c, prog, lens, opts, i) && prog[i].Ret?
    ensures var sp := Wrap((c.regs[Bytecode.SP] as int) - 2);
            CanLoadWord(c, sp) ==> Step(c) == Next(GoTo(SetReg(c, Bytecode.SP, sp), LoadWord(c, sp)))
  {
    hide Step, Loaded, Small, Offset, Bytecode.Encode, CanLoadWord, LoadWord;
    OneInstrRuns(c, prog, lens, opts, i);
    var next := GoTo(c, Offset(lens, i + 1));
    var sp := Wrap((c.regs[Bytecode.SP] as int) - 2);
    if CanLoadWord(c, sp) {
      LoadSees(c, next, sp);
      assert SetReg(SetReg(next, Bytecode.SP, sp), Bytecode.IP, LoadWord(c, sp)).regs
          == GoTo(SetReg(c, Bytecode.SP, sp), LoadWord(c, sp)).regs;
    }
  }

  lemma LoadSees(c: Cpu, d: Cpu, a: Word)
    requires CanLoadWord(c, a) && d.mem == c.mem
    ensures CanLoadWord(d, a) && LoadWord(d, a) == LoadWord(c, a)
  {
  }

  /**
   * A `ret` reached with the stack as the `call` left it goes back to the line after the call, with the stack as
   * it was before the call.
   */
  lemma ReturnsAfterCall(c: Cpu, d: Cpu, e: Cpu, prog: Lines, lens: Lens, opts: Options, i: nat, j: nat)
    requires AtLineStart(c, prog, lens, opts, i) && prog[i].Call? && CanStore(c.mem, c.regs[Bytecode.SP], 2)
    requires AtLineStart(e, prog, lens, opts, j) && prog[j].Ret?
    requires Steps(c, 2) == Next(d) && e.regs[Bytecode.SP] == d.regs[Bytecode.SP]
    requires SameWord(d, e, c.regs[Bytecode.SP])
    ensures Offset(lens, i + 1) < 0x8000
    ensures Step(e) == Next(GoTo(SetReg(e, Bytecode.SP, c.regs[Bytecode.SP]), Offset(lens, i + 1)))
  {
    hide Step, Steps, Offset, GoTo, Small, LineOk, Settled, Loaded, Called, SameWord, CanStore, Wrap, CanLoadWord, Emit;
    hide LoadWord, LabelAddr;
    CallMeaning(c, prog, lens, opts, i);
    ReturnAddress(c, d, e, LabelAddr(prog, lens, prog[i].target).value, Offset(lens, i + 1));
    RetMeaning(e, prog, lens, opts, j);
  }

  /** The word the stack held after the call is there still. */
  predicate SameWord(d: Cpu, e: Cpu, a: Word) {
    a + 1 < ENV_ADDR && RAM_ADDR <= a && a in d.mem && a + 1 in d.mem && a in e.mem && a + 1 in e.mem
    && d.mem[a] == e.mem[a] && d.mem[a + 1] == e.mem[a + 1]
  }

  lemma ReturnAddress(c: Cpu, d: Cpu, e: Cpu, addr: Word, back: Word)
    requires CanStore(c.mem, c.regs[Bytecode.SP], 2) && d == Called(c, addr, back)
    requires e.regs[Bytecode.SP] == d.regs[Bytecode.SP] && SameWord(d, e, c.regs[Bytecode.SP])
    ensures var sp := c.regs[Bytecode.SP];
            Wrap((e.regs[Bytecode.SP] as int) - 2) == sp && CanLoadWord(e, sp) && LoadWord(e, sp) == back
  {
  }

  // Bytes on the stack.

  lemma Push8Form(c: Cpu, src: Bytecode.Reg, mid: Word, back: Word)
    requires CanStore(c.mem, c.regs[Bytecode.SP], 1)
    ensures var sp, pushed := c.regs[Bytecode.SP], Lo(GoTo(c, mid).regs[src]);
            var d := StoreByte(GoTo(c, mid), sp, pushed);
            && Exec(GoTo(c, mid), Bytecode.Store8(Bytecode.SP, src)) == Next(d)
            && Exec(GoTo(d, back), IncDec(Bytecode.INC, Bytecode.SP, 1))
               == Next(SetReg(GoTo(StoreByte(c, sp, pushed), back), Bytecode.SP, sp + 1))
  {
  }

  /** Running a `push8` puts the register's low byte on the stack; IP is then already past the store. */
  lemma Push8Meaning(c: Cpu, prog: Lines, lens: Lens, opts: Options, i: nat)
    requires AtLineStart(c, prog, lens, opts, i) && prog[i].Push8? && CanStore(c.mem, c.regs[Bytecode.SP], 1)
    ensures prog[i].src8.Named? && Offset(lens, i + 1) < 0x8000 && Offset(lens, i) + 1 < 0x8000
    ensures var sp, pushed := c.regs[Bytecode.SP], Lo(GoTo(c, Offset(lens, i) + 1).regs[prog[i].src8.reg]);
            Steps(c, 2) == Next(SetReg(GoTo(StoreByte(c, sp, pushed), Offset(lens, i + 1)), Bytecode.SP, sp + 1))
  {
    hide LineOk, Small, Offset, Loaded, CodeAt, Settled, Steps, Lo, Bytecode.Encode, Exec, GoTo;
    TwoInstrCode(c, prog, lens, opts, i);
    var mid := Offset(lens, i) + 1;
    Push8Code(prog, lens, opts, i);
    Push8Form(c, prog[i].src8.reg, mid, Offset(lens, i + 1));
    var pushed := Lo(GoTo(c, mid).regs[prog[i].src8.reg]);
    StoredByteKeeps(c, mid, pushed);
    TwoInstrsRun(c, prog, lens, opts, i, StoreByte(GoTo(c, mid), c.regs[Bytecode.SP], pushed));
  }

  lemma Push8Code(prog: Lines, lens: Lens, opts: Options, i: nat)
    requires |lens| == |prog| && Small(lens) && i < |prog| && prog[i].Push8? && Emit(prog, lens, opts, i).Emitted?
    ensures prog[i].src8.Named?
    ensures ListOf(prog, lens, opts, i) ==
            [Bytecode.Store8(Bytecode.SP, prog[i].src8.reg), IncDec(Bytecode.INC, Bytecode.SP, 1)]
    ensures |Bytecode.Encode(ListOf(prog, lens, opts, i)[0])| == 1
  {
  }

  lemma StoredByteKeeps(c: Cpu, mid: Word, pushed: Byte)
    requires CanStore(c.mem, c.regs[Bytecode.SP], 1)
    ensures var d := StoreByte(GoTo(c, mid), c.regs[Bytecode.SP], pushed);
            && d.regs[Bytecode.IP] == mid
            && forall x :: x in c.mem && x < RAM_ADDR ==> x in d.mem && d.mem[x] == c.mem[x]
  {
  }

  lemma Pop8Form(c: Cpu, dest: Bytecode.Reg, mid: Word, back: Word)
    requires CanLoad(c, Wrap((c.regs[Bytecode.SP] as int) - 1))
    ensures var sp := Wrap((c.regs[Bytecode.SP] as int) - 1);
            var d := SetReg(GoTo(c, mid), Bytecode.SP, sp);
            && Exec(GoTo(c, mid), IncDec(Bytecode.DEC, Bytecode.SP, 1)) == Next(d)
            && Exec(GoTo(d, back), Bytecode.Load8(dest, Bytecode.SP))
               == Next(SetReg(GoTo(SetReg(c, Bytecode.SP, sp), back), dest, c.mem[sp]))
  {
    var sp := Wrap((c.regs[Bytecode.SP] as int) - 1);
    var d := SetReg(GoTo(c, mid), Bytecode.SP, sp);
    assert Exec(GoTo(c, mid), IncDec(Bytecode.DEC, Bytecode.SP, 1))
        == ExecAlu(GoTo(c, mid), Bytecode.DEC, Bytecode.SP, 0, 0);
    assert GoTo(d, back).regs == GoTo(SetReg(c, Bytecode.SP, sp), back).regs;
  }

  /** Running a `pop8` loads the byte below the stack pointer and moves the stack back. */
  lemma Pop8Meaning(c: Cpu, prog: Lines, lens: Lens, opts: Options, i: nat)
    requires AtLineStart(c, prog, lens, opts, i) && prog[i].Pop8?
    ensures prog[i].dest.Named? && Offset(lens, i + 1) < 0x8000
    ensures var sp := Wrap((c.regs[Bytecode.SP] as int) - 1);
            var moved := GoTo(SetReg(c, Bytecode.SP, sp), Offset(lens, i + 1));
            CanLoad(c, sp) ==> Steps(c, 2) == Next(SetReg(moved, prog[i].dest.reg, c.mem[sp]))
  {
    hide LineOk, Small, Offset, Loaded, CodeAt, Settled, Steps, Bytecode.Encode, Exec, GoTo, Wrap, CanLoad;
    TwoInstrCode(c, prog, lens, opts, i);
    var list := ListOf(prog, lens, opts, i);
    var mid := Offset(lens, i) + |Bytecode.Encode(list[0])|;
    var sp := Wrap((c.regs[Bytecode.SP] as int) - 1);
    if CanLoad(c, sp) {
      Pop8Form(c, prog[i].dest.reg, mid, Offset(lens, i + 1));
      MovedStack(c, mid, sp);
      TwoInstrsRun(c, prog, lens, opts, i, SetReg(GoTo(c, mid), Bytecode.SP, sp));
    }
  }

  lemma MovedStack(c: Cpu, mid: Word, sp: Word)
    ensures var d := SetReg(GoTo(c, mid), Bytecode.SP, sp); d.mem == c.mem && d.regs[Bytecode.IP] == mid
  {
  }

  // Other lines of one machine instruction.

  /** What an ALU line but a skip is for, in terms of its own operands. */
  function AluEffect(next: Cpu, line: Line): Outcome
    requires line.Alu? && line.op != Bytecode.SKIP && line.dest.Named?
  {
    var d, a, b := line.dest.reg, RegOrZero(line.opA), RegOrZero(line.opB);
    if line.op == Bytecode.INC then Next(SetReg(next, d, Wrap(next.regs[d] + line.incDecValue)))
    else if line.op == Bytecode.DEC then Next(SetReg(next, d, Wrap((next.regs[d] as int) - line.incDecValue)))
    else if line.op == Bytecode.DIV && next.regs[b] == 0 then Halt
    else if Arithmetic(line.op) then Next(SetReg(next, d, AluResult(line.op, next.regs[a], next.regs[b])))
    else if line.op != Bytecode.EXTRA then Stuck
    else if line.extraType == Bytecode.PUSH16 then Pushed(next, next.regs[d])
    else if line.extraType == Bytecode.POP16 then Popped(next, d)
    else ExecExtra(next, d, a, line.extraType)
  }

  /** A word on top of the stack. */
  function Pushed(c: Cpu, value: Word): Outcome {
    var sp := c.regs[Bytecode.SP];
    if CanStore(c.mem, sp, 2) then Next(SetReg(StoreWord(c, sp, value), Bytecode.SP, sp + 2)) else Stuck
  }

  /** The word on top of the stack taken into a register other than the stack's. */
  function Popped(c: Cpu, d: Bytecode.Reg): Outcome {
    var sp := Wrap((c.regs[Bytecode.SP] as int) - 2);
    if d != Bytecode.SP && CanLoadWord(c, sp) then Next(SetReg(SetReg(c, Bytecode.SP, sp), d, LoadWord(c, sp)))
    else Stuck
  }

  /** Running an assembled ALU line has the line's effect on the operands it names. */
  lemma AluMeaning(c: Cpu, prog: Lines, lens: Lens, opts: Options, i: nat)
    requires AtLineStart(c, prog, lens, opts, i) && prog[i].Alu? && prog[i].op != Bytecode.SKIP
    ensures prog[i].dest.Named? && Offset(lens, i + 1) < 0x8000
    ensures Step(c) == AluEffect(GoTo(c, Offset(lens, i + 1)), prog[i])
  {
    hide Step, Loaded, Small, Offset, Bytecode.Encode, AluEffect, Exec, Settled, LineOk;
    OneInstrRuns(c, prog, lens, opts, i);
    AluForm(GoTo(c, Offset(lens, i + 1)), prog[i], opts, NextRaw(prog, i));
  }

  lemma AluForm(next: Cpu, line: Line, opts: Options, nextRaw: nat)
    requires line.Alu? && line.op != Bytecode.SKIP && nextRaw <= 2 && AluCode(line, opts, nextRaw).Emitted?
    ensures line.dest.Named? && |AluCode(line, opts, nextRaw).list| == 1
    ensures var instr := AluCode(line, opts, nextRaw).list[0];
            !IsSkip(instr) && Exec(next, instr) == AluEffect(next, line)
  {
    hide AluResult, StoreWord, LoadWord, CanLoadWord, Bytecode.IncDecValue, Wrap;
    IncDecAmount(line.incDecValue);
    ExecOfAlu(next, AluCode(line, opts, nextRaw).list[0]);
  }

  /** What a load, store, exchange or leading-zero count is for, in terms of the registers it names. */
  function RegisterEffect(next: Cpu, line: Line): Outcome {
    match line
    case Store8(Named(d), Named(s)) =>
      if next.regs[d] < RAM_ADDR then Halt
      else if CanStore(next.mem, next.regs[d], 1) then Next(StoreByte(next, next.regs[d], Lo(next.regs[s])))
      else Stuck
    case Load8(Named(d), Named(s)) =>
      if CanLoad(next, next.regs[s]) then Next(SetReg(next, d, next.mem[next.regs[s]])) else Stuck
    case Xchg8(Named(a), Named(r)) =>
      if CanStore(next.mem, next.regs[a], 1) && CanLoad(next, next.regs[a])
      then Next(SetReg(StoreByte(next, next.regs[a], Lo(next.regs[r])), r, next.mem[next.regs[a]]))
      else Stuck
    case Clz(Named(d), Named(s)) => Next(SetReg(next, d, Clz16(next.regs[s])))
    case _ => Stuck
  }

  predicate IsRegisterLine(line: Line) {
    line.Store8? || line.Load8? || line.Xchg8? || line.Clz?
  }

  /** Running an assembled load, store, exchange or leading-zero count works on the registers it names. */
  lemma RegisterLineMeaning(c: Cpu, prog: Lines, lens: Lens, opts: Options, i: nat)
    requires AtLineStart(c, prog, lens, opts, i) && IsRegisterLine(prog[i])
    ensures Offset(lens, i + 1) < 0x8000
    ensures Step(c) == RegisterEffect(GoTo(c, Offset(lens, i + 1)), prog[i])
  {
    hide Step, Loaded, Small, Offset, Bytecode.Encode, Settled, LineOk, Exec, Emit;
    OneInstrRuns(c, prog, lens, opts, i);
    RegisterForm(GoTo(c, Offset(lens, i + 1)), prog, lens, opts, i);
  }

  lemma RegisterForm(next: Cpu, prog: Lines, lens: Lens, opts: Options, i: nat)
    requires |lens| == |prog| && Small(lens) && i < |prog| && IsRegisterLine(prog[i])
    requires Emit(prog, lens, opts, i).Emitted?
    ensures var list := ListOf(prog, lens, opts, i);
            |list| == 1 && !IsSkip(list[0]) && Exec(next, list[0]) == RegisterEffect(next, prog[i])
  {
    hide Small, Offset, Lo, Clz16, CanStore, CanLoad;
  }
}
