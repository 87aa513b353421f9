/** The assembler's program: its lines, the addresses of symbols, and the code each line stands for. */
module AssemblerModel {
  import opened Words
  import Bytecode

  /** A register name in the source text, or anything else. */
  datatype RegText = Named(reg: Bytecode.Reg) | NotRegister

  /** What a mov copies from, as its first characters classify it. */
  datatype Source =
    | Number(value: nat)
    | FromRegister(reg: Bytecode.Reg)
    | Character(code: Byte)
    | BadCharacter
    | Symbol(name: string)

  type IncDecAmount = n: int | 1 <= n <= 64 witness 1

  datatype Line =
    | Allocation(symbol: string, membSize: Word, lenText: string, lenNumber: nat)
    | Define(symbol: string, data: seq<Byte>)
    | Mov(dest: RegText, src: Source)
    | Label(symbol: string)
    | Syscall
    | ClearInstructionCache
    | Debug
    | Alu(op: Bytecode.Nibble, dest: RegText, opA: RegText, opB: RegText,
          skipBit: Bytecode.Reg, incDecValue: IncDecAmount, extraType: Bytecode.Reg)
    | Jmp(target: string)
    | Push8(src8: RegText)
    | Pop8(dest: RegText)
    | Call(target: string)
    | Ret
    | Store8(dest: RegText, src8: RegText)
    | Load8(dest: RegText, src8: RegText)
    | Xchg8(addrReg: RegText, srcDestReg: RegText)
    | Clz(dest: RegText, src8: RegText)
    | Const(symbol: string, value: Word)
    | Nop

  type Lines = seq<Line>

  /** A line with the code and addresses worked out for it so far. */
  datatype Instruction = Instruction(
    line: Line,
    machineCode: seq<Byte>,
    machineCodeLen: nat,
    machineCodeOffset: Word,
    machineCodeInstructions: nat,
    ramOffset: Word)

  /** The most code or data one line has room for. */
  const MACHINE_CODE_MAX := 1024

  datatype Options = Options(noStack: bool, noScratch: bool)

  datatype Option<T> = None | Some(value: T)

  // Looking symbols up: the first line that declares one counts.

  datatype Kind = AllocationKind | DefineKind | LabelKind | ConstKind

  predicate Declares(line: Line, kind: Kind, name: string) {
    match line
    case Allocation(s, _, _, _) => kind == AllocationKind && s == name
    case Define(s, _) => kind == DefineKind && s == name
    case Label(s) => kind == LabelKind && s == name
    case Const(s, _) => kind == ConstKind && s == name
    case _ => false
  }

  function IndexFrom(prog: Lines, kind: Kind, name: string, from: nat): (r: Option<nat>)
    requires from <= |prog|
    ensures r.Some? ==> from <= r.value < |prog| && Declares(prog[r.value], kind, name)
    ensures r.Some? ==> forall k :: from <= k < r.value ==> !Declares(prog[k], kind, name)
    ensures r.None? ==> forall k :: from <= k < |prog| ==> !Declares(prog[k], kind, name)
    decreases |prog| - from
  {
    if from == |prog| then None
    else if Declares(prog[from], kind, name) then Some(from)
    else IndexFrom(prog, kind, name, from + 1)
  }

  function Index(prog: Lines, kind: Kind, name: string): (r: Option<nat>)
    ensures r.Some? ==> r.value < |prog| && Declares(prog[r.value], kind, name)
  {
    IndexFrom(prog, kind, name, 0)
  }

  /** The first line that declares a symbol as something. */
  predicate FirstDeclares(prog: Lines, k: nat, kind: Kind, name: string) {
    k < |prog| && Declares(prog[k], kind, name) && forall j :: 0 <= j < k ==> !Declares(prog[j], kind, name)
  }

  predicate Undeclared(prog: Lines, kind: Kind, name: string) {
    forall j :: 0 <= j < |prog| ==> !Declares(prog[j], kind, name)
  }

  lemma FirstIsIndex(prog: Lines, k: nat, kind: Kind, name: string)
    requires FirstDeclares(prog, k, kind, name)
    ensures Index(prog, kind, name) == Some(k)
  {
    hide Declares;
    var i := IndexFrom(prog, kind, name, 0);
    assert i.Some? && i.value == k;
  }

  lemma NoIndex(prog: Lines, kind: Kind, name: string)
    requires Undeclared(prog, kind, name)
    ensures Index(prog, kind, name) == None
  {
    hide Declares;
    var i := IndexFrom(prog, kind, name, 0);
    assert i.None?;
  }

  function ConstValue(prog: Lines, name: string): Option<Word> {
    match Index(prog, ConstKind, name)
    case None => None
    case Some(k) => Some(prog[k].value)
  }

  // Sums of line lengths.

  type Lens = seq<nat>

  /** The bytes of lines `a` up to `b`. */
  function Sum(lens: Lens, a: nat, b: nat): nat
    requires a <= b <= |lens|
    decreases b
  {
    if a == b then 0 else Sum(lens, a, b - 1) + lens[b - 1]
  }

  /** Where a line's code starts. */
  function Offset(lens: Lens, i: nat): nat
    requires i <= |lens|
  {
    Sum(lens, 0, i)
  }

  lemma {:induction false} SumSplit(lens: Lens, a: nat, b: nat, c: nat)
    requires a <= b <= c <= |lens|
    ensures Sum(lens, a, c) == Sum(lens, a, b) + Sum(lens, b, c)
    decreases c
  {
    if b < c {
      SumSplit(lens, a, b, c - 1);
    }
  }

  lemma {:induction false} SumUpdate(lens: Lens, a: nat, b: nat, i: nat, v: nat)
    requires a <= b <= |lens| && i < |lens|
    ensures Sum(lens[i := v], a, b) == Sum(lens, a, b) + if a <= i < b then v - lens[i] else 0
    decreases b
  {
    if a < b {
      SumUpdate(lens, a, b - 1, i, v);
    }
  }

  /** Later lines start no earlier than this one ends. */
  lemma OffsetOrder(lens: Lens, i: nat, j: nat)
    requires i <= j <= |lens|
    ensures Offset(lens, i) <= Offset(lens, j)
    ensures i < j ==> Offset(lens, i) + lens[i] <= Offset(lens, j)
  {
    SumSplit(lens, 0, i, j);
    if i < j {
      SumSplit(lens, i, i + 1, j);
      assert Sum(lens, i, i + 1) == Sum(lens, i, i) + lens[i];
    }
  }

  /** Offsets never grow when lengths do not. */
  lemma {:induction false} OffsetMonotone(lens: Lens, less: Lens, i: nat)
    requires |less| == |lens| && i <= |lens|
    requires forall k :: 0 <= k < |lens| ==> less[k] <= lens[k]
    ensures Offset(less, i) <= Offset(lens, i)
    decreases i
  {
    if i > 0 {
      OffsetMonotone(lens, less, i - 1);
    }
  }

  // RAM addresses.

  /** The bytes an allocation reserves: element count and size are 16-bit, and so is their product. */
  function AllocationSize(prog: Lines, line: Line): Word
    requires line.Allocation?
  {
    var count := match ConstValue(prog, line.lenText) case Some(v) => v case None => line.lenNumber % 0x1_0000;
    count * line.membSize % 0x1_0000
  }

  /** RAM reserved by the lines before `i`. */
  function RamBefore(prog: Lines, i: nat): nat
    requires i <= |prog|
    decreases i
  {
    if i == 0 then 0
    else RamBefore(prog, i - 1) + if prog[i - 1].Allocation? then AllocationSize(prog, prog[i - 1]) else 0
  }

  function RamAddr(prog: Lines, i: nat): Word
    requires i <= |prog|
  {
    (0x8000 + RamBefore(prog, i)) % 0x1_0000
  }

  /** Where the stack starts: after all allocations, cut to 16 bits. */
  function StackAddr(prog: Lines): Word {
    RamAddr(prog, |prog|)
  }

  lemma {:induction false} RamGrows(prog: Lines, i: nat, j: nat)
    requires i <= j <= |prog|
    ensures RamBefore(prog, i) <= RamBefore(prog, j)
    decreases j
  {
    if i < j {
      RamGrows(prog, i, j - 1);
    }
  }

  /** How many elements an allocation asks for: a constant's value, or else the number written there. */
  predicate CountOf(prog: Lines, line: Line, count: nat)
    requires line.Allocation?
  {
    || (exists k :: 0 <= k < |prog| && FirstDeclares(prog, k, ConstKind, line.lenText) && prog[k].value == count)
    || (Undeclared(prog, ConstKind, line.lenText) && line.lenNumber == count)
  }

  /** The bytes an allocation reserves: its elements, each of its size. */
  ghost predicate Reserves(prog: Lines, i: nat, n: nat) {
    i < |prog| && prog[i].Allocation? && n < 0x1_0000
    && exists count: Word :: CountOf(prog, prog[i], count) && n == count * prog[i].membSize
  }

  lemma ReservesSize(prog: Lines, i: nat, n: nat)
    requires Reserves(prog, i, n)
    ensures i < |prog| && prog[i].Allocation? && AllocationSize(prog, prog[i]) == n
  {
    var count: Word :| CountOf(prog, prog[i], count) && n == count * prog[i].membSize;
    var name := prog[i].lenText;
    if k: nat :| FirstDeclares(prog, k, ConstKind, name) && prog[k].value == count {
      FirstIsIndex(prog, k, ConstKind, name);
    } else {
      NoIndex(prog, ConstKind, name);
    }
  }

  /**
   * While all allocations fit, each has its own bytes, as many as its elements take: they follow one another from
   * 0x8000 on, and the stack starts behind the last.
   */
  lemma AllocationsApart(prog: Lines, i: nat, j: nat, n: nat)
    requires i < j <= |prog| && Reserves(prog, i, n) && 0x8000 + RamBefore(prog, |prog|) < 0x1_0000
    ensures 0x8000 <= RamAddr(prog, i) && RamAddr(prog, i) + n <= RamAddr(prog, j) <= StackAddr(prog)
    ensures NoAllocation(prog, 0, i) ==> RamAddr(prog, i) == 0x8000
    ensures NoAllocation(prog, i + 1, j) ==> RamAddr(prog, j) == RamAddr(prog, i) + n
  {
    hide Reserves, AllocationSize, NoAllocation;
    ReservesSize(prog, i, n);
    RamGrows(prog, 0, i);
    assert RamBefore(prog, i + 1) == RamBefore(prog, i) + n;
    RamGrows(prog, i + 1, j);
    RamGrows(prog, j, |prog|);
    NoneBetween(prog, 0, i);
    NoneBetween(prog, i + 1, j);
  }

  predicate NoAllocation(prog: Lines, i: nat, j: nat)
    requires j <= |prog|
  {
    forall k :: i <= k < j ==> !prog[k].Allocation?
  }

  lemma {:induction false} NoneBetween(prog: Lines, i: nat, j: nat)
    requires i <= j <= |prog|
    ensures NoAllocation(prog, i, j) ==> RamBefore(prog, j) == RamBefore(prog, i)
    decreases j
  {
    if i < j {
      NoneBetween(prog, i, j - 1);
    }
  }

  // Symbol values.

  predicate Small(lens: Lens) {
    Offset(lens, |lens|) < 0x1_0000
  }

  function LineAddr(lens: Lens, i: nat): Word
    requires i <= |lens| && Small(lens)
  {
    OffsetOrder(lens, i, |lens|);
    Offset(lens, i)
  }

  function LabelAddr(prog: Lines, lens: Lens, name: string): Option<Word>
    requires |lens| == |prog| && Small(lens)
  {
    match Index(prog, LabelKind, name)
    case None => None
    case Some(j) => Some(LineAddr(lens, j))
  }

  /** What a symbol names: a define, else an allocation, else a label, else a constant. */
  datatype Target = Unknown | AtLine(line: nat) | AtRam(line: nat) | Fixed(value: Word)

  function Resolve(prog: Lines, name: string): (t: Target)
    ensures t.AtLine? || t.AtRam? ==> t.line < |prog|
  {
    match Index(prog, DefineKind, name)
    case Some(k) => AtLine(k)
    case None =>
      match Index(prog, AllocationKind, name)
      case Some(k) => AtRam(k)
      case None =>
        match Index(prog, LabelKind, name)
        case Some(k) => AtLine(k)
        case None =>
          match ConstValue(prog, name)
          case Some(v) => Fixed(v)
          case None => Unknown
  }

  /** A symbol is its first define, else its first allocation, else its first label, else its first constant. */
  lemma ResolvesFirst(prog: Lines, name: string, k: nat)
    ensures FirstDeclares(prog, k, DefineKind, name) ==> Resolve(prog, name) == AtLine(k)
    ensures Undeclared(prog, DefineKind, name) ==>
      && (FirstDeclares(prog, k, AllocationKind, name) ==> Resolve(prog, name) == AtRam(k))
      && (Undeclared(prog, AllocationKind, name) ==>
            && (FirstDeclares(prog, k, LabelKind, name) ==> Resolve(prog, name) == AtLine(k))
            && (Undeclared(prog, LabelKind, name) ==>
                  && (FirstDeclares(prog, k, ConstKind, name) ==> Resolve(prog, name) == Fixed(prog[k].value))
                  && (Undeclared(prog, ConstKind, name) ==> Resolve(prog, name) == Unknown)))
  {
    hide FirstDeclares, Undeclared, Declares;
    FirstOrNone(prog, k, DefineKind, name);
    FirstOrNone(prog, k, AllocationKind, name);
    FirstOrNone(prog, k, LabelKind, name);
    FirstOrNone(prog, k, ConstKind, name);
    ConstHasValue(prog, k, name);
  }

  lemma ConstHasValue(prog: Lines, k: nat, name: string)
    ensures FirstDeclares(prog, k, ConstKind, name) ==> k < |prog| && prog[k].Const?
  {
  }

  lemma FirstOrNone(prog: Lines, k: nat, kind: Kind, name: string)
    ensures FirstDeclares(prog, k, kind, name) ==> k < |prog| && Index(prog, kind, name) == Some(k)
    ensures Undeclared(prog, kind, name) ==> Index(prog, kind, name) == None
  {
    if FirstDeclares(prog, k, kind, name) {
      FirstIsIndex(prog, k, kind, name);
    }
    if Undeclared(prog, kind, name) {
      NoIndex(prog, kind, name);
    }
  }

  function SymbolValue(prog: Lines, lens: Lens, name: string): Option<Word>
    requires |lens| == |prog| && Small(lens)
  {
    match Resolve(prog, name)
    case Unknown => None
    case AtLine(k) => Some(LineAddr(lens, k))
    case AtRam(k) => Some(RamAddr(prog, k))
    case Fixed(v) => Some(v)
  }

  // Lengths.

  /** Bytes `CreateSet` takes. */
  function SetLen(dest: Bytecode.Reg, value: nat): (n: nat)
    ensures 1 <= n <= 3
  {
    if value < 16 && dest < 4 then 1 else if value < 256 then 2 else 3
  }

  /** The guess for a register that is not one never matters. */
  function GuessSetLen(dest: RegText, value: nat): nat {
    if value < 16 && dest.Named? && dest.reg < 4 then 1 else if value < 256 then 2 else 3
  }

  function InitialMovLen(prog: Lines, dest: RegText, src: Source): Option<nat> {
    match src
    case Number(v) => Some(GuessSetLen(dest, v))
    case FromRegister(_) => Some(2)
    case Character(_) => Some(2)
    case BadCharacter => None
    case Symbol(name) =>
      match Resolve(prog, name)
      case Unknown => None
      case Fixed(v) => Some(GuessSetLen(dest, v))
      case _ => Some(3)
  }

  /** A line's length before any pass, or none where the line is in error. */
  function InitialLen(prog: Lines, i: nat): Option<nat>
    requires i < |prog|
  {
    match prog[i]
    case Allocation(_, _, _, _) => Some(0)
    case Define(_, data) => Some(|data|)
    case Mov(dest, src) => InitialMovLen(prog, dest, src)
    case Label(_) => Some(0)
    case Alu(_, _, _, _, _, _, _) => Some(2)
    case Jmp(_) => Some(3)
    case Push8(_) => Some(3)
    case Pop8(_) => Some(3)
    case Call(_) => Some(5)
    case Ret => Some(2)
    case Xchg8(_, _) => Some(2)
    case Clz(_, _) => Some(2)
    case Const(_, _) => Some(0)
    case _ => Some(1)
  }

  /** How many machine instructions a line stands for. */
  function RawCount(line: Line): (n: nat)
    ensures n <= 2
  {
    match line
    case Allocation(_, _, _, _) => 0
    case Define(_, _) => 0
    case Label(_) => 0
    case Const(_, _) => 0
    case Push8(_) => 2
    case Pop8(_) => 2
    case Call(_) => 2
    case _ => 1
  }

  // Code.

  /** The machine instructions of a line, a refusal to assemble it, or a failed check that stops the assembler. */
  datatype Emission = Refused | Aborted | Emitted(list: seq<Bytecode.Instr>)

  function MovCode(dest: RegText, src: Source, symbol: Option<Word>): Emission {
    if dest.NotRegister? then Refused
    else
      match src
      case Number(v) => Emitted([Bytecode.SetInstr(dest.reg, v % 0x1_0000)])
      case FromRegister(r) => Emitted([Bytecode.Alu(Bytecode.OR, dest.reg, r, r)])
      case Character(c) => Emitted([Bytecode.SetInstr(dest.reg, c)])
      case BadCharacter => Refused
      case Symbol(_) => if symbol.Some? then Emitted([Bytecode.SetInstr(dest.reg, symbol.value)]) else Refused
  }

  function EmitMov(prog: Lines, lens: Lens, dest: RegText, src: Source): Emission
    requires |lens| == |prog| && Small(lens)
  {
    MovCode(dest, src, if src.Symbol? then SymbolValue(prog, lens, src.name) else None)
  }

  function RegOrZero(r: RegText): Bytecode.Reg {
    if r.Named? then r.reg else 0
  }

  predicate UsesStack(line: Line)
    requires line.Alu?
  {
    line.op == Bytecode.EXTRA && (line.extraType == Bytecode.PUSH16 || line.extraType == Bytecode.POP16)
  }

  /** `nextRaw` counts the machine instructions of the line after this one, which a skip passes over. */
  function AluCode(line: Line, opts: Options, nextRaw: nat): Emission
    requires line.Alu? && nextRaw <= 2
  {
    if opts.noStack && UsesStack(line) then Refused
    else if line.dest.NotRegister? then Refused
    else
      var d := line.dest.reg;
      if line.op == Bytecode.SKIP then
        // Nothing to skip: creating the instruction fails its check on registers.
        if nextRaw == 0 then Aborted else Emitted([Bytecode.Alu(line.op, d, line.skipBit, nextRaw - 1)])
      else if line.op == Bytecode.INC || line.op == Bytecode.DEC then
        Emitted([IncDec(line.op, d, line.incDecValue)])
      else if line.op == Bytecode.EXTRA then
        if line.extraType == Bytecode.PUSH16 then
          Emitted([Bytecode.Alu(line.op, Bytecode.SP, d, line.extraType)])
        else if line.extraType == Bytecode.POP16 then
          Emitted([Bytecode.Alu(line.op, d, Bytecode.SP, line.extraType)])
        else Emitted([Bytecode.Alu(line.op, d, RegOrZero(line.opA), line.extraType)])
      else Emitted([Bytecode.Alu(line.op, d, RegOrZero(line.opA), RegOrZero(line.opB))])
  }

  function NextRaw(prog: Lines, i: nat): (n: nat)
    requires i < |prog|
    ensures n <= 2
  {
    if i + 1 < |prog| then RawCount(prog[i + 1]) else 0
  }

  function NopInstr(): Bytecode.Instr {
    Bytecode.Short(Bytecode.NOP)
  }

  function IncDec(op: Bytecode.Nibble, r: Bytecode.Reg, amount: IncDecAmount): Bytecode.Instr {
    Bytecode.Alu(op, r, (amount - 1) / 8, (amount - 1) % 8)
  }

  /** The target's address once a three byte jump is one byte shorter. */
  function Len2Addr(addr: nat, off: nat): (a: nat)
    ensures a == if addr > off then addr - 1 else addr
  {
    if addr > off then addr - 1 else addr
  }

  /** Whether a two byte jump reaches its target, counted from the end of the jump. */
  predicate Reaches(addr: nat, ip: nat) {
    addr < 256 || (addr > ip && addr - ip <= 64) || (addr < ip && ip - addr <= 64)
  }

  /** A jump at `off`, given the length it has now; no instructions where a check on the length would fail. */
  function EmitJmp(addr: Word, off: nat, len: nat): seq<Bytecode.Instr> {
    if addr == off + len then [NopInstr()]
    else if len == 3 then
      // Shorter next time: two bytes hold its place.
      if Reaches(Len2Addr(addr, off), off + 2) then [NopInstr(), NopInstr()]
      else if Len2Addr(addr, off) == off + 2 then []
      else [Bytecode.Set16(Bytecode.IP, addr)]
    else if len != 2 then []
    else if addr < 256 then [Bytecode.Set8(Bytecode.IP, addr)]
    else if off + len < addr <= off + len + 64 then [IncDec(Bytecode.INC, Bytecode.IP, addr - (off + len))]
    else if addr < off + len <= addr + 64 then [IncDec(Bytecode.DEC, Bytecode.IP, off + len - addr)]
    else []
  }

  function EmitCall(addr: Word): seq<Bytecode.Instr> {
    [Bytecode.SetInstr(Bytecode.SCRATCH, addr),
     Bytecode.Alu(Bytecode.EXTRA, Bytecode.SCRATCH, Bytecode.SP, Bytecode.CALL)]
  }

  /** Lines whose code depends on no other line. */
  predicate Standalone(line: Line) {
    !line.Mov? && !line.Alu? && !line.Jmp? && !line.Call?
  }

  function StandaloneCode(line: Line, opts: Options): Emission
    requires Standalone(line)
  {
    match line
    case Syscall => Emitted([Bytecode.Short(Bytecode.SYSCALL)])
    case ClearInstructionCache => Emitted([Bytecode.Short(Bytecode.CLEAR_CACHE)])
    case Debug => Emitted([Bytecode.Short(Bytecode.DEBUG)])
    case Nop => Emitted([NopInstr()])
    case Ret =>
      if opts.noStack then Refused
      else Emitted([Bytecode.Alu(Bytecode.EXTRA, Bytecode.IP, Bytecode.SP, Bytecode.POP16)])
    case Push8(src) =>
      if opts.noStack || src.NotRegister? then Refused
      else Emitted([Bytecode.Store8(Bytecode.SP, src.reg), IncDec(Bytecode.INC, Bytecode.SP, 1)])
    case Pop8(dest) =>
      if opts.noStack || dest.NotRegister? then Refused
      else Emitted([IncDec(Bytecode.DEC, Bytecode.SP, 1), Bytecode.Load8(dest.reg, Bytecode.SP)])
    case Store8(dest, src) =>
      if dest.NotRegister? || src.NotRegister? then Refused else Emitted([Bytecode.Store8(dest.reg, src.reg)])
    case Load8(dest, src) =>
      if dest.NotRegister? || src.NotRegister? then Refused else Emitted([Bytecode.Load8(dest.reg, src.reg)])
    case Xchg8(addr, srcDest) =>
      if addr.NotRegister? || srcDest.NotRegister? then Refused
      else Emitted([Bytecode.Alu(Bytecode.EXTRA, addr.reg, srcDest.reg, Bytecode.XCHG8)])
    case Clz(dest, src) =>
      if dest.NotRegister? || src.NotRegister? then Refused
      else Emitted([Bytecode.Alu(Bytecode.EXTRA, dest.reg, src.reg, Bytecode.CLZ)])
    case _ => Emitted([])
  }

  /** What line `i` is assembled to, with every line as long as `lens` says. */
  function Emit(prog: Lines, lens: Lens, opts: Options, i: nat): Emission
    requires |lens| == |prog| && Small(lens) && i < |prog|
  {
    match prog[i]
    case Mov(dest, src) => EmitMov(prog, lens, dest, src)
    case Alu(_, _, _, _, _, _, _) => AluCode(prog[i], opts, NextRaw(prog, i))
    case Jmp(target) =>
      (match LabelAddr(prog, lens, target)
       case None => Refused
       case Some(addr) => Emitted(EmitJmp(addr, Offset(lens, i), lens[i])))
    case Call(target) =>
      if opts.noScratch || opts.noStack then Refused
      else
        (match LabelAddr(prog, lens, target)
         case None => Refused
         case Some(addr) => Emitted(EmitCall(addr)))
    case line => StandaloneCode(line, opts)
  }

  /** The bytes of line `i`: a define's data, any other line's instructions. */
  function Bytes(prog: Lines, lens: Lens, opts: Options, i: nat): seq<Byte>
    requires |lens| == |prog| && Small(lens) && i < |prog|
  {
    if prog[i].Define? then prog[i].data
    else
      match Emit(prog, lens, opts, i)
      case Emitted(list) => Bytecode.EncodeAll(list)
      case _ => []
  }
}
