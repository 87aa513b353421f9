/** Shrinking code to a fixpoint: what every pass keeps, and why it stops. */
module Relaxation {
  import opened Words
  import opened AssemblerModel
  import Bytecode

  /** Programs the assembler's parser can produce. */
  predicate WellFormed(prog: Lines) {
    forall i :: 0 <= i < |prog| && prog[i].Define? ==> |prog[i].data| <= MACHINE_CODE_MAX
  }

  /** The number a mov sets, if it sets one. */
  function SourceValue(prog: Lines, lens: Lens, src: Source): Option<Word>
    requires |lens| == |prog| && Small(lens)
  {
    match src
    case Number(v) => Some(v % 0x1_0000)
    case Character(c) => Some(c)
    case Symbol(name) => SymbolValue(prog, lens, name)
    case _ => None
  }

  /** A jump's length is one it can keep, or was held for it by the pass before. */
  predicate JmpOk(addr: nat, off: nat, len: nat) {
    || len == 3
    || (len == 2 && (Reaches(addr, off + 2) || addr == off + 2))
    || (len == 1 && addr == off + 1)
  }

  predicate MovOk(prog: Lines, lens: Lens, dest: RegText, src: Source, len: nat)
    requires |lens| == |prog| && Small(lens)
  {
    if src.FromRegister? then len == 2
    else 1 <= len <= 3 && (dest.Named? && SourceValue(prog, lens, src).Some? ==>
      SetLen(dest.reg, SourceValue(prog, lens, src).value) <= len)
  }

  /** What holds of a line's length through all passes. */
  predicate LineOk(prog: Lines, lens: Lens, i: nat)
    requires |lens| == |prog| && Small(lens) && i < |prog|
  {
    match prog[i]
    case Mov(dest, src) => MovOk(prog, lens, dest, src, lens[i])
    case Jmp(target) =>
      1 <= lens[i] <= 3 &&
      (match LabelAddr(prog, lens, target) case None => true case Some(addr) => JmpOk(addr, Offset(lens, i), lens[i]))
    case Call(target) =>
      4 <= lens[i] <= 5 &&
      (match LabelAddr(prog, lens, target)
       case None => true case Some(addr) => 2 + SetLen(Bytecode.SCRATCH, addr) <= lens[i])
    case _ => InitialLen(prog, i) == Some(lens[i])
  }

  ghost predicate Good(prog: Lines, lens: Lens) {
    && WellFormed(prog) && |lens| == |prog| && Small(lens)
    && forall i :: 0 <= i < |prog| ==> LineOk(prog, lens, i)
  }

  /** The guesses before the first pass, of a program without errors in its movs. */
  predicate Initial(prog: Lines, lens: Lens) {
    |lens| == |prog| && forall i :: 0 <= i < |prog| ==> InitialLen(prog, i) == Some(lens[i])
  }

  lemma InitialGood(prog: Lines, lens: Lens)
    requires WellFormed(prog) && Initial(prog, lens) && Small(lens)
    ensures Good(prog, lens)
  {
  }

  // Emitted lengths.

  lemma SetBytes(d: Bytecode.Reg, v: Word)
    ensures |Bytecode.EncodeAll([Bytecode.SetInstr(d, v)])| == SetLen(d, v)
  {
  }

  lemma CallBytes(addr: Word)
    ensures |Bytecode.EncodeAll(EmitCall(addr))| == SetLen(Bytecode.SCRATCH, addr) + 2
  {
    var i := Bytecode.SetInstr(Bytecode.SCRATCH, addr);
    var j := Bytecode.Alu(Bytecode.EXTRA, Bytecode.SCRATCH, Bytecode.SP, Bytecode.CALL);
    Bytecode.EncodeAllTwo(i, j);
    assert |Bytecode.Encode(i)| == SetLen(Bytecode.SCRATCH, addr) && |Bytecode.Encode(j)| == 2;
  }

  /** A jump that may be emitted is one instruction of its length, or holds the place of a shorter one. */
  lemma JmpBytes(addr: Word, off: nat, len: nat)
    requires JmpOk(addr, off, len)
    ensures var list := EmitJmp(addr, off, len);
            && list != [] && |Bytecode.EncodeAll(list)| <= len
            && (|Bytecode.EncodeAll(list)| == len ==> |list| == 1)
            && (|Bytecode.EncodeAll(list)| == if addr == off + len then 1
                else if len == 3 && !Reaches(Len2Addr(addr, off), off + 2) then 3 else 2)
  {
    var list := EmitJmp(addr, off, len);
    if |list| == 1 {
      Bytecode.EncodeAllOne(list[0]);
    } else {
      Bytecode.EncodeAllTwo(list[0], list[1]);
    }
  }

  lemma OneInstr(i: Bytecode.Instr)
    ensures |Bytecode.EncodeAll([i])| == |Bytecode.Encode(i)|
  {
  }

  lemma TwoInstrs(i: Bytecode.Instr, j: Bytecode.Instr)
    ensures |Bytecode.EncodeAll([i, j])| == |Bytecode.Encode(i)| + |Bytecode.Encode(j)|
  {
    Bytecode.EncodeAllTwo(i, j);
  }

  /** Lines whose code does not depend on addresses are emitted at the length they always had. */
  lemma PlainBytes(prog: Lines, lens: Lens, opts: Options, i: nat)
    requires |lens| == |prog| && Small(lens) && i < |prog| && Emit(prog, lens, opts, i).Emitted?
    requires !prog[i].Mov? && !prog[i].Jmp? && !prog[i].Call? && !prog[i].Define?
    ensures InitialLen(prog, i) == Some(|Bytes(prog, lens, opts, i)|)
    ensures |Emit(prog, lens, opts, i).list| == RawCount(prog[i])
  {
    hide Offset, Small, Bytecode.EncodeAll;
    var list := Emit(prog, lens, opts, i).list;
    if |list| == 1 {
      OneInstr(list[0]);
      assert list == [list[0]];
    } else if |list| == 2 {
      TwoInstrs(list[0], list[1]);
      assert list == [list[0], list[1]];
    } else {
      NoInstrs();
    }
  }

  lemma NoInstrs()
    ensures Bytecode.EncodeAll([]) == []
  {
  }

  lemma MovBytes(prog: Lines, lens: Lens, dest: RegText, src: Source, len: nat)
    requires |lens| == |prog| && Small(lens) && MovOk(prog, lens, dest, src, len)
    requires EmitMov(prog, lens, dest, src).Emitted?
    ensures var list := EmitMov(prog, lens, dest, src).list;
            && |list| == 1 && |Bytecode.EncodeAll(list)| <= len
            && (src.FromRegister? ==> |Bytecode.EncodeAll(list)| == 2)
            && (src.FromRegister? || (SourceValue(prog, lens, src).Some?
                && |Bytecode.EncodeAll(list)| == SetLen(dest.reg, SourceValue(prog, lens, src).value)))
  {
  }

  /** No line's code is longer than the line was taken to be; one as long has its count of instructions. */
  lemma EmittedFits(prog: Lines, lens: Lens, opts: Options, i: nat)
    requires Good(prog, lens) && i < |prog| && Emit(prog, lens, opts, i).Emitted?
    ensures |Bytes(prog, lens, opts, i)| <= lens[i]
    ensures |Bytes(prog, lens, opts, i)| == lens[i] ==> |Emit(prog, lens, opts, i).list| == RawCount(prog[i])
  {
    hide Offset, Small, Bytecode.EncodeAll, EmitMov, EmitJmp, EmitCall, AluCode, JmpOk, MovOk;
    assert LineOk(prog, lens, i);
    match prog[i] {
      case Mov(dest, src) => MovBytes(prog, lens, dest, src, lens[i]);
      case Jmp(target) => JmpBytes(LabelAddr(prog, lens, target).value, Offset(lens, i), lens[i]);
      case Call(target) =>
        CallBytes(LabelAddr(prog, lens, target).value);
        CallCount(LabelAddr(prog, lens, target).value);
      case Define(_, _) =>
      case _ => PlainBytes(prog, lens, opts, i);
    }
  }

  lemma CallCount(addr: Word)
    ensures |EmitCall(addr)| == 2
  {
  }

  // Errors.

  /** A line the assembler cannot assemble: a bad register, character, symbol or label, a reserved register, no skip. */
  predicate InError(prog: Lines, opts: Options, i: nat) {
    i < |prog| &&
    match prog[i]
    case Mov(dest, src) => dest.NotRegister? || src.BadCharacter? || (src.Symbol? && Resolve(prog, src.name).Unknown?)
    case Alu(_, _, _, _, _, _, _) => !AluCode(prog[i], opts, NextRaw(prog, i)).Emitted?
    case Jmp(target) => Index(prog, LabelKind, target).None?
    case Call(target) => opts.noScratch || opts.noStack || Index(prog, LabelKind, target).None?
    case line => !StandaloneCode(line, opts).Emitted?
  }

  /** A line that stops the assembler: a skip before a line without code. */
  predicate Aborts(prog: Lines, opts: Options, i: nat) {
    i < |prog| && prog[i].Alu? && AluCode(prog[i], opts, NextRaw(prog, i)).Aborted?
  }

  /** What each line needs: registers where there must be some, a stack to use, symbols declared, code to skip. */
  predicate Assemblable(prog: Lines, opts: Options, i: nat)
    requires i < |prog|
  {
    match prog[i]
    case Mov(dest, src) =>
      dest.Named? && !src.BadCharacter? && (src.Symbol? ==> exists k :: 0 <= k < |prog| && Names(prog[k], src.name))
    case Alu(op, dest, _, _, _, _, extra) =>
      && dest.Named? && (op == 12 ==> i + 1 < |prog| && HasCode(prog[i + 1]))
      && (op == 13 && (extra == 3 || extra == 4) ==> !opts.noStack)
    case Jmp(target) => HasLabel(prog, target)
    case Call(target) => HasLabel(prog, target) && !opts.noStack && !opts.noScratch
    case Ret => !opts.noStack
    case Push8(src) => src.Named? && !opts.noStack
    case Pop8(dest) => dest.Named? && !opts.noStack
    case Store8(dest, src) => dest.Named? && src.Named?
    case Load8(dest, src) => dest.Named? && src.Named?
    case Xchg8(a, r) => a.Named? && r.Named?
    case Clz(dest, src) => dest.Named? && src.Named?
    case _ => true
  }

  predicate Names(line: Line, name: string) {
    (line.Define? || line.Allocation? || line.Label? || line.Const?) && line.symbol == name
  }

  predicate HasLabel(prog: Lines, name: string) {
    exists k :: 0 <= k < |prog| && prog[k].Label? && prog[k].symbol == name
  }

  predicate HasCode(line: Line) {
    !line.Allocation? && !line.Define? && !line.Label? && !line.Const?
  }

  /** A line is in error exactly when it lacks what it needs. */
  lemma InErrorExactly(prog: Lines, opts: Options, i: nat)
    requires i < |prog|
    ensures InError(prog, opts, i) <==> !Assemblable(prog, opts, i)
  {
    hide Index, Resolve, Names, HasLabel, Declares;
    match prog[i] {
      case Mov(_, src) =>
        if src.Symbol? {
          SymbolKnown(prog, src.name);
        }
      case Jmp(target) => LabelKnown(prog, target);
      case Call(target) => LabelKnown(prog, target);
      case _ =>
    }
  }

  lemma SymbolKnown(prog: Lines, name: string)
    ensures Resolve(prog, name).Unknown? <==> forall k :: 0 <= k < |prog| ==> !Names(prog[k], name)
  {
    hide Index;
    KindKnown(prog, DefineKind, name);
    KindKnown(prog, AllocationKind, name);
    KindKnown(prog, LabelKind, name);
    KindKnown(prog, ConstKind, name);
    if forall k :: 0 <= k < |prog| ==> !Names(prog[k], name) {
      assert forall k, kind :: 0 <= k < |prog| && Declares(prog[k], kind, name) ==> Names(prog[k], name);
    } else {
      var k :| 0 <= k < |prog| && Names(prog[k], name);
      var kind := if prog[k].Define? then DefineKind else if prog[k].Allocation? then AllocationKind
                  else if prog[k].Label? then LabelKind else ConstKind;
      assert Declares(prog[k], kind, name);
    }
  }

  lemma KindKnown(prog: Lines, kind: Kind, name: string)
    ensures Index(prog, kind, name).None? <==> Undeclared(prog, kind, name)
  {
    hide Declares;
    if Undeclared(prog, kind, name) {
      NoIndex(prog, kind, name);
    }
  }

  lemma LabelKnown(prog: Lines, name: string)
    ensures Index(prog, LabelKind, name).None? <==> !HasLabel(prog, name)
  {
    hide Index;
    KindKnown(prog, LabelKind, name);
    if k: nat :| k < |prog| && prog[k].Label? && prog[k].symbol == name {
      assert Declares(prog[k], LabelKind, name);
    }
  }

  /** The first line in error, which is the one that ends the assembler. */
  ghost predicate FirstError(prog: Lines, opts: Options, i: nat) {
    InError(prog, opts, i) && forall k: nat :: k < i ==> !InError(prog, opts, k)
  }

  /** Which lines are refused does not depend on addresses, so it is the same in every pass. */
  lemma RefusedExactly(prog: Lines, lens: Lens, opts: Options, i: nat)
    requires |lens| == |prog| && Small(lens) && i < |prog|
    ensures !Emit(prog, lens, opts, i).Emitted? <==> InError(prog, opts, i)
    ensures Emit(prog, lens, opts, i).Aborted? <==> Aborts(prog, opts, i)
    ensures InitialLen(prog, i).None? ==> InError(prog, opts, i)
  {
  }

  // One line found to be shorter.

  /** Line `i` is emitted shorter than it was taken to be. */
  predicate Shrinks(prog: Lines, lens: Lens, opts: Options, i: nat)
    requires |lens| == |prog| && Small(lens)
  {
    && i < |prog| && !prog[i].Define? && lens[i] > 0 && Emit(prog, lens, opts, i).Emitted?
    && |Bytes(prog, lens, opts, i)| != lens[i]
  }

  /** Its new length. */
  function Shrunk(prog: Lines, lens: Lens, opts: Options, i: nat): (r: Lens)
    requires |lens| == |prog| && Small(lens) && Shrinks(prog, lens, opts, i)
    ensures |r| == |lens|
  {
    lens[i := |Bytes(prog, lens, opts, i)|]
  }

  /** Offsets past a shortened line fall by what it lost; the others stay. */
  lemma OffsetMoves(lens: Lens, i: nat, v: nat, j: nat)
    requires i < |lens| && v <= lens[i] && j <= |lens|
    ensures Offset(lens[i := v], j) == Offset(lens, j) - if i < j then lens[i] - v else 0
  {
    SumUpdate(lens, 0, j, i, v);
  }

  lemma SmallerIsSmall(lens: Lens, i: nat, v: nat)
    requires i < |lens| && v <= lens[i] && Small(lens)
    ensures Small(lens[i := v])
  {
    OffsetMoves(lens, i, v, |lens|);
  }

  /** A jump elsewhere stays as good as it was, whether or not the shorter line lies under it. */
  lemma JmpElsewhere(lens: Lens, i: nat, v: nat, k: nat, j: nat)
    requires i < |lens| && v <= lens[i] && k < |lens| && j < |lens| && k != i && lens[i] > 0
    requires JmpOk(Offset(lens, j), Offset(lens, k), lens[k])
    ensures var after := lens[i := v]; JmpOk(Offset(after, j), Offset(after, k), after[k])
  {
    hide Offset;
    OffsetMoves(lens, i, v, j);
    OffsetMoves(lens, i, v, k);
    var after := lens[i := v];
    if j <= k {
      OffsetOrder(lens, j, k);
      OffsetOrder(after, j, k);
    } else {
      OffsetOrder(lens, k, j);
      OffsetOrder(after, k, j);
      if k < i < j {
        OffsetOrder(lens, k, i);
        OffsetOrder(lens, i, j);
      }
    }
  }

  /** A jump found shorter can keep its shorter length. */
  lemma JmpShrinks(lens: Lens, i: nat, j: nat)
    requires i < |lens| && j < |lens| && Small(lens) && 1 <= lens[i] <= 3
    requires JmpOk(Offset(lens, j), Offset(lens, i), lens[i])
    ensures var v := |Bytecode.EncodeAll(EmitJmp(LineAddr(lens, j), Offset(lens, i), lens[i]))|;
            1 <= v <= lens[i] &&
            (v < lens[i] ==> JmpOk(Offset(lens[i := v], j), Offset(lens[i := v], i), v))
  {
    hide Offset, EmitJmp, Bytecode.EncodeAll;
    var addr, off := LineAddr(lens, j), Offset(lens, i);
    JmpBytes(addr, off, lens[i]);
    var v := |Bytecode.EncodeAll(EmitJmp(addr, off, lens[i]))|;
    OffsetMoves(lens, i, v, j);
    OffsetMoves(lens, i, v, i);
    if j <= i {
      OffsetOrder(lens, j, i);
    } else {
      OffsetOrder(lens, i, j);
    }
  }

  lemma LabelMoves(prog: Lines, lens: Lens, i: nat, v: nat, name: string)
    requires |lens| == |prog| && i < |lens| && v <= lens[i] && Small(lens) && Small(lens[i := v])
    ensures var a, b := LabelAddr(prog, lens, name), LabelAddr(prog, lens[i := v], name);
            a.Some? == b.Some? && (a.Some? ==> b.value <= a.value)
  {
    hide Offset;
    if Index(prog, LabelKind, name).Some? {
      OffsetMoves(lens, i, v, Index(prog, LabelKind, name).value);
    }
  }

  /** No symbol's value grows. */
  lemma SourceMoves(prog: Lines, lens: Lens, i: nat, v: nat, src: Source)
    requires |lens| == |prog| && i < |lens| && v <= lens[i] && Small(lens) && Small(lens[i := v])
    ensures var a, b := SourceValue(prog, lens, src), SourceValue(prog, lens[i := v], src);
            a.Some? == b.Some? && (a.Some? ==> b.value <= a.value)
  {
    hide Offset;
    if src.Symbol? && Resolve(prog, src.name).AtLine? {
      OffsetMoves(lens, i, v, Resolve(prog, src.name).line);
    }
  }

  lemma MovKeeps(prog: Lines, lens: Lens, opts: Options, i: nat, k: nat)
    requires Good(prog, lens) && Shrinks(prog, lens, opts, i) && k < |prog| && prog[k].Mov?
    requires Small(Shrunk(prog, lens, opts, i))
    ensures LineOk(prog, Shrunk(prog, lens, opts, i), k)
  {
    hide Offset, Small, Bytecode.EncodeAll, SourceValue, EmitMov;
    var after := Shrunk(prog, lens, opts, i);
    assert LineOk(prog, lens, k);
    EmittedFits(prog, lens, opts, i);
    SourceMoves(prog, lens, i, after[i], prog[k].src);
    if k == i {
      MovBytes(prog, lens, prog[k].dest, prog[k].src, lens[k]);
    }
  }

  lemma JmpKeeps(prog: Lines, lens: Lens, opts: Options, i: nat, k: nat)
    requires Good(prog, lens) && Shrinks(prog, lens, opts, i) && k < |prog| && prog[k].Jmp?
    requires Small(Shrunk(prog, lens, opts, i))
    ensures LineOk(prog, Shrunk(prog, lens, opts, i), k)
  {
    hide Offset, Small, Bytecode.EncodeAll, JmpOk, EmitJmp;
    var after := Shrunk(prog, lens, opts, i);
    assert LineOk(prog, lens, k);
    EmittedFits(prog, lens, opts, i);
    var at := Index(prog, LabelKind, prog[k].target);
    if at.Some? {
      if k == i {
        JmpShrinks(lens, i, at.value);
      } else {
        JmpElsewhere(lens, i, after[i], k, at.value);
      }
    }
  }

  lemma CallKeeps(prog: Lines, lens: Lens, opts: Options, i: nat, k: nat)
    requires Good(prog, lens) && Shrinks(prog, lens, opts, i) && k < |prog| && prog[k].Call?
    requires Small(Shrunk(prog, lens, opts, i))
    ensures LineOk(prog, Shrunk(prog, lens, opts, i), k)
  {
    hide Offset, Small, Bytecode.EncodeAll, EmitCall;
    var after := Shrunk(prog, lens, opts, i);
    assert LineOk(prog, lens, k);
    EmittedFits(prog, lens, opts, i);
    LabelMoves(prog, lens, i, after[i], prog[k].target);
    var addr := LabelAddr(prog, lens, prog[k].target);
    if addr.Some? {
      CallBytes(addr.value);
    }
  }

  /** Other lines never shrink. */
  lemma PlainKeeps(prog: Lines, lens: Lens, opts: Options, i: nat, k: nat)
    requires Good(prog, lens) && Shrinks(prog, lens, opts, i) && k < |prog|
    requires !prog[k].Mov? && !prog[k].Jmp? && !prog[k].Call? && Small(Shrunk(prog, lens, opts, i))
    ensures LineOk(prog, Shrunk(prog, lens, opts, i), k)
  {
    hide Offset, Small, Bytes, InitialLen;
    assert LineOk(prog, lens, k);
    assert InitialLen(prog, k) == Some(lens[k]);
    if k == i {
      PlainBytes(prog, lens, opts, i);
    }
    assert Shrunk(prog, lens, opts, i)[k] == lens[k];
  }

  /** Shortening a line keeps every line good, and makes the whole shorter. */
  lemma ShrunkGood(prog: Lines, lens: Lens, opts: Options, i: nat)
    requires Good(prog, lens) && Shrinks(prog, lens, opts, i)
    ensures Good(prog, Shrunk(prog, lens, opts, i))
    ensures Shrunk(prog, lens, opts, i)[i] < lens[i]
    ensures Offset(Shrunk(prog, lens, opts, i), |prog|) < Offset(lens, |prog|)
  {
    hide Offset, LineOk, Bytes, Small;
    EmittedFits(prog, lens, opts, i);
    var after := Shrunk(prog, lens, opts, i);
    SmallerIsSmall(lens, i, after[i]);
    OffsetMoves(lens, i, after[i], |lens|);
    forall k | 0 <= k < |prog|
      ensures LineOk(prog, after, k)
    {
      if prog[k].Mov? {
        MovKeeps(prog, lens, opts, i, k);
      } else if prog[k].Jmp? {
        JmpKeeps(prog, lens, opts, i, k);
      } else if prog[k].Call? {
        CallKeeps(prog, lens, opts, i, k);
      } else {
        PlainKeeps(prog, lens, opts, i, k);
      }
    }
  }

  // The fixpoint.

  /** Every line is emitted, at the length it was taken to have. */
  ghost predicate Fixpoint(prog: Lines, lens: Lens, opts: Options) {
    && Good(prog, lens)
    && forall i :: 0 <= i < |prog| ==> Settled(prog, lens, opts, i)
  }

  predicate Settled(prog: Lines, lens: Lens, opts: Options, i: nat)
    requires |lens| == |prog| && Small(lens) && i < |prog|
  {
    Emit(prog, lens, opts, i).Emitted? && !Shrinks(prog, lens, opts, i)
  }

  /** At the fixpoint each line has its length, and its count of machine instructions. */
  lemma SettledLine(prog: Lines, lens: Lens, opts: Options, i: nat)
    requires Fixpoint(prog, lens, opts) && i < |prog|
    ensures Emit(prog, lens, opts, i).Emitted?
    ensures |Bytes(prog, lens, opts, i)| == lens[i]
    ensures |Emit(prog, lens, opts, i).list| == RawCount(prog[i])
  {
    hide Offset, Small, Bytecode.EncodeAll, Emit;
    assert Settled(prog, lens, opts, i) && LineOk(prog, lens, i);
    EmittedFits(prog, lens, opts, i);
  }

  /** Lengths that only ever shrank. */
  ghost predicate Descends(lens: Lens, less: Lens) {
    |less| == |lens| && forall k :: 0 <= k < |lens| ==> less[k] <= lens[k]
  }

  /** No address grows when no length does. */
  lemma AddressesDescend(lens: Lens, less: Lens)
    requires Descends(lens, less)
    ensures forall i :: 0 <= i <= |lens| ==> Offset(less, i) <= Offset(lens, i)
    ensures Small(lens) ==> Small(less)
  {
    hide Offset;
    forall i | 0 <= i <= |lens|
      ensures Offset(less, i) <= Offset(lens, i)
    {
      OffsetMonotone(lens, less, i);
    }
  }

  // The line that sets the stack pointer, filled in once all else is settled.

  function StackLine(value: nat): Line {
    Mov(Named(Bytecode.SP), Number(value))
  }

  lemma {:induction false} IndexKept(prog: Lines, at: nat, line: Line, kind: Kind, name: string, from: nat)
    requires at < |prog| && prog[at].Mov? && line.Mov? && from <= |prog|
    ensures IndexFrom(prog[at := line], kind, name, from) == IndexFrom(prog, kind, name, from)
    decreases |prog| - from
  {
    if from < |prog| {
      IndexKept(prog, at, line, kind, name, from + 1);
    }
  }

  lemma {:induction false} RamKept(prog: Lines, at: nat, line: Line, i: nat)
    requires at < |prog| && prog[at].Mov? && line.Mov? && i <= |prog|
    ensures RamBefore(prog[at := line], i) == RamBefore(prog, i)
    decreases i
  {
    hide Index;
    if i > 0 {
      RamKept(prog, at, line, i - 1);
      if prog[i - 1].Allocation? {
        ConstKept(prog, at, line, prog[i - 1].lenText);
      }
    }
  }

  lemma ConstKept(prog: Lines, at: nat, line: Line, name: string)
    requires at < |prog| && prog[at].Mov? && line.Mov?
    ensures ConstValue(prog[at := line], name) == ConstValue(prog, name)
  {
    IndexKept(prog, at, line, ConstKind, name, 0);
  }

  lemma SymbolsKept(prog: Lines, lens: Lens, at: nat, line: Line, name: string)
    requires at < |prog| == |lens| && prog[at].Mov? && line.Mov? && Small(lens)
    ensures LabelAddr(prog[at := line], lens, name) == LabelAddr(prog, lens, name)
    ensures SymbolValue(prog[at := line], lens, name) == SymbolValue(prog, lens, name)
    ensures Resolve(prog[at := line], name) == Resolve(prog, name)
  {
    hide Offset, Small, IndexFrom, RamBefore;
    IndexKept(prog, at, line, DefineKind, name, 0);
    IndexKept(prog, at, line, AllocationKind, name, 0);
    IndexKept(prog, at, line, LabelKind, name, 0);
    ConstKept(prog, at, line, name);
    var t := Resolve(prog, name);
    if t.AtRam? {
      RamKept(prog, at, line, t.line);
    }
  }

  /** Changing what one mov sets changes nothing about the other lines. */
  lemma OthersUnaffected(prog: Lines, lens: Lens, opts: Options, at: nat, line: Line, i: nat)
    requires at < |prog| == |lens| && prog[at].Mov? && line.Mov? && Small(lens) && i < |prog| && i != at
    ensures Emit(prog[at := line], lens, opts, i) == Emit(prog, lens, opts, i)
    ensures LineOk(prog[at := line], lens, i) == LineOk(prog, lens, i)
  {
    hide Offset, Small, Index, LabelAddr, SymbolValue, AluCode, StandaloneCode, EmitJmp, EmitCall, JmpOk, SetLen;
    var after := prog[at := line];
    match prog[i] {
      case Mov(_, src) =>
        if src.Symbol? {
          SymbolsKept(prog, lens, at, line, src.name);
        }
      case Jmp(target) => SymbolsKept(prog, lens, at, line, target);
      case Call(target) => SymbolsKept(prog, lens, at, line, target);
      case _ =>
    }
  }

  /** Filling in the stack's address keeps the fixpoint exactly when the address still needs three bytes. */
  lemma StackLineSettles(prog: Lines, lens: Lens, opts: Options, at: nat, value: Word)
    requires Fixpoint(prog, lens, opts) && at < |prog| && prog[at] == StackLine(65535)
    ensures var after := prog[at := StackLine(value)];
            && Good(after, lens)
            && (Fixpoint(after, lens, opts) <==> value >= 256)
            && (value < 256 ==> Shrinks(after, lens, opts, at))
            && forall i :: 0 <= i < |prog| && i != at ==> Settled(after, lens, opts, i)
  {
    hide Offset, Small, Emit, LineOk, Bytes;
    var after := prog[at := StackLine(value)];
    StackLineLen(prog, lens, opts, at);
    StackLineNow(after, lens, opts, at, value);
    forall i | 0 <= i < |prog| && i != at
      ensures LineOk(after, lens, i) && Settled(after, lens, opts, i)
    {
      assert LineOk(prog, lens, i) && Settled(prog, lens, opts, i);
      OthersUnaffected(prog, lens, opts, at, StackLine(value), i);
      SettledAlike(prog, after, lens, opts, i);
    }
    if value >= 256 {
      assert forall i :: 0 <= i < |prog| ==> Settled(after, lens, opts, i);
    } else {
      assert !Settled(after, lens, opts, at);
    }
  }

  lemma SettledAlike(prog: Lines, after: Lines, lens: Lens, opts: Options, i: nat)
    requires |prog| == |after| == |lens| && Small(lens) && i < |prog| && after[i] == prog[i]
    requires Emit(after, lens, opts, i) == Emit(prog, lens, opts, i)
    ensures Settled(after, lens, opts, i) == Settled(prog, lens, opts, i)
  {
  }

  lemma StackLineLen(prog: Lines, lens: Lens, opts: Options, at: nat)
    requires Fixpoint(prog, lens, opts) && at < |prog| && prog[at] == StackLine(65535)
    ensures lens[at] == 3
  {
    hide Offset, Small, Bytecode.EncodeAll;
    SettledLine(prog, lens, opts, at);
    SetBytes(Bytecode.SP, 65535);
  }

  lemma StackLineNow(after: Lines, lens: Lens, opts: Options, at: nat, value: Word)
    requires |after| == |lens| && Small(lens) && at < |after| && after[at] == StackLine(value) && lens[at] == 3
    ensures LineOk(after, lens, at)
    ensures Settled(after, lens, opts, at) <==> value >= 256
    ensures value < 256 ==> Shrinks(after, lens, opts, at)
  {
    hide Offset, Small, Bytecode.EncodeAll;
    SetBytes(Bytecode.SP, value);
  }

  // The program's bytes.

  /** The code of the first `n` lines, one after another. */
  function Image(prog: Lines, lens: Lens, opts: Options, n: nat): seq<Byte>
    requires |lens| == |prog| && Small(lens) && n <= |prog|
    decreases n
  {
    if n == 0 then [] else Image(prog, lens, opts, n - 1) + Bytes(prog, lens, opts, n - 1)
  }

  lemma {:induction false} ImageLen(prog: Lines, lens: Lens, opts: Options, n: nat)
    requires Fixpoint(prog, lens, opts) && n <= |prog|
    ensures |Image(prog, lens, opts, n)| == Offset(lens, n)
    decreases n
  {
    hide Emit, Bytes, LineOk, Small;
    if n > 0 {
      ImageLen(prog, lens, opts, n - 1);
      SettledLine(prog, lens, opts, n - 1);
    }
  }

  /** Every line's code lies at the line's offset. */
  lemma {:induction false} ImageAt(prog: Lines, lens: Lens, opts: Options, i: nat, n: nat)
    requires Fixpoint(prog, lens, opts) && i < n <= |prog|
    ensures var image := Image(prog, lens, opts, n);
            && Offset(lens, i) + lens[i] <= |image|
            && image[Offset(lens, i)..Offset(lens, i) + lens[i]] == Bytes(prog, lens, opts, i)
    decreases n
  {
    hide Emit, Bytes, LineOk, Small, Offset;
    ImageLen(prog, lens, opts, n - 1);
    SettledLine(prog, lens, opts, i);
    var before := Image(prog, lens, opts, n - 1);
    if i < n - 1 {
      ImageAt(prog, lens, opts, i, n - 1);
      assert (before + Bytes(prog, lens, opts, n - 1))[Offset(lens, i)..Offset(lens, i) + lens[i]]
          == before[Offset(lens, i)..Offset(lens, i) + lens[i]];
    }
  }
}
