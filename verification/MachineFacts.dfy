/** What the machine's instructions come to, in numbers, bits and bytes. */
module MachineFacts {
  import opened AddressMap
  import opened Bytecode
  import opened Isa
  import opened Words

  /** Nothing but one register differs. */
  predicate OnlyRegister(c: Cpu, d: Cpu, r: Reg) {
    d.mem == c.mem && forall k :: 0 <= k < 8 && k != r ==> d.regs[k] == c.regs[k]
  }

  /** An inc adds its amount, from 1 to 64, and a dec takes it away; a carry or borrow is lost. */
  lemma IncDecMeans(c: Cpu, d: Reg, a: Reg, b: Reg)
    ensures var inc, old_, amount := Exec(c, Alu(INC, d, a, b)), c.regs[d] as int, 8 * a + b + 1;
            inc.Next? && OnlyRegister(c, inc.cpu, d)
            && inc.cpu.regs[d] == old_ + amount - if old_ + amount < 0x1_0000 then 0 else 0x1_0000
    ensures var dec, old_, amount := Exec(c, Alu(DEC, d, a, b)), c.regs[d] as int, 8 * a + b + 1;
            dec.Next? && OnlyRegister(c, dec.cpu, d)
            && dec.cpu.regs[d] == old_ - amount + if old_ >= amount then 0 else 0x1_0000
  {
    hide Wrap, IncDecValue;
    AmountIs(a, b);
    WrapCarries(c.regs[d], IncDecValue(a, b));
  }

  lemma AmountIs(a: Reg, b: Reg)
    ensures IncDecValue(a, b) == 8 * a + b + 1
  {
  }

  /** A not turns every bit around. */
  lemma NotMeans(c: Cpu, d: Reg, a: Reg, k: nat)
    requires k < 16
    ensures var o := Exec(c, Alu(EXTRA, d, a, NOT));
            o.Next? && OnlyRegister(c, o.cpu, d) && (Bit(o.cpu.regs[d], k) <==> !Bit(c.regs[a], k))
  {
    hide Bit;
    PowersUpTo16();
    ComplementBit(c.regs[a], 16, k);
  }

  /** A word in memory, upper byte first. */
  predicate WordAt(c: Cpu, a: Word, v: Word) {
    a + 1 < 0x1_0000 && a in c.mem && a + 1 in c.mem && v == 0x100 * (c.mem[a] as int) + c.mem[a + 1]
  }

  /** Nothing but two bytes of memory differs. */
  predicate OnlyWord(c: Cpu, d: Cpu, a: Word) {
    d.mem.Keys == c.mem.Keys + {a} + (if a + 1 < 0x1_0000 then {a + 1} else {})
    && forall x :: x in c.mem && x != a && x != a + 1 ==> d.mem[x] == c.mem[x]
  }

  /** A word stored is there, and nothing else has changed; a word loaded is the one there. */
  lemma WordMeans(c: Cpu, d: Reg, a: Reg)
    ensures var o := Exec(c, Alu(EXTRA, d, a, STORE16));
            o.Next? ==> o.cpu.regs == c.regs && WordAt(o.cpu, c.regs[d], c.regs[a]) && OnlyWord(c, o.cpu, c.regs[d])
    ensures var o := Exec(c, Alu(EXTRA, d, a, LOAD16));
            o.Next? ==> OnlyRegister(c, o.cpu, d) && WordAt(c, c.regs[a], o.cpu.regs[d])
  {
    hide CanStore;
    BytesMean(c.regs[a], 0, 0);
    StoresFit(c.mem, c.regs[d]);
    if CanLoadWord(c, c.regs[a]) {
      BytesMean(LoadWord(c, c.regs[a]), c.mem[c.regs[a]], c.mem[c.regs[a] + 1]);
    }
  }

  lemma StoresFit(mem: map<Word, Byte>, a: Word)
    ensures CanStore(mem, a, 2) ==> a + 2 < 0x1_0000
  {
  }

  /** A push puts a register's word where the stack register points and moves that on by two. */
  lemma PushMeans(c: Cpu, d: Reg, a: Reg)
    ensures var o := Exec(c, Alu(EXTRA, d, a, PUSH16));
            o.Next? ==>
              && WordAt(o.cpu, c.regs[d], c.regs[a]) && OnlyWord(c, o.cpu, c.regs[d])
              && o.cpu.regs[d] == c.regs[d] + 2 && forall k :: 0 <= k < 8 && k != d ==> o.cpu.regs[k] == c.regs[k]
  {
    hide CanStore;
    BytesMean(c.regs[a], 0, 0);
    StoresFit(c.mem, c.regs[d]);
  }

  /** A pop after a push gives the word pushed, in any register but the stack's, which is back where it was. */
  lemma PopsWhatWasPushed(c: Cpu, sp: Reg, a: Reg, d: Reg)
    requires d != sp && Exec(c, Alu(EXTRA, sp, a, PUSH16)).Next? && c.regs[sp] + 1 != ENV_ADDR
    ensures var o := Exec(Exec(c, Alu(EXTRA, sp, a, PUSH16)).cpu, Alu(EXTRA, d, sp, POP16));
            o.Next? && o.cpu.regs[d] == c.regs[a] && o.cpu.regs[sp] == c.regs[sp]
  {
    hide CanStore, Hi, Lo, Join;
    BytesMean(c.regs[a], 0, 0);
    StoresInRam(c.mem, c.regs[sp]);
    JoinsBack(c.regs[a]);
  }

  lemma StoresInRam(mem: map<Word, Byte>, a: Word)
    ensures CanStore(mem, a, 2) ==> RAM_ADDR <= a && a + 2 < 0x1_0000
  {
  }

  lemma JoinsBack(w: Word)
    ensures Join(Hi(w), Lo(w)) == w
  {
  }

  /** What ends a process: a store into program memory, a division by zero, and the illegal instruction. */
  predicate Forbidden(c: Cpu, i: Instr) {
    match i
    case Store8(d, _) => c.regs[d] < 0x8000
    case Alu(op, d, a, b) => (op == DIV && c.regs[b] == 0) || (op == EXTRA && b == STORE16 && c.regs[d] < 0x8000)
    case Short(kind) => kind == 3
    case _ => false
  }

  lemma HaltsExactly(c: Cpu, i: Instr)
    requires !IsSkip(i)
    ensures Exec(c, i).Halt? <==> Forbidden(c, i)
  {
    hide CanStore, CanLoad, CanLoadWord, AluResult, Clz16;
  }

  /** Bytes the machine knows, of the program but its last or of RAM, and of a word not across the window's start. */
  predicate Loadable(c: Cpu, a: int, n: nat) {
    && 0 <= a && a + n <= 0x1_0000 && (n == 2 ==> a + 1 != 0xFC00)
    && forall x: Word :: a <= x < a + n ==> x in c.mem && x != 0x7FFF
  }

  /** A place in RAM at least 16 bytes short of the window, or one where nothing has to grow. */
  predicate Storable(c: Cpu, a: int, n: nat) {
    && 0x8000 <= a && a + n <= 0xFFFF
    && (|| a + n + 15 <= 0xFC00
        || (a < 0xFC00 && a + n < 0xFC00 && (a + n) as Word in c.mem)
        || (a >= 0xFC00 && n > 0 && (a + n - 1) as Word in c.mem))
  }

  /** What the machine leaves open: bytes it does not know, stores next to the window, and calls of the system. */
  predicate Open(c: Cpu, i: Instr)
    requires !IsSkip(i)
  {
    match i
    case Load8(_, s) => !Loadable(c, c.regs[s], 1)
    case Store8(d, _) => c.regs[d] >= 0x8000 && !Storable(c, c.regs[d], 1)
    case Short(kind) => kind == 1 || kind > 4
    case Alu(op, d, a, b) => op > 13 || (op == 13 && OpenExtra(c, d, a, b))
    case _ => false
  }

  predicate OpenExtra(c: Cpu, d: Reg, a: Reg, kind: Reg) {
    if kind == 1 then c.regs[d] >= 0x8000 && !Storable(c, c.regs[d], 2)
    else if kind == 2 then !Loadable(c, c.regs[a], 2)
    else if kind == 3 then !Storable(c, c.regs[d], 2)
    else if kind == 4 then d == a || !Loadable(c, if c.regs[a] >= 2 then c.regs[a] - 2 else c.regs[a] + 0xFFFE, 2)
    else if kind == 5 then !Storable(c, c.regs[a], 2)
    else if kind == 6 then !Storable(c, c.regs[d], 1) || !Loadable(c, c.regs[d], 1)
    else false
  }

  lemma StuckExactly(c: Cpu, i: Instr)
    requires !IsSkip(i)
    ensures Exec(c, i).Stuck? <==> Open(c, i)
  {
    hide CanLoad, CanStore, CanLoadWord, Loadable, Storable, AluResult, Clz16, Wrap, Hi, Lo;
    match i {
      case Load8(_, s) => ByteLoadable(c, c.regs[s]);
      case Store8(d, _) => StoresWhere(c, c.regs[d], 1);
      case Alu(op, d, a, b) =>
        if op == EXTRA {
          ExtraStuck(c, d, a, b);
        }
      case _ =>
    }
  }

  lemma ExtraStuck(c: Cpu, d: Reg, a: Reg, kind: Reg)
    ensures Isa.ExecExtra(c, d, a, kind).Stuck? <==> OpenExtra(c, d, a, kind)
  {
    hide CanLoad, CanStore, CanLoadWord, Loadable, Storable, Clz16, Wrap, Hi, Lo, LoadWord;
    ByteLoadable(c, c.regs[d]);
    StoresWhere(c, c.regs[d], 1);
    StoresWhere(c, c.regs[d], 2);
    StoresWhere(c, c.regs[a], 2);
    WordLoadable(c, c.regs[a]);
    WordLoadable(c, Wrap((c.regs[a] as int) - 2));
    WrapCarries(c.regs[a], 2);
  }

  lemma ByteLoadable(c: Cpu, a: Word)
    ensures CanLoad(c, a) <==> Loadable(c, a, 1)
  {
  }

  lemma WordLoadable(c: Cpu, a: Word)
    ensures CanLoadWord(c, a) <==> Loadable(c, a, 2)
  {
  }

  lemma StoresWhere(c: Cpu, a: Word, n: nat)
    ensures CanStore(c.mem, a, n) <==> Storable(c, a, n)
  {
  }
}
