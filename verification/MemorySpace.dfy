/** What a process's memory holds: read-only program bytes, RAM, and a 1kb window on environment data. */
module MemorySpace {
  import opened AddressMap
  import opened Words

  // The RAM length at which RAM would reach the environment window.
  const ENV_INDEX := 31744

  /** The RAM file holds the environment data first, then RAM. */
  datatype Space = Space(progmem: seq<Byte>, file: seq<Byte>, ramLen: nat, envLen: nat)

  predicate Proper(s: Space) {
    |s.file| == s.envLen + s.ramLen && s.envLen < 0x100 && s.ramLen < 0x1_0000
  }

  predicate Readable(s: Space, a: Word) {
    if a < RAM_ADDR then a < PROGMEM_END && a < |s.progmem|
    else a - RAM_ADDR < s.ramLen || (a >= ENV_ADDR && a - ENV_ADDR < s.envLen)
  }

  function Peek(s: Space, a: Word): Byte
    requires Proper(s) && Readable(s, a)
  {
    if a < RAM_ADDR then s.progmem[a]
    else if a - RAM_ADDR < s.ramLen then s.file[s.envLen + (a - RAM_ADDR)]
    else s.file[a - ENV_ADDR]
  }

  // Reading a block.

  predicate ReadOk(s: Space, a: Word, n: nat) {
    if a + n < RAM_ADDR then n == 0 || a + n <= |s.progmem|
    else if a < RAM_ADDR then false
    else if a - RAM_ADDR < s.ramLen then s.envLen + (a - RAM_ADDR) + n <= |s.file|
    else a >= ENV_ADDR && a - ENV_ADDR < s.envLen && a - ENV_ADDR + n <= |s.file|
  }

  function Block(s: Space, a: Word, n: nat): (r: seq<Byte>)
    requires ReadOk(s, a, n)
    ensures |r| == n
  {
    if n == 0 then []
    else if a + n < RAM_ADDR then s.progmem[a..a + n]
    else if a - RAM_ADDR < s.ramLen then s.file[s.envLen + (a - RAM_ADDR)..][..n]
    else s.file[a - ENV_ADDR..][..n]
  }

  /** A block that does not run past the environment data holds the bytes at its addresses. */
  lemma BlockBytes(s: Space, a: Word, n: nat, k: nat)
    requires Proper(s) && ReadOk(s, a, n) && k < n
    requires s.ramLen <= ENV_INDEX && a + n <= ENV_ADDR + s.envLen
    ensures a + k < 0x1_0000 && Readable(s, a + k) && Block(s, a, n)[k] == Peek(s, a + k)
  {
  }

  /**
   * Which blocks can be read, and where their bytes are: the program's below 0x8000, the RAM file's behind the
   * environment data, and from 0xFC00 on, unless RAM reaches there, the environment data at its start.
   */
  lemma BlockIs(s: Space, a: Word, n: nat)
    requires Proper(s) && n > 0
    ensures ReadOk(s, a, n) ==> a + n < 0x8000 || a >= 0x8000
    ensures a < 0x8000 ==> (ReadOk(s, a, n) <==> a + n < 0x8000 && a + n <= |s.progmem|)
    ensures a < 0x8000 && ReadOk(s, a, n) ==> Block(s, a, n) == s.progmem[a..a + n]
    ensures a >= 0x8000 && a - 0x8000 < s.ramLen ==>
      (ReadOk(s, a, n) <==> a - 0x8000 + n <= s.ramLen)
      && (ReadOk(s, a, n) ==> Block(s, a, n) == s.file[s.envLen..][a - 0x8000..a - 0x8000 + n])
    ensures a >= 0xFC00 && a - 0x8000 >= s.ramLen ==>
      (ReadOk(s, a, n) <==> a - 0xFC00 < s.envLen && a - 0xFC00 + n <= |s.file|)
      && (ReadOk(s, a, n) ==> Block(s, a, n) == s.file[a - 0xFC00..a - 0xFC00 + n])
    ensures a >= 0x8000 && a - 0x8000 >= s.ramLen && a < 0xFC00 ==> !ReadOk(s, a, n)
  {
  }

  /** Readable neighbours on the same side of each boundary can be read as a block. */
  lemma BlockReadable(s: Space, a: Word, n: nat)
    requires Proper(s) && n > 0 && s.ramLen <= ENV_INDEX && a + n <= 0x1_0000
    requires (a + n <= PROGMEM_END) || (RAM_ADDR <= a && a + n <= ENV_ADDR) || ENV_ADDR <= a
    requires forall x: Word :: a <= x < a + n ==> Readable(s, x)
    ensures ReadOk(s, a, n)
  {
    var last: Word := a + n - 1;
    assert Readable(s, a) && Readable(s, last);
  }

  // Writing a block.

  /** Where a write goes: in place, to the environment data, to RAM that must grow, or nowhere. */
  datatype Place = Plain | Env | Grow | Refused

  function WhereTo(s: Space, a: Word, n: nat): Place {
    if a < RAM_ADDR then Refused
    else if a - RAM_ADDR + n < s.ramLen then Plain
    else if a >= ENV_ADDR then (if n == 0 || a - ENV_ADDR + n <= |s.file| then Env else Refused)
    else Grow
  }

  predicate ExtraTried(extra: nat) {
    extra == 16 || extra == 8 || extra == 4 || extra == 2 || extra == 1
  }

  /** The RAM length after growing for a write, with the extra room that could be had. */
  function GrownLen(a: Word, n: nat, extra: nat): nat
    requires a >= RAM_ADDR && extra > 0
  {
    a - RAM_ADDR + n + extra - 1
  }

  /** `fill` is what the file system leaves in the bytes a file gains. */
  predicate Fills(s: Space, a: Word, n: nat, extra: nat, fill: seq<Byte>) {
    WhereTo(s, a, n).Grow? ==> ExtraTried(extra) && |fill| == GrownLen(a, n, extra) - s.ramLen
  }

  /** The lengths of RAM and of its file are kept in 16 bits, whatever room they are given. */
  predicate LengthsFit(s: Space, a: Word, n: nat) {
    s.envLen + a + n + 15 < RAM_ADDR + 0x1_0000
  }

  function Written(s: Space, a: Word, data: seq<Byte>, extra: nat, fill: seq<Byte>): (t: Space)
    requires Proper(s) && !WhereTo(s, a, |data|).Refused? && (a < ENV_ADDR ==> LengthsFit(s, a, |data|))
    requires Fills(s, a, |data|, extra, fill)
    ensures Proper(t) && t.progmem == s.progmem && t.envLen == s.envLen
    ensures t.ramLen == if WhereTo(s, a, |data|).Grow? then GrownLen(a, |data|, extra) else s.ramLen
    ensures t.ramLen >= s.ramLen
  {
    match WhereTo(s, a, |data|)
    case Plain => s.(file := Overlay(s.file, s.envLen + (a - RAM_ADDR), data))
    case Env => s.(file := Overlay(s.file, a - ENV_ADDR, data))
    case Grow =>
      s.(file := Overlay(s.file + fill, s.envLen + (a - RAM_ADDR), data), ramLen := GrownLen(a, |data|, extra))
  }

  /**
   * Where a written block goes, and what becomes of RAM: within RAM and short of its end it stays as long, past it it
   * gains what the block needs and the room that could be had; the environment data is written where it is.
   */
  lemma WrittenIs(s: Space, a: Word, data: seq<Byte>, extra: nat, fill: seq<Byte>)
    requires Proper(s) && (a < ENV_ADDR ==> LengthsFit(s, a, |data|)) && Fills(s, a, |data|, extra, fill)
    ensures WhereTo(s, a, |data|).Refused? <==>
      a < 0x8000 || (a >= 0xFC00 && a - 0x8000 + |data| >= s.ramLen && data != [] && a - 0xFC00 + |data| > |s.file|)
    ensures !WhereTo(s, a, |data|).Refused? ==>
      var t, n := Written(s, a, data, extra, fill), |data|;
      if a - 0x8000 + n < s.ramLen then
        t.ramLen == s.ramLen && t.file == Overlay(s.file, s.envLen + (a - 0x8000), data)
      else if a >= 0xFC00 then t.ramLen == s.ramLen && t.file == Overlay(s.file, a - 0xFC00, data)
      else t.ramLen == a - 0x8000 + n + extra - 1 && t.file[..s.envLen] == s.file[..s.envLen]
           && t.file[s.envLen + (a - 0x8000)..s.envLen + (a - 0x8000) + n] == data
  {
  }

  /** Every byte outside the written range that could be read before reads the same. */
  ghost predicate OthersKept(s: Space, t: Space, a: Word, n: nat)
    requires Proper(s) && Proper(t)
  {
    forall x: Word :: Readable(s, x) && !(a <= x < a + n) ==> Readable(t, x) && Peek(t, x) == Peek(s, x)
  }

  /** The write touches no address but its own, whatever it writes and however the file grows. */
  ghost predicate AlwaysKeepsOthers(s: Space, a: Word, n: nat)
    requires Proper(s) && !WhereTo(s, a, n).Refused? && a + n <= 0x1_0000
  {
    forall data, extra, fill | |data| == n && Fills(s, a, n, extra, fill) ::
      OthersKept(s, Written(s, a, data, extra, fill), a, n)
  }

  /** Growth stays clear of readable environment data; environment writes stay within it. */
  predicate Harmless(s: Space, a: Word, n: nat) {
    match WhereTo(s, a, n)
    case Plain => true
    case Env => a - ENV_ADDR + n <= s.envLen || n == 0
    case Grow => a + n + 15 <= ENV_ADDR || s.envLen == 0 || a + n >= ENV_ADDR + s.envLen
    case Refused => true
  }

  lemma HarmlessKeeps(s: Space, a: Word, data: seq<Byte>, extra: nat, fill: seq<Byte>)
    requires Proper(s) && !WhereTo(s, a, |data|).Refused? && a + |data| <= 0x1_0000
    requires Fills(s, a, |data|, extra, fill) && Harmless(s, a, |data|)
    ensures OthersKept(s, Written(s, a, data, extra, fill), a, |data|)
  {
    var t := Written(s, a, data, extra, fill);
    forall x: Word | Readable(s, x) && !(a <= x < a + |data|)
      ensures Readable(t, x) && Peek(t, x) == Peek(s, x)
    {
    }
  }

  /** A fill, and data, of bytes other than a given one. */
  function Unlike(n: nat, b: Byte): (r: seq<Byte>)
    ensures |r| == n && forall k :: 0 <= k < n ==> r[k] != b
  {
    seq(n, i => if b == 0 then 1 else 0)
  }

  lemma HarmfulSpills(s: Space, a: Word, n: nat)
    requires Proper(s) && WhereTo(s, a, n).Env? && a + n <= 0x1_0000 && !Harmless(s, a, n)
    ensures !AlwaysKeepsOthers(s, a, n)
  {
    var k := if a - ENV_ADDR < s.envLen then s.envLen else a - ENV_ADDR;
    var x: Word := RAM_ADDR + (k - s.envLen);
    var data := Unlike(n, s.file[k]);
    var t := Written(s, a, data, 1, []);
    assert t.file[k] != s.file[k];
    assert Readable(s, x) && Peek(t, x) != Peek(s, x);
    assert Fills(s, a, n, 1, []) && !OthersKept(s, t, a, n);
  }

  lemma HarmfulShadows(s: Space, a: Word, n: nat)
    requires Proper(s) && WhereTo(s, a, n).Grow? && a + n <= 0x1_0000 && !Harmless(s, a, n)
    ensures !AlwaysKeepsOthers(s, a, n)
  {
    var x: Word := if a + n < ENV_ADDR then ENV_ADDR else a + n;
    assert Readable(s, x);
    var fill := Unlike(GrownLen(a, n, 16) - s.ramLen, Peek(s, x));
    var data := Unlike(n, 0);
    var t := Written(s, a, data, 16, fill);
    var at := s.envLen + (x - RAM_ADDR);
    assert (s.file + fill)[at] == fill[at - |s.file|];
    assert t.file[at] == fill[at - |s.file|];
    assert Readable(t, x) && Peek(t, x) != Peek(s, x);
    assert Fills(s, a, n, 16, fill) && !OthersKept(s, t, a, n);
  }

  /** Exactly the harmless writes leave every other byte alone. */
  lemma KeepsOthersExactly(s: Space, a: Word, n: nat)
    requires Proper(s) && !WhereTo(s, a, n).Refused? && a + n <= 0x1_0000
    ensures AlwaysKeepsOthers(s, a, n) <==> Harmless(s, a, n)
  {
    hide OthersKept, Written;
    if Harmless(s, a, n) {
      forall data: seq<Byte>, extra, fill | |data| == n && Fills(s, a, n, extra, fill)
        ensures OthersKept(s, Written(s, a, data, extra, fill), a, n)
      {
        HarmlessKeeps(s, a, data, extra, fill);
      }
    } else if WhereTo(s, a, n).Env? {
      HarmfulSpills(s, a, n);
    } else {
      HarmfulShadows(s, a, n);
    }
  }

  /** Writing one byte just below the environment window can overwrite its first byte. */
  lemma ShadowExample(s: Space)
    requires Proper(s) && s.ramLen <= 0xFBF5 - RAM_ADDR && s.envLen >= 1
    ensures !AlwaysKeepsOthers(s, 0xFBF5, 1)
  {
    KeepsOthersExactly(s, 0xFBF5, 1);
  }

  /** A write is read from where it went, unless RAM or the end of the environment data is in the way. */
  predicate Visible(s: Space, a: Word, n: nat) {
    WhereTo(s, a, n).Env? ==> s.ramLen <= a - RAM_ADDR && a - ENV_ADDR < s.envLen
  }

  lemma VisibleReadsBack(s: Space, a: Word, data: seq<Byte>, extra: nat, fill: seq<Byte>)
    requires Proper(s) && !WhereTo(s, a, |data|).Refused? && a + |data| <= 0x1_0000 && |data| > 0
    requires Fills(s, a, |data|, extra, fill) && Visible(s, a, |data|)
    ensures ReadsBack(Written(s, a, data, extra, fill), a, data)
  {
  }

  predicate ReadsBack(t: Space, a: Word, data: seq<Byte>) {
    ReadOk(t, a, |data|) && Block(t, a, |data|) == data
  }

  ghost predicate AlwaysReadsBack(s: Space, a: Word, n: nat)
    requires Proper(s) && !WhereTo(s, a, n).Refused? && a + n <= 0x1_0000
  {
    forall data, extra, fill | |data| == n && Fills(s, a, n, extra, fill) ::
      ReadsBack(Written(s, a, data, extra, fill), a, data)
  }

  lemma HiddenIsLost(s: Space, a: Word, n: nat)
    requires Proper(s) && !WhereTo(s, a, n).Refused? && a + n <= 0x1_0000 && n > 0 && !Visible(s, a, n)
    ensures !AlwaysReadsBack(s, a, n)
  {
    var old0 := if a - RAM_ADDR < s.ramLen then s.file[s.envLen + (a - RAM_ADDR)] else 0;
    var data := Unlike(n, old0);
    var t := Written(s, a, data, 1, []);
    if ReadOk(t, a, n) {
      assert Block(t, a, n)[0] == t.file[s.envLen + (a - RAM_ADDR)] == old0;
    }
    assert Fills(s, a, n, 1, []) && !ReadsBack(t, a, data);
  }

  /** Exactly the visible writes always read back as written. */
  lemma ReadsBackExactly(s: Space, a: Word, n: nat)
    requires Proper(s) && !WhereTo(s, a, n).Refused? && a + n <= 0x1_0000 && n > 0
    ensures AlwaysReadsBack(s, a, n) <==> Visible(s, a, n)
  {
    hide ReadsBack, Written;
    if Visible(s, a, n) {
      forall data: seq<Byte>, extra, fill | |data| == n && Fills(s, a, n, extra, fill)
        ensures ReadsBack(Written(s, a, data, extra, fill), a, data)
      {
        VisibleReadsBack(s, a, data, extra, fill);
      }
    } else {
      HiddenIsLost(s, a, n);
    }
  }

  /** Writing one byte just past the environment data goes to RAM's first byte, and is never read back. */
  lemma EnvEndExample(s: Space)
    requires Proper(s) && 0 < s.ramLen <= ENV_INDEX
    ensures !WhereTo(s, ENV_ADDR + s.envLen, 1).Refused?
    ensures !AlwaysReadsBack(s, ENV_ADDR + s.envLen, 1) && !AlwaysKeepsOthers(s, ENV_ADDR + s.envLen, 1)
  {
    ReadsBackExactly(s, ENV_ADDR + s.envLen, 1);
    KeepsOthersExactly(s, ENV_ADDR + s.envLen, 1);
  }

  /** The bytes of a harmless write, one by one. */
  lemma WrittenBytes(s: Space, a: Word, data: seq<Byte>, extra: nat, fill: seq<Byte>, k: nat)
    requires Proper(s) && !WhereTo(s, a, |data|).Refused? && a + |data| <= 0x1_0000 && k < |data|
    requires Fills(s, a, |data|, extra, fill) && Harmless(s, a, |data|)
    requires s.ramLen <= ENV_INDEX && (a < ENV_ADDR ==> a + |data| <= ENV_ADDR)
    ensures var t := Written(s, a, data, extra, fill);
            Readable(t, a + k) && Peek(t, a + k) == data[k]
  {
  }

  // Copying a range of memory chunk by chunk.

  /** The destination lies in the RAM there is, with a byte to spare. */
  predicate RamReaches(s: Space, dest: Word, size: nat) {
    RAM_ADDR <= dest && dest - RAM_ADDR + size < s.ramLen
  }

  /** The ranges a copy may use: the source inside RAM and environment data, the destination in one of them. */
  predicate CopyRanges(s: Space, dest: Word, src: Word, size: nat) {
    && s.ramLen <= ENV_INDEX && src + size <= ENV_ADDR + s.envLen
    && (dest + size + 15 <= ENV_ADDR || (ENV_ADDR <= dest && dest + size <= ENV_ADDR + s.envLen)
        || RamReaches(s, dest, size))
  }

  /** A source that is one block of readable bytes, and RAM that need not grow unless it can. */
  ghost predicate CopyReady(s: Space, dest: Word, src: Word, size: nat, roomy: bool) {
    && RAM_ADDR <= dest && (RamReaches(s, dest, size) || ENV_ADDR <= dest || roomy) && src + size <= 0x1_0000
    && (src + size <= PROGMEM_END || (RAM_ADDR <= src && src + size <= ENV_ADDR) || ENV_ADDR <= src)
    && forall x: Word :: src <= x < src + size ==> Readable(s, x)
  }

  ghost predicate CopyCannotFail(s: Space, dest: Word, src: Word, size: nat, roomy: bool) {
    CopyRanges(s, dest, src, size) && CopyReady(s, dest, src, size, roomy)
  }

  /** Byte `k` of the destination holds what the source held at first. */
  predicate CopiedAt(s0: Space, s: Space, dest: Word, src: Word, k: nat)
    requires Proper(s0) && Proper(s)
  {
    && dest + k < 0x1_0000 && src + k < 0x1_0000
    && Readable(s0, src + k) && Readable(s, dest + k) && Peek(s, dest + k) == Peek(s0, src + k)
  }

  /** Bytes `p` up to `q` are copied. */
  ghost predicate Copied(s0: Space, s: Space, dest: Word, src: Word, p: nat, q: nat)
    requires Proper(s0) && Proper(s)
  {
    forall k: nat | p <= k < q :: CopiedAt(s0, s, dest, src, k)
  }

  /** The state of a copy with bytes `p` up to `q` done. */
  ghost predicate Copying(s0: Space, s: Space, dest: Word, src: Word, size: nat, p: nat, q: nat) {
    && Proper(s0) && Proper(s) && p <= q <= size
    && CopyRanges(s0, dest, src, size) && CopyRanges(s, dest, src, size)
    && s.envLen == s0.envLen && s.progmem == s0.progmem && s.ramLen >= s0.ramLen
    && Copied(s0, s, dest, src, p, q)
    && (p < q ==> dest + p < 0x1_0000) && (p < q ==> OthersKept(s0, s, dest + p, q - p)) && (p == q ==> s == s0)
  }

  lemma ChunkUntouched(s0: Space, s: Space, dest: Word, src: Word, size: nat, p: nat, q: nat, x: Word)
    requires Copying(s0, s, dest, src, size, p, q)
    requires !(dest + p <= x < dest + q) && Readable(s0, x)
    ensures Readable(s, x) && Peek(s, x) == Peek(s0, x)
  {
  }

  /** RAM that grew made no other byte readable. */
  lemma StillAsItWas(s0: Space, s: Space, x: Word)
    requires s.envLen == s0.envLen && s.progmem == s0.progmem && s0.ramLen <= s.ramLen <= ENV_INDEX
    requires s.ramLen == s0.ramLen || x >= ENV_ADDR || x < RAM_ADDR + s0.ramLen
    requires Readable(s, x)
    ensures Readable(s0, x)
  {
  }

  lemma ChunkHarmless(s: Space, dest: Word, src: Word, size: nat, i: nat, data: seq<Byte>, extra: nat, fill: seq<Byte>)
    requires Proper(s) && CopyRanges(s, dest, src, size) && i + |data| <= size && dest + i < 0x1_0000
    requires !WhereTo(s, dest + i, |data|).Refused? && Fills(s, dest + i, |data|, extra, fill)
    ensures Harmless(s, dest + i, |data|) && CopyRanges(Written(s, dest + i, data, extra, fill), dest, src, size)
    ensures dest + i < ENV_ADDR ==> dest + i + |data| <= ENV_ADDR
  {
  }

  /** A chunk about to be copied: its source is still as it was, its destination can be written. */
  ghost predicate ChunkFits(s0: Space, s: Space, dest: Word, src: Word, size: nat, p: nat, q: nat, i: nat, n: nat) {
    && Copying(s0, s, dest, src, size, p, q)
    && n > 0 && i + n <= size && (p == q || i + n == p || i == q) && src + i < 0x1_0000 && dest + i < 0x1_0000
    && (src + i + n <= dest + p || dest + q <= src + i || p == q)
    && (s.ramLen == s0.ramLen || src + i >= ENV_ADDR || src + i + n <= RAM_ADDR + s0.ramLen)
    && ReadOk(s, src + i, n) && !WhereTo(s, dest + i, n).Refused?
  }

  lemma ChunkByte(s0: Space, s: Space, dest: Word, src: Word, size: nat, p: nat, q: nat,
                  i: nat, n: nat, extra: nat, fill: seq<Byte>, k: nat)
    requires ChunkFits(s0, s, dest, src, size, p, q, i, n) && Fills(s, dest + i, n, extra, fill) && i <= k < i + n
    ensures CopiedAt(s0, Written(s, dest + i, Block(s, src + i, n), extra, fill), dest, src, k)
  {
    hide Peek, Written, OthersKept, Copied, Readable, Block, ReadOk, WhereTo, Fills, Harmless;
    var data := Block(s, src + i, n);
    ChunkHarmless(s, dest, src, size, i, data, extra, fill);
    BlockBytes(s, src + i, n, k - i);
    StillAsItWas(s0, s, src + k);
    WrittenBytes(s, dest + i, data, extra, fill, k - i);
    ChunkUntouched(s0, s, dest, src, size, p, q, src + k);
  }

  /** A chunk whose source is still as it was can be copied next to what is done. */
  lemma ChunkCopied(s0: Space, s: Space, dest: Word, src: Word, size: nat, p: nat, q: nat,
                    i: nat, n: nat, extra: nat, fill: seq<Byte>)
    requires ChunkFits(s0, s, dest, src, size, p, q, i, n) && Fills(s, dest + i, n, extra, fill)
    ensures var t := Written(s, dest + i, Block(s, src + i, n), extra, fill);
            && CopyRanges(t, dest, src, size)
            && OthersKept(s, t, dest + i, n)
            && Copied(s0, t, dest, src, i, i + n)
  {
    hide Peek, Written, OthersKept, Readable, Block, ReadOk, WhereTo, Fills, Harmless, CopiedAt;
    var data := Block(s, src + i, n);
    var t := Written(s, dest + i, data, extra, fill);
    ChunkHarmless(s, dest, src, size, i, data, extra, fill);
    HarmlessKeeps(s, dest + i, data, extra, fill);
    forall k: nat | i <= k < i + n
      ensures CopiedAt(s0, t, dest, src, k)
    {
      ChunkByte(s0, s, dest, src, size, p, q, i, n, extra, fill, k);
    }
  }

  /** What was copied before a chunk stays copied after it. */
  lemma ChunkJoins(s0: Space, s: Space, t: Space, dest: Word, src: Word, size: nat, p: nat, q: nat, i: nat, n: nat)
    requires Copying(s0, s, dest, src, size, p, q)
    requires n > 0 && i + n <= size && (p == q || i + n == p || i == q) && dest + i < 0x1_0000
    requires Proper(t) && t.envLen == s.envLen && t.progmem == s.progmem && t.ramLen >= s.ramLen
    requires CopyRanges(t, dest, src, size) && OthersKept(s, t, dest + i, n) && Copied(s0, t, dest, src, i, i + n)
    ensures p == q ==> Copying(s0, t, dest, src, size, i, i + n)
    ensures p < q && i == q ==> Copying(s0, t, dest, src, size, p, i + n)
    ensures p < q && i + n == p ==> Copying(s0, t, dest, src, size, i, q)
  {
    hide Peek, Readable;
    if p < q {
      var a, b := if i == q then p else i, if i == q then i + n else q;
      forall k: nat | a <= k < b
        ensures CopiedAt(s0, t, dest, src, k)
      {
        if p <= k < q {
          assert CopiedAt(s0, s, dest, src, k);
        } else {
          assert i <= k < i + n;
        }
      }
      forall x: Word | Readable(s0, x) && !(dest + a <= x < dest + b)
        ensures Readable(t, x) && Peek(t, x) == Peek(s0, x)
      {
        ChunkUntouched(s0, s, dest, src, size, p, q, x);
      }
    }
  }

  /** A ready copy neither fails to read nor has to grow. */
  lemma ChunkReady(s0: Space, s: Space, dest: Word, src: Word, size: nat, p: nat, q: nat, i: nat, n: nat, roomy: bool)
    requires Copying(s0, s, dest, src, size, p, q) && CopyReady(s0, dest, src, size, roomy)
    requires n > 0 && i + n <= size && src + i < 0x1_0000 && dest + i < 0x1_0000
    requires src + i + n <= dest + p || dest + q <= src + i || p == q
    ensures ReadOk(s, src + i, n) && !WhereTo(s, dest + i, n).Refused?
    ensures WhereTo(s, dest + i, n).Grow? ==> roomy && dest + i + n <= ENV_ADDR
  {
    hide Peek, Readable, Copied, OthersKept, ReadOk;
    forall x: Word | src + i <= x < src + i + n
      ensures Readable(s, x)
    {
      assert src <= x < src + size;
      ChunkUntouched(s0, s, dest, src, size, p, q, x);
    }
    BlockReadable(s, src + i, n);
  }

  /** Going up, RAM only grows once the source is past it. */
  lemma UpwardStep(s0: Space, s: Space, dest: Word, src: Word, size: nat, i: nat, n: nat, extra: nat, fill: seq<Byte>)
    requires Copying(s0, s, dest, src, size, 0, i) && n > 0 && i + n <= size && dest < src
    requires src + i < 0x1_0000 && dest + i < 0x1_0000
    requires s.ramLen == s0.ramLen || src + i >= ENV_ADDR
    requires ReadOk(s, src + i, n) && !WhereTo(s, dest + i, n).Refused? && Fills(s, dest + i, n, extra, fill)
    ensures var t := Written(s, dest + i, Block(s, src + i, n), extra, fill);
            && Copying(s0, t, dest, src, size, 0, i + n)
            && (t.ramLen == s0.ramLen || src + i + n >= ENV_ADDR)
  {
    hide Peek, OthersKept, Readable, Block, Fills, Copied, Written;
    var t := Written(s, dest + i, Block(s, src + i, n), extra, fill);
    ChunkCopied(s0, s, dest, src, size, 0, i, i, n, extra, fill);
    ChunkJoins(s0, s, t, dest, src, size, 0, i, i, n);
  }

  /** Going down, the source bytes still to come lie below any RAM that was gained. */
  lemma DownwardStep(s0: Space, s: Space, dest: Word, src: Word, size: nat, q: nat, n: nat, extra: nat, fill: seq<Byte>)
    requires n > 0 && q + n <= size && Copying(s0, s, dest, src, size, q + n, size) && src <= dest
    requires src + q < 0x1_0000 && dest + q < 0x1_0000
    requires s.ramLen == s0.ramLen || src + q + n <= RAM_ADDR + s0.ramLen
    requires ReadOk(s, src + q, n) && !WhereTo(s, dest + q, n).Refused? && Fills(s, dest + q, n, extra, fill)
    ensures var t := Written(s, dest + q, Block(s, src + q, n), extra, fill);
            && Copying(s0, t, dest, src, size, q, size)
            && (t.ramLen == s0.ramLen || src + q <= RAM_ADDR + s0.ramLen)
  {
    hide Peek, OthersKept, Readable, Block, Fills, Copied, Written;
    var t := Written(s, dest + q, Block(s, src + q, n), extra, fill);
    ChunkCopied(s0, s, dest, src, size, q + n, size, q, n, extra, fill);
    ChunkJoins(s0, s, t, dest, src, size, q + n, size, q, n);
  }

  /** A block moved below the environment window arrives, and changes nothing else, however the file grows. */
  ghost predicate AlwaysMoves(s: Space, dest: Word, src: Word, n: nat)
    requires Proper(s) && RAM_ADDR <= dest && dest + n <= ENV_ADDR && ReadOk(s, src, n)
  {
    forall extra, fill | Fills(s, dest, n, extra, fill) ::
      Moved(s, Written(s, dest, Block(s, src, n), extra, fill), dest, src, n)
  }

  ghost predicate Moved(s: Space, t: Space, dest: Word, src: Word, n: nat)
    requires Proper(s) && Proper(t)
  {
    Copied(s, t, dest, src, 0, n) && OthersKept(s, t, dest, n)
  }

  /** Next to the window a block is moved safely exactly when RAM need not grow, or has 15 bytes to grow into. */
  lemma MovesExactly(s: Space, dest: Word, src: Word, n: nat)
    requires Proper(s) && RAM_ADDR <= dest && dest + n <= ENV_ADDR && ReadOk(s, src, n)
    requires n > 0 && s.envLen > 0 && s.ramLen <= ENV_INDEX && src + n <= ENV_ADDR + s.envLen
    ensures AlwaysMoves(s, dest, src, n) <==> RamReaches(s, dest, n) || dest + n + 15 <= ENV_ADDR
  {
    hide Written, Block, OthersKept;
    if RamReaches(s, dest, n) || dest + n + 15 <= ENV_ADDR {
      forall extra, fill | Fills(s, dest, n, extra, fill)
        ensures Moved(s, Written(s, dest, Block(s, src, n), extra, fill), dest, src, n)
      {
        BlockMoved(s, dest, src, n, extra, fill);
      }
    } else {
      BlockShadows(s, dest, src, n);
    }
  }

  lemma BlockMoved(s: Space, dest: Word, src: Word, n: nat, extra: nat, fill: seq<Byte>)
    requires Proper(s) && RAM_ADDR <= dest && dest + n <= ENV_ADDR && ReadOk(s, src, n)
    requires s.ramLen <= ENV_INDEX && src + n <= ENV_ADDR + s.envLen && Fills(s, dest, n, extra, fill)
    requires RamReaches(s, dest, n) || dest + n + 15 <= ENV_ADDR
    ensures Moved(s, Written(s, dest, Block(s, src, n), extra, fill), dest, src, n)
  {
    hide Written, Block, OthersKept, Readable, ReadOk;
    var data := Block(s, src, n);
    var t := Written(s, dest, data, extra, fill);
    HarmlessKeeps(s, dest, data, extra, fill);
    forall k: nat | k < n
      ensures CopiedAt(s, t, dest, src, k)
    {
      BlockBytes(s, src, n, k);
      WrittenBytes(s, dest, data, extra, fill, k);
    }
  }

  lemma BlockShadows(s: Space, dest: Word, src: Word, n: nat)
    requires Proper(s) && RAM_ADDR <= dest && dest + n <= ENV_ADDR && ReadOk(s, src, n)
    requires n > 0 && s.envLen > 0 && s.ramLen <= ENV_INDEX && src + n <= ENV_ADDR + s.envLen
    requires !RamReaches(s, dest, n) && dest + n + 15 > ENV_ADDR
    ensures !AlwaysMoves(s, dest, src, n)
  {
    var fill := Unlike(GrownLen(dest, n, 16) - s.ramLen, Peek(s, ENV_ADDR));
    var t := Written(s, dest, Block(s, src, n), 16, fill);
    var at := s.envLen + ENV_INDEX;
    assert (s.file + fill)[at] == fill[at - |s.file|];
    assert t.file[at] == fill[at - |s.file|];
    assert Readable(s, ENV_ADDR) && Peek(t, ENV_ADDR) != Peek(s, ENV_ADDR);
    assert Fills(s, dest, n, 16, fill) && !OthersKept(s, t, dest, n);
    assert !Moved(s, t, dest, src, n);
  }
}
