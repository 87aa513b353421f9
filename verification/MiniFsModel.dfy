/**
 What a MiniFs volume means: the files it holds, where their extents lie, and how both are written
 into the bytes of the volume.
 */
module MiniFsModel {
  import opened Words

  const FACTOR := 128        // block size
  const MAX_FILES := 126     // header slots
  const HEADER_BASE := 2     // address of the first header slot
  const PATH_MAX := 127
  const MAGIC := 53
  const FITS_MAX := 32640    // 255 blocks, the most an 8-bit size factor can hold

  /** A file: its first block, the number of blocks reserved for it, its name and its content. */
  datatype File = File(off: Byte, size: Byte, name: seq<Byte>, content: seq<Byte>)

  predicate NameOk(name: seq<Byte>) {
    |name| < PATH_MAX && forall k :: 0 <= k < |name| ==> name[k] != 0
  }

  /** Bytes a file needs: length, size factor, name, terminator, content. */
  function TotalLen(f: File): nat {
    4 + |f.name| + |f.content|
  }

  function Blocks(totalLen: nat): nat {
    (totalLen + FACTOR - 1) / FACTOR
  }

  /** The first byte of a file's first block. */
  function Base(f: File): nat {
    f.off as nat * FACTOR
  }

  /** Where a file's content starts. */
  function ContentBase(f: File): nat {
    Base(f) + 4 + |f.name|
  }

  /** The block after a file's last one. */
  function End(f: File): nat {
    f.off as nat + f.size as nat
  }

  predicate FileOk(f: File) {
    f.off != 0 && NameOk(f.name) && TotalLen(f) <= f.size as nat * FACTOR
  }

  /** Length and size factor as they are stored. */
  function LengthHead(total: Word, size: Byte): (r: seq<Byte>)
    ensures |r| == 3
  {
    [Hi(total), Lo(total), size]
  }

  /** Length, size factor, name and terminator as they are stored. */
  function FileHead(total: Word, size: Byte, name: seq<Byte>): (r: seq<Byte>)
    ensures |r| == 4 + |name|
  {
    LengthHead(total, size) + name + [0]
  }

  /** The bytes in front of a file's content. */
  function Prefix(f: File): (r: seq<Byte>)
    requires FileOk(f)
    ensures |r| == 4 + |f.name|
  {
    FileHead(TotalLen(f), f.size, f.name)
  }

  predicate StoredAt(s: seq<Byte>, f: File) {
    && FileOk(f)
    && End(f) * FACTOR <= |s|
    && s[Base(f)..ContentBase(f)] == Prefix(f)
    && s[ContentBase(f)..Base(f) + TotalLen(f)] == f.content
  }

  predicate DistinctNames(files: seq<File>) {
    forall i, j :: 0 <= i < j < |files| ==> files[i].name != files[j].name
  }

  predicate Ascending(files: seq<File>) {
    forall i, j :: 0 <= i < j < |files| ==> End(files[i]) <= files[j].off as nat
  }

  /** Extents ascend, are disjoint, leave the header block alone and end inside the volume. */
  predicate Layout(files: seq<File>, total: nat) {
    && |files| <= MAX_FILES
    && (forall i :: 0 <= i < |files| ==> FileOk(files[i]) && End(files[i]) <= total)
    && Ascending(files)
    && DistinctNames(files)
  }

  /** Header slot `i`: the first block of file `i`, or 0 past the last file. */
  function Slot(files: seq<File>, i: nat): Byte {
    if i < |files| then files[i].off else 0
  }

  function Header(files: seq<File>): (h: seq<Byte>)
    ensures |h| == MAX_FILES
    ensures forall i :: 0 <= i < MAX_FILES ==> h[i] == Slot(files, i)
  {
    seq(MAX_FILES, i requires 0 <= i < MAX_FILES => Slot(files, i))
  }

  /** The header part of a volume's bytes. */
  function HeaderBytes(s: seq<Byte>): (h: seq<Byte>)
    requires |s| >= FACTOR
    ensures |h| == MAX_FILES
  {
    s[HEADER_BASE..FACTOR]
  }

  /** The bytes `s` are a volume of `total` blocks holding exactly `files`. */
  predicate Represents(s: seq<Byte>, files: seq<File>, total: nat) {
    && 1 <= total <= 256
    && total * FACTOR <= |s|
    && s[0] == MAGIC
    && s[1] as nat == total - 1
    && Layout(files, total)
    && HeaderBytes(s) == Header(files)
    && (forall i :: 0 <= i < |files| ==> StoredAt(s, files[i]))
  }

  /** The position of the file called `name`, or `|files|`. */
  function Find(files: seq<File>, name: seq<Byte>): (i: nat)
    ensures i <= |files|
    ensures i < |files| ==> files[i].name == name
    ensures forall j :: 0 <= j < i ==> files[j].name != name
  {
    if files == [] || files[0].name == name then 0 else 1 + Find(files[1..], name)
  }

  /** The abstract file system: names to contents. */
  function Contents(files: seq<File>): map<seq<Byte>, seq<Byte>> {
    map name | name in (set f | f in files :: f.name) && Find(files, name) < |files| :: files[Find(files, name)].content
  }

  /** Blocks `from .. from + size` lie in the volume after the header and belong to no file. */
  predicate FreeRegion(files: seq<File>, total: nat, from: nat, size: nat) {
    && 1 <= from && from + size <= total
    && forall i :: 0 <= i < |files| ==> from + size <= files[i].off as nat || End(files[i]) <= from
  }

  ghost predicate HasFreeRegion(files: seq<File>, total: nat, size: nat) {
    exists g :: FreeRegion(files, total, g, size)
  }

  /** No free region of `size` blocks starts below block `bound`. */
  predicate NoneBefore(files: seq<File>, total: nat, bound: nat, size: nat) {
    forall g :: 0 <= g < bound ==> !FreeRegion(files, total, g, size)
  }

  /** `r` is the lowest free region, or 0 when there is none; no blocks at all are free just after the header. */
  ghost predicate FirstFit(files: seq<File>, total: nat, size: nat, r: nat) {
    if r != 0 then FreeRegion(files, total, r, size) && NoneBefore(files, total, r, size)
    else !HasFreeRegion(files, total, size)
  }

  /** Where the gap after file `i` ends: the next file, or the end of the volume. */
  function GapEnd(files: seq<File>, total: nat, i: nat): nat
    requires i < |files|
  {
    if i + 1 < |files| then files[i + 1].off as nat else total
  }

  /** A request whose size factor fits its 8-bit field. */
  predicate Fits(name: seq<Byte>, contentLen: nat) {
    4 + |name| + contentLen <= FITS_MAX
  }

  /** The 16-bit total length and the 8-bit size factor computed for a file. */
  function StoredTotal(name: seq<Byte>, contentLen: nat): Word {
    (3 + |name| + 1 + contentLen) % 0x1_0000
  }

  function SizeFactorFor(total: Word): Byte {
    LowByte((total + FACTOR - 1) / FACTOR)
  }

  /** What is recorded of a file's length and of the least number of blocks for it: their lowest 16 and 8 bits. */
  lemma RecordedCut(name: seq<Byte>, contentLen: nat, total: Word)
    ensures exists k: nat :: StoredTotal(name, contentLen) + 0x1_0000 * k == 4 + |name| + contentLen
    ensures exists b: nat, k: nat ::
              SizeFactorFor(total) as nat + 0x100 * k == b && total <= 128 * b && (b > 0 ==> 128 * (b - 1) < total)
  {
    var n := 4 + |name| + contentLen;
    assert StoredTotal(name, contentLen) + 0x1_0000 * (n / 0x1_0000) == n;
    var b: nat, k: nat := (total + FACTOR - 1) / FACTOR, (total + FACTOR - 1) / FACTOR / 0x100;
    assert SizeFactorFor(total) as nat + 0x100 * k == b;
    assert total <= 128 * b && 128 * (b - 1) < total;
  }

  /** Exactly the requests that fit are recorded with their true length and enough blocks for it. */
  lemma SizeFactorExact(name: seq<Byte>, contentLen: nat)
    ensures Fits(name, contentLen) <==>
            StoredTotal(name, contentLen) == 4 + |name| + contentLen
            && StoredTotal(name, contentLen) <= SizeFactorFor(StoredTotal(name, contentLen)) as nat * FACTOR
    ensures Fits(name, contentLen) ==>
      SizeFactorFor(StoredTotal(name, contentLen)) as nat == Blocks(4 + |name| + contentLen)
  {
  }
}
