/** What a create or a resize leaves behind when the length does not fit 255 blocks: no volume at all. */
module BrokenVolumes {
  import opened Words
  import opened HeaderSort
  import opened MiniFsModel
  import opened FileList
  import opened VolumeBytes

  /** The bytes represent no list of files. */
  ghost predicate Broken(s: seq<Byte>) {
    forall files, total :: !Represents(s, files, total)
  }

  /** What is written in front of a file, as far as the volume goes. */
  ghost predicate HeadAt(s: seq<Byte>, at: nat, head: seq<Byte>) {
    forall k :: 0 <= k < |head| && at + k < |s| ==> s[at + k] == head[k]
  }

  /** A length and size factor that no file of that name can have. */
  predicate Impossible(total: Word, size: Byte, name: seq<Byte>) {
    size as nat * FACTOR < total || total < 4 + |name|
  }

  /** A request that does not fit is recorded with too few blocks, or with a length cut to less than its name. */
  lemma TooLongIsImpossible(name: seq<Byte>, contentLen: Word)
    requires !Fits(name, contentLen) && |name| < PATH_MAX
    ensures var total := StoredTotal(name, contentLen);
            && Impossible(total, SizeFactorFor(total), name)
            && (total < 4 + |name| || (total == 4 + |name| + contentLen && total > FITS_MAX))
  {
    var t := 4 + |name| + contentLen;
    if t < 0x1_0000 {
      var b := (t + FACTOR - 1) / FACTOR;
      assert 256 <= b <= 512;
    }
  }

  /** A file stored behind such a head would have its size, its length, and a name that ends too early. */
  lemma NoFileBehind(s: seq<Byte>, f: File, total: Word, size: Byte, name: seq<Byte>)
    requires StoredAt(s, f) && HeadAt(s, Base(f), FileHead(total, size, name)) && NameOk(name)
    ensures !Impossible(total, size, name)
  {
    hide StoredAt, FileHead, Hi, Lo, Join, FileOk, TotalLen, Base, HeadAt;
    StoredPrefix(s, f);
    StoredName(s, f);
    HeadStarts(total, size, name);
    var head, b := FileHead(total, size, name), Base(f);
    HeadByte(s, b, head, 0);
    HeadByte(s, b, head, 1);
    HeadByte(s, b, head, 2);
    assert total == TotalLen(f) && size == f.size;
    StoredFits(s, f);
    forall a | b + 3 <= a < b + 3 + |name| && a < |s|
      ensures s[a] != 0
    {
      HeadByte(s, b, head, a - b);
      assert head[3 + (a - b - 3)] == name[a - b - 3];
    }
    assert |f.name| >= |name|;
  }

  lemma HeadByte(s: seq<Byte>, at: nat, head: seq<Byte>, k: nat)
    requires HeadAt(s, at, head) && k < |head| && at + k < |s|
    ensures s[at + k] == head[k]
  {
  }

  lemma StoredFits(s: seq<Byte>, f: File)
    requires StoredAt(s, f)
    ensures 4 + |f.name| <= TotalLen(f) <= f.size as nat * FACTOR
  {
  }

  lemma HeadStarts(total: Word, size: Byte, name: seq<Byte>)
    ensures var head := FileHead(total, size, name);
            && head[0] == Hi(total) && head[1] == Lo(total) && head[2] == size && Join(head[0], head[1]) == total
            && forall k :: 0 <= k < |name| ==> head[3 + k] == name[k]
  {
  }

  /** A block in the header is the block of a stored file. */
  lemma SlotHolds(s: seq<Byte>, files: seq<File>, total: nat, i: nat)
    requires Represents(s, files, total) && i < MAX_FILES && s[HEADER_BASE + i] != 0
    ensures i < |files| && files[i].off == s[HEADER_BASE + i] && StoredAt(s, files[i])
  {
    HeaderAt(s, files, total, i);
    RepresentsStored(s, files, total, i);
  }

  /** A header slot that leads to such a head leaves no volume. */
  lemma BrokenBySlot(s: seq<Byte>, i: nat, off: Byte, total: Word, size: Byte, name: seq<Byte>)
    requires |s| >= FACTOR && i < MAX_FILES && off != 0 && s[HEADER_BASE + i] == off
    requires HeadAt(s, off as nat * FACTOR, FileHead(total, size, name)) && NameOk(name)
    requires Impossible(total, size, name)
    ensures Broken(s)
  {
    hide Represents, StoredAt, HeadAt, Impossible, FileHead, NameOk;
    forall files, n
      ensures !Represents(s, files, n)
    {
      if Represents(s, files, n) {
        SlotHolds(s, files, n, i);
        NoFileBehind(s, files[i], total, size, name);
      }
    }
  }

  // The writes.

  lemma HeadWritten(s: seq<Byte>, at: nat, head: seq<Byte>)
    ensures HeadAt(Overlay(s, at, head), at, head)
  {
  }

  /** Later writes elsewhere leave the head alone. */
  lemma HeadKept(s: seq<Byte>, at: nat, head: seq<Byte>, to: nat, data: seq<Byte>)
    requires HeadAt(s, at, head) && (to + |data| <= at || at + |head| <= to)
    ensures HeadAt(Overlay(s, to, data), at, head)
  {
  }

  /** Sorting the header leaves each block in some slot. */
  lemma SortedHolds(r: seq<Byte>, h: seq<Byte>, i: nat) returns (k: nat)
    requires |r| >= FACTOR && |h| == MAX_FILES && multiset(h) == multiset(HeaderBytes(r)) && i < MAX_FILES
    ensures k < MAX_FILES && Overlay(r, HEADER_BASE, h)[HEADER_BASE + k] == r[HEADER_BASE + i]
  {
    var x := r[HEADER_BASE + i];
    assert HeaderBytes(r)[i] == x;
    assert x in multiset(HeaderBytes(r));
    assert x in multiset(h);
    k :| 0 <= k < |h| && h[k] == x;
  }

  /** A create whose length does not fit: the slot and the head are written, the header is sorted. */
  lemma CreateBreaks(s: seq<Byte>, slot: nat, off: Byte, name: seq<Byte>, contentLen: Word, h: seq<Byte>)
    requires |s| >= FACTOR && slot < MAX_FILES && off != 0 && NameOk(name) && !Fits(name, contentLen)
    requires var total := StoredTotal(name, contentLen);
             var r := Overlay(Overlay(s, HEADER_BASE + slot, [off]), off as nat * FACTOR,
                              FileHead(total, SizeFactorFor(total), name));
             |h| == MAX_FILES && multiset(h) == multiset(HeaderBytes(r))
    ensures var total := StoredTotal(name, contentLen);
            var r := Overlay(Overlay(s, HEADER_BASE + slot, [off]), off as nat * FACTOR,
                             FileHead(total, SizeFactorFor(total), name));
            Broken(Overlay(r, HEADER_BASE, h))
  {
    hide Broken, HeadAt, Impossible, FileHead, StoredTotal, SizeFactorFor;
    var total := StoredTotal(name, contentLen);
    var size := SizeFactorFor(total);
    var head, at := FileHead(total, size, name), off as nat * FACTOR;
    var r := Overlay(Overlay(s, HEADER_BASE + slot, [off]), at, head);
    var k := SortedHolds(r, h, slot);
    HeadWritten(Overlay(s, HEADER_BASE + slot, [off]), at, head);
    HeadKept(r, at, head, HEADER_BASE, h);
    TooLongIsImpossible(name, contentLen);
    BrokenBySlot(Overlay(r, HEADER_BASE, h), k, off, total, size, name);
  }

  /** A new length and size factor in front of the name of file `i`, where it lies. */
  lemma ReheadBreaks(s: seq<Byte>, files: seq<File>, n: nat, i: nat, total: Word, size: Byte)
    requires Represents(s, files, n) && i < |files| && Impossible(total, size, files[i].name)
    ensures Broken(Overlay(s, Base(files[i]), LengthHead(total, size)))
  {
    RepresentsStored(s, files, n, i);
    RepresentsTotal(s, files, n);
    HeaderAt(s, files, n, i);
    var f := files[i];
    var t := Overlay(s, Base(f), LengthHead(total, size));
    StoredOff(s, f);
    hide Represents, Broken, Impossible;
    ReheadedHead(s, f, total, size);
    BrokenBySlot(t, i, f.off, total, size, f.name);
  }

  lemma ReheadedHead(s: seq<Byte>, f: File, total: Word, size: Byte)
    requires StoredAt(s, f)
    ensures HeadAt(Overlay(s, Base(f), LengthHead(total, size)), Base(f), FileHead(total, size, f.name))
  {
    StoredName(s, f);
  }

  lemma WrittenSlot(s: seq<Byte>, slot: nat, off: Byte)
    requires |s| >= FACTOR && slot < MAX_FILES
    ensures Overlay(s, HEADER_BASE + slot, [off])[HEADER_BASE + slot] == off
  {
  }

  /** A moving resize whose length does not fit: the head and the old content are written, and the slot changed. */
  lemma MoveBreaks(s: seq<Byte>, slot: nat, off: Byte, total: Word, size: Byte, name: seq<Byte>, content: seq<Byte>,
                   h: seq<Byte>)
    requires |s| >= FACTOR && slot < MAX_FILES && off != 0 && NameOk(name) && Impossible(total, size, name)
    requires |h| == MAX_FILES
    requires multiset(h) == multiset(HeaderBytes(MoveWrites(s, slot, off, total, size, name, content)))
    ensures Broken(Overlay(MoveWrites(s, slot, off, total, size, name, content), HEADER_BASE, h))
  {
    hide Broken, HeadAt, Impossible, FileHead, NameOk, Overlay, HeaderBytes;
    WrittenSlot(Overlay(Overlay(s, off as nat * FACTOR, FileHead(total, size, name)), off as nat * FACTOR + 4 + |name|,
                        content), slot, off);
    var head, at := FileHead(total, size, name), off as nat * FACTOR;
    var u := Overlay(s, at, head);
    var v := Overlay(u, at + 4 + |name|, content);
    var r := Overlay(v, HEADER_BASE + slot, [off]);
    HeadWritten(s, at, head);
    HeadKept(u, at, head, at + 4 + |name|, content);
    HeadKept(v, at, head, HEADER_BASE + slot, [off]);
    HeadKept(r, at, head, HEADER_BASE, h);
    var k := SortedHolds(r, h, slot);
    BrokenBySlot(Overlay(r, HEADER_BASE, h), k, off, total, size, name);
  }

  /** The bytes after the writes of a moving resize, up to the sort. */
  function MoveWrites(s: seq<Byte>, slot: nat, off: Byte, total: Word, size: Byte, name: seq<Byte>,
                      content: seq<Byte>): (r: seq<Byte>)
    ensures |r| == |s|
  {
    var u := Overlay(s, off as nat * FACTOR, FileHead(total, size, name));
    Overlay(Overlay(u, off as nat * FACTOR + 4 + |name|, content), HEADER_BASE + slot, [off])
  }

  /** The old content and its file stay clear of a region with more blocks than the file has. */
  lemma MoveReads(s: seq<Byte>, files: seq<File>, n: nat, i: nat, off: Byte, size: Byte, total: Word)
    requires Represents(s, files, n) && i < |files| && size > files[i].size && off != 0
    requires FreeRegion(files, n, off as nat, size as nat)
    ensures var f := files[i];
            var to := off as nat * FACTOR + 4 + |f.name|;
            && StoredAt(Overlay(s, off as nat * FACTOR, FileHead(total, size, f.name)), f)
            && (to + |f.content| <= ContentBase(f) || ContentBase(f) + |f.content| <= to)
  {
    var f := files[i];
    RepresentsStored(s, files, n, i);
    RepresentsTotal(s, files, n);
    var g := File(off, size, f.name, f.content);
    assert FileOk(g) && Apart(f, g) && FACTOR <= Base(g);
    hide Represents, FreeRegion;
    ContentsApart(s, f, g);
    BlocksWritten(s, Base(g), FileHead(total, size, f.name));
    var u := Overlay(s, Base(g), FileHead(total, size, f.name));
    SameOutsideAround(s, u, Base(g), Base(g) + 4 + |f.name|, Base(g), End(g) * FACTOR);
    ApartStored(s, u, f, g);
  }
}
