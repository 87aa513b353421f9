/** How each change to the bytes of a volume changes the list of files it represents. */
module VolumeBytes {
  import opened Words
  import opened HeaderSort
  import opened MiniFsModel
  import opened FileList

  /** The bytes `a` and `b` agree outside the header and outside `from .. to`. */
  predicate SameOutside(a: seq<Byte>, b: seq<Byte>, from: nat, to: nat) {
    && |a| == |b|
    && forall k :: FACTOR <= k < |a| && !(from <= k < to) ==> a[k] == b[k]
  }

  // Reading what is stored.

  lemma StoredPrefix(s: seq<Byte>, f: File)
    requires StoredAt(s, f)
    ensures Base(f) + 4 <= |s|
    ensures s[Base(f)] == Hi(TotalLen(f)) && s[Base(f) + 1] == Lo(TotalLen(f)) && s[Base(f) + 2] == f.size
    ensures Join(s[Base(f)], s[Base(f) + 1]) == TotalLen(f)
  {
  }

  /** The stored name and its terminator, by absolute address. */
  lemma StoredName(s: seq<Byte>, f: File)
    requires StoredAt(s, f)
    ensures Base(f) + 3 + |f.name| < |s|
    ensures forall a :: Base(f) + 3 <= a < Base(f) + 3 + |f.name| ==> s[a] == f.name[a - Base(f) - 3] && s[a] != 0
    ensures s[Base(f) + 3 + |f.name|] == 0
  {
  }

  lemma StoredContent(s: seq<Byte>, f: File, offset: nat, n: nat)
    requires StoredAt(s, f) && offset + n <= |f.content|
    ensures ContentBase(f) + offset + n <= |s|
    ensures s[ContentBase(f) + offset..ContentBase(f) + offset + n] == f.content[offset..offset + n]
  {
    SliceOfSlice(s, ContentBase(f), Base(f) + TotalLen(f), offset, offset + n);
  }

  /** Where everything about file `i` lies in a volume's bytes. */
  lemma LaidOut(s: seq<Byte>, files: seq<File>, total: nat, i: nat)
    requires Represents(s, files, total) && i < |files|
    ensures i < 126 && |s| >= 128 && s[0] == 53 && s[1] == total - 1 && s[2 + i] == files[i].off
    ensures 1 <= files[i].off && files[i].off as nat + files[i].size as nat <= total && 128 * total <= |s|
    ensures StoredFrom(s, files[i], 128 * (files[i].off as nat))
  {
    hide Layout, StoredAt;
    RepresentsTotal(s, files, total);
    HeaderAt(s, files, total, i);
    RepresentsStored(s, files, total, i);
    StoredBytes(s, files[i]);
  }

  /** A file from an address on: its length, upper byte first, its blocks, its name, a zero, and its content. */
  predicate StoredFrom(s: seq<Byte>, f: File, b: nat) {
    && b + 4 + |f.name| + |f.content| <= b + 128 * (f.size as nat) <= |s|
    && 0x100 * (s[b] as nat) + s[b + 1] == 4 + |f.name| + |f.content| && s[b + 2] == f.size
    && s[b + 3..b + 3 + |f.name|] == f.name && s[b + 3 + |f.name|] == 0
    && s[b + 4 + |f.name|..b + 4 + |f.name| + |f.content|] == f.content
  }

  lemma StoredBytes(s: seq<Byte>, f: File)
    requires StoredAt(s, f)
    ensures f.off >= 1 && StoredFrom(s, f, 128 * (f.off as nat))
  {
    hide NameOk, Prefix, FileHead, LengthHead, Hi, Lo, Join;
    StoredPrefix(s, f);
    StoredName(s, f);
    BytesMean(TotalLen(f), 0, 0);
    var b := Base(f);
    var name := s[b + 3..b + 3 + |f.name|];
    forall k | 0 <= k < |f.name|
      ensures name[k] == f.name[k]
    {
      assert name[k] == s[b + 3 + k];
    }
    assert name == f.name;
  }

  lemma HeaderAt(s: seq<Byte>, files: seq<File>, total: nat, i: nat)
    requires Represents(s, files, total) && i < MAX_FILES
    ensures s[HEADER_BASE + i] == Slot(files, i)
    ensures s[HEADER_BASE + i] != 0 <==> i < |files|
  {
  }

  lemma RepresentsTotal(s: seq<Byte>, files: seq<File>, total: nat)
    requires Represents(s, files, total)
    ensures |s| >= FACTOR && s[1] as nat + 1 == total
    ensures Layout(files, total) && |files| <= MAX_FILES
  {
  }

  /** Blocks of the volume are within its bytes. */
  lemma InVolume(s: seq<Byte>, files: seq<File>, total: nat, end: nat)
    requires Represents(s, files, total) && end <= total
    ensures end * FACTOR <= |s|
  {
  }

  lemma RepresentsStored(s: seq<Byte>, files: seq<File>, total: nat, i: nat)
    requires Represents(s, files, total) && i < |files|
    ensures StoredAt(s, files[i]) && End(files[i]) <= total
  {
  }

  // Keeping what is stored.

  /** A file apart from the changed extent stays stored. */
  lemma ApartStored(s: seq<Byte>, t: seq<Byte>, g: File, f: File)
    requires StoredAt(s, g) && Apart(g, f) && f.off != 0
    requires SameOutside(s, t, Base(f), End(f) * FACTOR)
    ensures StoredAt(t, g)
  {
  }

  /** Rewriting the header keeps every file. */
  lemma HeaderRewritten(r: seq<Byte>, h: seq<Byte>, f: File)
    requires |r| >= FACTOR && |h| == MAX_FILES && StoredAt(r, f)
    ensures StoredAt(Overlay(r, HEADER_BASE, h), f)
  {
  }

  lemma HeaderOverlaid(r: seq<Byte>, h: seq<Byte>)
    requires |r| >= FACTOR && |h| == MAX_FILES
    ensures HeaderBytes(Overlay(r, HEADER_BASE, h)) == h
    ensures SameOutside(r, Overlay(r, HEADER_BASE, h), 0, 0)
    ensures Overlay(r, HEADER_BASE, h)[0] == r[0] && Overlay(r, HEADER_BASE, h)[1] == r[1]
  {
  }

  lemma SlotWritten(s: seq<Byte>, i: nat, x: Byte)
    requires i < MAX_FILES && |s| >= FACTOR
    ensures var t := Overlay(s, HEADER_BASE + i, [x]);
            HeaderBytes(t) == HeaderBytes(s)[i := x] && SameOutside(s, t, 0, 0) && t[0] == s[0] && t[1] == s[1]
  {
  }

  lemma BlocksWritten(s: seq<Byte>, at: nat, data: seq<Byte>)
    requires FACTOR <= at && |s| >= FACTOR
    ensures var t := Overlay(s, at, data);
            HeaderBytes(t) == HeaderBytes(s) && SameOutside(s, t, at, at + |data|) && t[0] == s[0] && t[1] == s[1]
  {
  }

  /** Sorting slots that hold the files' blocks gives the header of those files. */
  lemma HeaderPlaced(files: seq<File>, total: nat, h: seq<Byte>)
    requires Layout(files, total)
    requires Sorted(h) && multiset(h) == multiset(Header(files))
    ensures h == Header(files)
  {
    HeaderSorted(files, total);
    SortedUnique(h, Header(files));
  }

  // Building a representation.

  /** A volume with a known header whose files are all stored. */
  lemma RepresentsIntro(t: seq<Byte>, files: seq<File>, total: nat)
    requires 1 <= total <= 256 && total * FACTOR <= |t|
    requires t[0] == MAGIC && t[1] as nat == total - 1
    requires Layout(files, total) && HeaderBytes(t) == Header(files)
    requires forall i :: 0 <= i < |files| ==> StoredAt(t, files[i])
    ensures Represents(t, files, total)
  {
  }

  lemma InsertedStored(s: seq<Byte>, files: seq<File>, f: File, t: seq<Byte>)
    requires forall i :: 0 <= i < |files| ==> StoredAt(s, files[i])
    requires ApartFromAll(files, f) && StoredAt(t, f)
    requires SameOutside(s, t, Base(f), End(f) * FACTOR)
    ensures forall i :: 0 <= i < |Inserted(files, f)| ==> StoredAt(t, Inserted(files, f)[i])
  {
    hide StoredAt, SameOutside;
    var p := Rank(files, f.off);
    forall i | 0 <= i <= |files|
      ensures StoredAt(t, Inserted(files, f)[i])
    {
      if i != p {
        var g := files[if i < p then i else i - 1];
        assert Apart(g, f);
        assert f.off != 0 by { StoredOff(t, f); }
        ApartStored(s, t, g, f);
      }
    }
  }

  lemma StoredOff(s: seq<Byte>, f: File)
    requires StoredAt(s, f)
    ensures f.off != 0 && FileOk(f)
  {
  }

  lemma RemovedStored(s: seq<Byte>, files: seq<File>, i: nat, t: seq<Byte>)
    requires i < |files| && SameOutside(s, t, 0, 0)
    requires forall k :: 0 <= k < |files| ==> StoredAt(s, files[k])
    ensures forall k :: 0 <= k < |files| - 1 ==> StoredAt(t, Removed(files, i)[k])
  {
    hide StoredAt, SameOutside;
    forall k | 0 <= k < |files| - 1
      ensures StoredAt(t, Removed(files, i)[k])
    {
      StillStored(s, t, files[if k < i then k else k + 1]);
    }
  }

  /** A file stays stored while only the header changes. */
  lemma StillStored(s: seq<Byte>, t: seq<Byte>, f: File)
    requires StoredAt(s, f) && SameOutside(s, t, 0, 0)
    ensures StoredAt(t, f)
  {
    hide Prefix;
    assert FACTOR <= Base(f) && Base(f) + TotalLen(f) <= |s|;
    assert s[Base(f)..ContentBase(f)] == t[Base(f)..ContentBase(f)];
    assert s[ContentBase(f)..Base(f) + TotalLen(f)] == t[ContentBase(f)..Base(f) + TotalLen(f)];
  }

  /** `f` is stored in `r` apart from all of `files`, header slot `slot` names it, and nothing else changed. */
  predicate Placed(s: seq<Byte>, files: seq<File>, total: nat, slot: nat, f: File, r: seq<Byte>)
    requires |s| >= FACTOR && slot < MAX_FILES
  {
    && FileOk(f) && End(f) <= total && ApartFromAll(files, f)
    && |r| == |s| && r[0] == s[0] && r[1] == s[1]
    && HeaderBytes(r) == HeaderBytes(s)[slot := f.off]
    && StoredAt(r, f) && SameOutside(s, r, Base(f), End(f) * FACTOR)
  }

  /** Placing `f` in a free region, entering it in the header and sorting. */
  lemma CreateRepresents(s: seq<Byte>, files: seq<File>, total: nat, f: File, r: seq<Byte>, h: seq<Byte>)
    requires Represents(s, files, total) && |files| < MAX_FILES
    requires Placed(s, files, total, |files|, f, r)
    requires forall i :: 0 <= i < |files| ==> files[i].name != f.name
    requires |h| == MAX_FILES && Sorted(h) && multiset(h) == multiset(HeaderBytes(r))
    ensures Represents(Overlay(r, HEADER_BASE, h), Inserted(files, f), total)
    ensures Layout(Inserted(files, f), total)
  {
    hide StoredAt, Sorted, FileOk, ApartFromAll;
    var t := Overlay(r, HEADER_BASE, h);
    InsertedLayout(files, f, total);
    InsertedHeader(files, f);
    HeaderPlaced(Inserted(files, f), total, h);
    HeaderOverlaid(r, h);
    HeaderRewritten(r, h, f);
    hide Layout;
    InsertedStored(s, files, f, t);
    RepresentsIntro(t, Inserted(files, f), total);
  }

  /** Clearing slot `i` and sorting removes file `i`. */
  lemma DeleteRepresents(s: seq<Byte>, files: seq<File>, total: nat, i: nat, h: seq<Byte>)
    requires Represents(s, files, total) && i < |files|
    requires |h| == MAX_FILES && Sorted(h)
    requires multiset(h) == multiset(HeaderBytes(Overlay(s, HEADER_BASE + i, [0])))
    ensures Represents(Overlay(Overlay(s, HEADER_BASE + i, [0]), HEADER_BASE, h), Removed(files, i), total)
    ensures Layout(Removed(files, i), total)
  {
    hide StoredAt, Sorted, FileOk;
    var r := Overlay(s, HEADER_BASE + i, [0]);
    var t := Overlay(r, HEADER_BASE, h);
    RemovedLayout(files, i, total);
    SlotWritten(s, i, 0);
    RemovedHeader(files, i);
    HeaderPlaced(Removed(files, i), total, h);
    HeaderOverlaid(r, h);
    hide Layout;
    RemovedStored(s, files, i, t);
    RepresentsIntro(t, Removed(files, i), total);
  }

  /** What clearing a slot and sorting leaves behind. */
  lemma ClearedRepresents(s: seq<Byte>, files: seq<File>, total: nat, i: nat, h: seq<Byte>, t: seq<Byte>)
    requires Represents(s, files, total) && i < |files|
    requires |h| == MAX_FILES && Sorted(h)
    requires multiset(h) == multiset(HeaderBytes(Overlay(s, HEADER_BASE + i, [0])))
    requires t == Overlay(Overlay(s, HEADER_BASE + i, [0]), HEADER_BASE, h)
    ensures Represents(t, Removed(files, i), total) && |t| == |s| && t[1] as nat + 1 == total
    ensures Contents(Removed(files, i)) == Contents(files) - {files[i].name}
    ensures t[FACTOR..] == s[FACTOR..]
  {
    RepresentsTotal(s, files, total);
    assert t[FACTOR..] == s[FACTOR..];
    hide Represents, Layout, Contents, Sorted, Overlay;
    DeleteRepresents(s, files, total, i, h);
    RemovedContents(files, i, total);
    RepresentsTotal(t, Removed(files, i), total);
  }

  /** Pointing slot `i` at a copy stored elsewhere and sorting moves file `i`. */
  lemma MoveRepresents(s: seq<Byte>, files: seq<File>, total: nat, i: nat, f: File, r: seq<Byte>, h: seq<Byte>)
    requires Represents(s, files, total) && i < |files|
    requires Placed(s, files, total, i, f, r) && f.name == files[i].name
    requires |h| == MAX_FILES && Sorted(h) && multiset(h) == multiset(HeaderBytes(r))
    ensures Layout(Removed(files, i), total) && Layout(Inserted(Removed(files, i), f), total)
    ensures Represents(Overlay(r, HEADER_BASE, h), Inserted(Removed(files, i), f), total)
  {
    hide StoredAt, Sorted, FileOk;
    var rest := Removed(files, i);
    var t := Overlay(r, HEADER_BASE, h);
    RemovedLayout(files, i, total);
    MoveLayout(files, total, i, f);
    MovedHeader(files, i, f);
    HeaderPlaced(Inserted(rest, f), total, h);
    HeaderOverlaid(r, h);
    HeaderRewritten(r, h, f);
    hide Layout, ApartFromAll;
    RemovedStored(s, files, i, s);
    InsertedStored(s, rest, f, t);
    RepresentsIntro(t, Inserted(rest, f), total);
  }

  lemma MoveLayout(files: seq<File>, total: nat, i: nat, f: File)
    requires i < |files| && Layout(files, total) && Layout(Removed(files, i), total)
    requires FileOk(f) && End(f) <= total && ApartFromAll(files, f) && f.name == files[i].name
    ensures Layout(Inserted(Removed(files, i), f), total) && ApartFromAll(Removed(files, i), f)
  {
    var rest := Removed(files, i);
    forall k | 0 <= k < |rest|
      ensures Apart(rest[k], f) && rest[k].name != f.name
    {
      assert rest[k] == files[if k < i then k else k + 1];
    }
    InsertedLayout(rest, f, total);
  }

  /** File `i` rewritten where it lies, with room up to the next extent. */
  lemma ReplaceRepresents(s: seq<Byte>, files: seq<File>, total: nat, i: nat, f: File, t: seq<Byte>)
    requires Represents(s, files, total) && i < |files|
    requires f.off == files[i].off && f.name == files[i].name && FileOk(f)
    requires End(f) <= GapEnd(files, total, i)
    requires StoredAt(t, f) && |t| == |s| && t[0] == s[0] && t[1] == s[1] && HeaderBytes(t) == HeaderBytes(s)
    requires SameOutside(s, t, Base(f), End(f) * FACTOR)
    ensures Represents(t, files[i := f], total) && Layout(files[i := f], total)
  {
    hide StoredAt, FileOk, SameOutside;
    ReplacedLayout(files, total, i, f);
    var r := files[i := f];
    forall k | 0 <= k < |r|
      ensures StoredAt(t, r[k])
    {
      if k != i {
        RepresentsStored(s, files, total, k);
        ReplacedApart(files, total, i, f, k);
        StoredOff(t, f);
        ApartStored(s, t, files[k], f);
      }
    }
    RepresentsIntro(t, r, total);
  }

  // New files.

  /** A file placed over whatever bytes its blocks held. */
  function NewFile(s: seq<Byte>, off: Byte, size: Byte, name: seq<Byte>, contentLen: nat): File
    requires off as nat * FACTOR + 4 + |name| + contentLen <= |s|
  {
    var at := off as nat * FACTOR + 4 + |name|;
    File(off, size, name, s[at..at + contentLen])
  }

  lemma NewFileOk(s: seq<Byte>, off: Byte, size: Byte, name: seq<Byte>, contentLen: nat)
    requires NameOk(name) && off != 0 && (off as nat + size as nat) * FACTOR <= |s|
    requires 4 + |name| + contentLen <= size as nat * FACTOR
    ensures off as nat * FACTOR + 4 + |name| + contentLen <= |s|
    ensures FileOk(NewFile(s, off, size, name, contentLen))
    ensures TotalLen(NewFile(s, off, size, name, contentLen)) == 4 + |name| + contentLen
  {
  }

  /** The bytes after the header slot and the prefix of a new file are written. */
  lemma NewFileWritten(s: seq<Byte>, slot: nat, f: File, r: seq<Byte>)
    requires |s| >= FACTOR && slot < MAX_FILES
    requires FileOk(f) && End(f) * FACTOR <= |s|
    requires f.content == s[ContentBase(f)..Base(f) + TotalLen(f)]
    requires r == Overlay(Overlay(s, HEADER_BASE + slot, [f.off]), Base(f), Prefix(f))
    ensures |r| == |s| && r[0] == s[0] && r[1] == s[1]
    ensures HeaderBytes(r) == HeaderBytes(s)[slot := f.off]
    ensures StoredAt(r, f) && SameOutside(s, r, Base(f), End(f) * FACTOR)
  {
  }

  /** What a successful creation adds: the requested name and length, placed first fit. */
  ghost predicate Created(s: seq<Byte>, files: seq<File>, total: nat, f: File, name: seq<Byte>, contentLen: nat) {
    && f.name == name && |f.content| == contentLen
    && f.size as nat == Blocks(TotalLen(f)) && FirstFit(files, total, f.size, f.off)
    && Base(f) + TotalLen(f) <= |s| && f.content == s[ContentBase(f)..Base(f) + TotalLen(f)]
  }

  /** What the writes of a creation leave behind: the list with the new file inserted. */
  lemma PlacedNew(s: seq<Byte>, files: seq<File>, total: nat, off: Byte, size: Byte, name: seq<Byte>, contentLen: nat,
                  newTotal: Word, r: seq<Byte>, h: seq<Byte>, t: seq<Byte>)
    returns (f: File)
    requires Represents(s, files, total) && |files| < MAX_FILES && NameOk(name) && Find(files, name) == |files|
    requires Fits(name, contentLen) && size as nat == Blocks(4 + |name| + contentLen)
    requires FirstFit(files, total, size, off) && off != 0
    requires newTotal == 4 + |name| + contentLen
    requires r == Overlay(Overlay(s, HEADER_BASE + |files|, [off]), off as nat * FACTOR, FileHead(newTotal, size, name))
    requires |h| == MAX_FILES && Sorted(h) && multiset(h) == multiset(HeaderBytes(r)) && t == Overlay(r, HEADER_BASE, h)
    ensures Created(s, files, total, f, name, contentLen)
    ensures Represents(t, Inserted(files, f), total) && |t| >= FACTOR && t[1] as nat + 1 == total
    ensures Contents(Inserted(files, f)) == Contents(files)[name := f.content]
  {
    hide Represents, FirstFit, FreeRegion, Layout, Find, Contents, FileHead, Sorted, StoredAt, SameOutside, FileOk;
    hide Blocks, Overlay, ApartFromAll, End, Inserted;
    RepresentsTotal(s, files, total);
    f := NewFileWhere(s, files, total, off, size, name, contentLen);
    NewFileWritten(s, |files|, f, r);
    assert Placed(s, files, total, |files|, f, r);
    hide Placed;
    CreateRepresents(s, files, total, f, r, h);
    InsertedContents(files, f, total);
    RepresentsTotal(t, Inserted(files, f), total);
  }

  lemma NewFileWhere(s: seq<Byte>, files: seq<File>, total: nat, off: Byte, size: Byte, name: seq<Byte>,
                     contentLen: nat)
    returns (f: File)
    requires Represents(s, files, total) && NameOk(name) && Find(files, name) == |files|
    requires Fits(name, contentLen) && size as nat == Blocks(4 + |name| + contentLen)
    requires FirstFit(files, total, size, off) && off != 0
    ensures f.off == off && f.size == size && TotalLen(f) == 4 + |name| + contentLen
    ensures Created(s, files, total, f, name, contentLen)
    ensures FileOk(f) && End(f) <= total && End(f) * FACTOR <= |s| && ApartFromAll(files, f)
    ensures forall i :: 0 <= i < |files| ==> files[i].name != f.name
  {
    hide Represents, FreeRegion, Blocks, FileOk, ApartFromAll, NameOk, NoneBefore;
    RepresentsTotal(s, files, total);
    BlocksCover(4 + |name| + contentLen);
    FreeIsApart(files, total, File(off, size, name, []));
    InVolume(s, files, total, off as nat + size as nat);
    NewFileOk(s, off, size, name, contentLen);
    f := NewFile(s, off, size, name, contentLen);
    FreeIsApart(files, total, f);
  }

  /** `Blocks` is the least number of blocks that holds a length. */
  lemma BlocksLeast(totalLen: nat, b: nat)
    ensures totalLen <= b * FACTOR <==> Blocks(totalLen) <= b
  {
  }

  lemma BaseFactor(f: File)
    ensures Base(f) / FACTOR == f.off as nat
  {
  }

  lemma BlocksCover(totalLen: nat)
    ensures totalLen <= Blocks(totalLen) * FACTOR
  {
  }

  // Changing a file's length or content where it lies.

  /** `c` is `old` cut or extended to `len` bytes. */
  predicate Resized(old_: seq<Byte>, c: seq<Byte>, len: nat) {
    && |c| == len
    && forall k :: 0 <= k < |old_| && k < len ==> c[k] == old_[k]
  }

  /** A stored file given a new length and size factor. */
  function Reheaded(s: seq<Byte>, f: File, size: Byte, len: nat): File
    requires ContentBase(f) + len <= |s|
  {
    File(f.off, size, f.name, s[ContentBase(f)..ContentBase(f) + len])
  }

  lemma ReheadedOk(s: seq<Byte>, f: File, size: Byte, len: nat)
    requires StoredAt(s, f) && (f.off as nat + size as nat) * FACTOR <= |s|
    requires 4 + |f.name| + len <= size as nat * FACTOR
    ensures ContentBase(f) + len <= |s|
    ensures FileOk(Reheaded(s, f, size, len)) && TotalLen(Reheaded(s, f, size, len)) == 4 + |f.name| + len
    ensures Resized(f.content, Reheaded(s, f, size, len).content, len)
  {
  }

  /** Overwriting length and size factor in front of the name. */
  lemma ReheadedStored(s: seq<Byte>, f: File, g: File)
    requires StoredAt(s, f) && FileOk(g) && End(g) * FACTOR <= |s|
    requires g.off == f.off && g.name == f.name && ContentBase(f) + |g.content| <= |s|
    requires g.content == s[ContentBase(f)..ContentBase(f) + |g.content|]
    ensures StoredAt(Overlay(s, Base(f), LengthHead(TotalLen(g), g.size)), g)
  {
    hide StoredAt, FileOk, Prefix, Overlay, LengthHead;
    StoredParts(s, f);
    FileExtent(f);
    FileExtent(g);
    var head := LengthHead(TotalLen(g), g.size);
    SameStart(f, g);
    SliceOverlay(s, Base(f), head, Base(f), ContentBase(f));
    SliceOverlay(s, Base(f), head, ContentBase(f), ContentBase(f) + |g.content|);
    PrefixReheaded(f, g);
    StoredIntro(Overlay(s, Base(f), head), g);
  }

  lemma PrefixReheaded(f: File, g: File)
    requires FileOk(f) && FileOk(g) && f.name == g.name
    ensures Overlay(Prefix(f), 0, LengthHead(TotalLen(g), g.size)) == Prefix(g)
  {
    hide Hi, Lo;
  }

  lemma ReheadedFile(s: seq<Byte>, files: seq<File>, total: nat, i: nat, size: Byte, len: nat)
    returns (g: File)
    requires Represents(s, files, total) && i < |files|
    requires 4 + |files[i].name| + len <= size as nat * FACTOR
    requires files[i].off as nat + size as nat <= GapEnd(files, total, i)
    ensures g.off == files[i].off && g.size == size && g.name == files[i].name && |g.content| == len
    ensures FileOk(g) && End(g) * FACTOR <= |s| && End(g) <= GapEnd(files, total, i)
    ensures ContentBase(g) + len <= |s| && g.content == s[ContentBase(g)..ContentBase(g) + len]
    ensures Resized(files[i].content, g.content, len)
  {
    RepresentsStored(s, files, total, i);
    GapInside(files, total, i);
    assert GapEnd(files, total, i) * FACTOR <= |s|;
    hide Represents, Layout, GapEnd, StoredAt;
    ReheadedOk(s, files[i], size, len);
    g := Reheaded(s, files[i], size, len);
  }

  /** File `i` given a new length and size factor in place. */
  lemma ReheadedRepresents(s: seq<Byte>, files: seq<File>, total: nat, i: nat, size: Byte, len: nat,
                           newTotal: Word, t: seq<Byte>)
    returns (g: File)
    requires Represents(s, files, total) && i < |files|
    requires newTotal == 4 + |files[i].name| + len <= size as nat * FACTOR
    requires files[i].off as nat + size as nat <= GapEnd(files, total, i)
    requires t == Overlay(s, Base(files[i]), LengthHead(newTotal, size))
    ensures Represents(t, files[i := g], total) && |t| >= FACTOR && t[1] as nat + 1 == total
    ensures g.off == files[i].off && g.size == size && g.name == files[i].name
    ensures Resized(files[i].content, g.content, len)
    ensures Contents(files[i := g]) == Contents(files)[g.name := g.content]
  {
    hide Represents, Layout, GapEnd, Contents, FileHead, LengthHead, SameOutside, StoredAt, FileOk, Resized, Blocks;
    hide Overlay, HeaderBytes, Base, End, TotalLen;
    g := ReheadedFile(s, files, total, i, size, len);
    RepresentsStored(s, files, total, i);
    RepresentsTotal(s, files, total);
    FileExtent(g);
    SameStart(files[i], g);
    ReheadedStored(s, files[i], g);
    BlocksWritten(s, Base(g), LengthHead(TotalLen(g), g.size));
    SameOutsideAround(s, t, Base(g), Base(g) + 3, Base(g), End(g) * FACTOR);
    ReplaceRepresents(s, files, total, i, g, t);
    ReplacedContents(files, total, i, g);
    RepresentsTotal(t, files[i := g], total);
  }

  /** Where a file's bytes lie. */
  lemma FileExtent(f: File)
    requires FileOk(f)
    ensures FACTOR <= Base(f) <= Base(f) + 4 <= ContentBase(f) <= Base(f) + TotalLen(f) <= End(f) * FACTOR
    ensures ContentBase(f) == Base(f) + 4 + |f.name| && TotalLen(f) == 4 + |f.name| + |f.content| <= FITS_MAX
  {
  }

  lemma SameStart(f: File, g: File)
    requires f.off == g.off
    ensures Base(f) == Base(g)
  {
  }

  lemma GapInside(files: seq<File>, total: nat, i: nat)
    requires Layout(files, total) && i < |files|
    ensures GapEnd(files, total, i) <= total && End(files[i]) <= GapEnd(files, total, i)
  {
  }

  /** Bytes written inside the content of a stored file. */
  lemma ContentStored(s: seq<Byte>, f: File, offset: nat, data: seq<Byte>)
    requires StoredAt(s, f) && offset + |data| <= |f.content|
    ensures StoredAt(Overlay(s, ContentBase(f) + offset, data), f.(content := Overlay(f.content, offset, data)))
  {
    hide StoredAt, FileOk, Prefix, Overlay;
    var g := f.(content := Overlay(f.content, offset, data));
    var at, from, to := ContentBase(f) + offset, ContentBase(f), Base(f) + TotalLen(f);
    StoredParts(s, f);
    FileExtent(f);
    SameShape(f, g);
    SliceOverlay(s, at, data, Base(f), from);
    SliceOverlay(s, at, data, from, to);
    StoredIntro(Overlay(s, at, data), g);
  }

  lemma StoredParts(s: seq<Byte>, f: File)
    requires StoredAt(s, f)
    ensures FileOk(f) && End(f) * FACTOR <= |s| && Base(f) <= ContentBase(f) <= Base(f) + TotalLen(f) <= |s|
    ensures s[Base(f)..ContentBase(f)] == Prefix(f) && s[ContentBase(f)..Base(f) + TotalLen(f)] == f.content
  {
  }

  lemma StoredIntro(s: seq<Byte>, f: File)
    requires FileOk(f) && End(f) * FACTOR <= |s| && Base(f) <= ContentBase(f) <= Base(f) + TotalLen(f) <= |s|
    requires s[Base(f)..ContentBase(f)] == Prefix(f) && s[ContentBase(f)..Base(f) + TotalLen(f)] == f.content
    ensures StoredAt(s, f)
  {
  }

  /** Other content of the same length changes nothing in front of it. */
  lemma SameShape(f: File, g: File)
    requires FileOk(f) && g == f.(content := g.content) && |g.content| == |f.content|
    ensures FileOk(g) && Prefix(g) == Prefix(f) && Base(g) == Base(f) && ContentBase(g) == ContentBase(f)
    ensures TotalLen(g) == TotalLen(f) && End(g) == End(f)
  {
  }

  lemma ContentRepresents(s: seq<Byte>, files: seq<File>, total: nat, i: nat, offset: nat, data: seq<Byte>,
                          t: seq<Byte>)
    returns (g: File)
    requires Represents(s, files, total) && i < |files| && offset + |data| <= |files[i].content|
    requires t == Overlay(s, ContentBase(files[i]) + offset, data)
    ensures g == files[i].(content := Overlay(files[i].content, offset, data))
    ensures Represents(t, files[i := g], total) && |t| >= FACTOR && t[1] as nat + 1 == total
    ensures Contents(files[i := g]) == Contents(files)[g.name := g.content]
  {
    hide Represents, Layout, GapEnd, Contents, StoredAt, FileOk, SameOutside, HeaderBytes, Base, End, TotalLen;
    hide ContentBase, Prefix;
    var f := files[i];
    RepresentsStored(s, files, total, i);
    RepresentsTotal(s, files, total);
    GapInside(files, total, i);
    g := f.(content := Overlay(f.content, offset, data));
    ContentStored(s, f, offset, data);
    StoredOff(s, f);
    FileExtent(f);
    SameShape(f, g);
    BlocksWritten(s, ContentBase(f) + offset, data);
    SameOutsideAround(s, t, ContentBase(f) + offset, ContentBase(f) + offset + |data|, Base(f), End(g) * FACTOR);
    ReplaceRepresents(s, files, total, i, g, t);
    ReplacedContents(files, total, i, g);
    RepresentsTotal(t, files[i := g], total);
  }

  lemma SameOutsideAround(a: seq<Byte>, b: seq<Byte>, from: nat, to: nat, lo: nat, hi: nat)
    requires SameOutside(a, b, from, to) && lo <= from && to <= hi
    ensures SameOutside(a, b, lo, hi)
  {
  }

  // Moving a file.

  /** The bytes of `s` with the prefix of `g` and then `old_` written from its first block. */
  function CopyBytes(s: seq<Byte>, g: File, old_: seq<Byte>): seq<Byte>
    requires FileOk(g)
  {
    Overlay(Overlay(s, Base(g), Prefix(g)), ContentBase(g), old_)
  }

  /** The copy of file `i` placed in a free region; its content past the old length is whatever was there. */
  lemma MovedFile(s: seq<Byte>, files: seq<File>, total: nat, i: nat, off: Byte, size: Byte, len: nat, t: seq<Byte>)
    returns (g: File)
    requires Represents(s, files, total) && i < |files| && |t| == |s|
    requires size as nat == Blocks(4 + |files[i].name| + len)
    requires FirstFit(files, total, size, off) && off != 0
    ensures g.off == off && g.size == size && g.name == files[i].name && |g.content| == len
    ensures FileOk(g) && End(g) <= total && End(g) * FACTOR <= |s| && ApartFromAll(files, g)
    ensures ContentBase(g) + len <= |t| && g.content == t[ContentBase(g)..ContentBase(g) + len]
  {
    hide Represents, FreeRegion, StoredAt, NoneBefore, NameOk, ApartFromAll, Blocks;
    RepresentsStored(s, files, total, i);
    StoredOff(s, files[i]);
    InVolume(s, files, total, total);
    BlocksCover(4 + |files[i].name| + len);
    FreeIsApart(files, total, File(off, size, files[i].name, []));
    NewFileOk(t, off, size, files[i].name, len);
    g := NewFile(t, off, size, files[i].name, len);
    FreeIsApart(files, total, g);
  }

  lemma MovedPlaced(s: seq<Byte>, files: seq<File>, total: nat, i: nat, g: File, t: seq<Byte>)
    requires |s| >= FACTOR && i < |files| && i < MAX_FILES && |files[i].content| <= |g.content|
    requires FileOk(g) && End(g) <= total && End(g) * FACTOR <= |s| && ApartFromAll(files, g)
    requires t == CopyBytes(s, g, files[i].content)
    requires ContentBase(g) + |g.content| <= |t| && g.content == t[ContentBase(g)..ContentBase(g) + |g.content|]
    ensures Placed(s, files, total, i, g, Overlay(t, HEADER_BASE + i, [g.off]))
    ensures Resized(files[i].content, g.content, |g.content|)
  {
  }

  /** What the writes of a moving resize leave behind. */
  lemma MovedRepresents(s: seq<Byte>, files: seq<File>, total: nat, i: nat, g: File, r: seq<Byte>, h: seq<Byte>)
    requires Represents(s, files, total) && i < |files|
    requires |s| >= FACTOR && i < MAX_FILES && Placed(s, files, total, i, g, r) && g.name == files[i].name
    requires |h| == MAX_FILES && Sorted(h) && multiset(h) == multiset(HeaderBytes(r))
    ensures Represents(Overlay(r, HEADER_BASE, h), Inserted(Removed(files, i), g), total)
    ensures |r| >= FACTOR && Overlay(r, HEADER_BASE, h)[1] as nat + 1 == total
    ensures Contents(Inserted(Removed(files, i), g)) == Contents(files)[g.name := g.content]
  {
    RepresentsTotal(s, files, total);
    assert |r| == |s|;
    hide Represents, Layout, Contents, Sorted, Placed;
    MoveRepresents(s, files, total, i, g, r, h);
    MovedContents(files, total, i, g);
    RepresentsTotal(Overlay(r, HEADER_BASE, h), Inserted(Removed(files, i), g), total);
  }

  /** What is known once the prefix of the moved file is written, before its content is copied. */
  lemma CopyPlan(s: seq<Byte>, files: seq<File>, total: nat, i: nat, off: Byte, size: Byte, len: nat,
                 newTotal: Word)
    returns (g: File)
    requires Represents(s, files, total) && i < |files| && |files[i].content| <= len
    requires 4 + |files[i].name| + len <= FITS_MAX && size as nat == Blocks(4 + |files[i].name| + len)
    requires FirstFit(files, total, size, off) && off != 0
    requires newTotal == 4 + |files[i].name| + len
    ensures g.off == off && g.size == size && g.name == files[i].name && Resized(files[i].content, g.content, len)
    ensures |s| >= FACTOR && i < MAX_FILES
    ensures var u := Overlay(s, off as nat * FACTOR, FileHead(newTotal, size, files[i].name));
            var to := off as nat * FACTOR + 4 + |files[i].name|;
            && StoredAt(u, files[i])
            && (to + |files[i].content| <= ContentBase(files[i]) || ContentBase(files[i]) + |files[i].content| <= to)
            && Placed(s, files, total, i, g, Overlay(Overlay(u, to, files[i].content), HEADER_BASE + i, [off]))
  {
    hide Represents, Layout, FirstFit, Blocks, Placed, Resized, StoredAt, SameOutside, Overlay, FileHead, HeaderBytes;
    hide FileOk, ApartFromAll, Apart, End;
    RepresentsTotal(s, files, total);
    RepresentsStored(s, files, total, i);
    var u := Overlay(s, off as nat * FACTOR, FileHead(newTotal, size, files[i].name));
    var t := Overlay(u, off as nat * FACTOR + 4 + |files[i].name|, files[i].content);
    g := MovedFile(s, files, total, i, off, size, len, t);
    ApartOne(files, g, i);
    MovedPlaced(s, files, total, i, g, t);
    PrefixKeeps(s, files[i], g, u);
    ContentsApart(s, files[i], g);
  }

  lemma ApartOne(files: seq<File>, g: File, i: nat)
    requires ApartFromAll(files, g) && i < |files|
    ensures Apart(files[i], g)
  {
  }

  lemma PrefixKeeps(s: seq<Byte>, f: File, g: File, u: seq<Byte>)
    requires StoredAt(s, f) && FileOk(g) && Apart(f, g) && |s| >= FACTOR
    requires u == Overlay(s, Base(g), Prefix(g))
    ensures StoredAt(u, f)
  {
  }

  lemma ContentsApart(s: seq<Byte>, f: File, g: File)
    requires StoredAt(s, f) && FileOk(g) && Apart(f, g) && |f.content| <= |g.content|
    ensures ContentBase(g) + |f.content| <= ContentBase(f) || ContentBase(f) + |f.content| <= ContentBase(g)
  {
  }

  // What a volume says is all there is to say.

  /** Bytes determine the files: a volume represents at most one list. */
  lemma RepresentsUnique(s: seq<Byte>, a: seq<File>, b: seq<File>, m: nat, n: nat)
    requires Represents(s, a, m) && Represents(s, b, n)
    ensures a == b && m == n
  {
    hide StoredAt, Layout;
    RepresentsTotal(s, a, m);
    RepresentsTotal(s, b, n);
    SameLength(s, a, b, m, n);
    SameLength(s, b, a, n, m);
    forall i | 0 <= i < |a|
      ensures a[i] == b[i]
    {
      HeaderAt(s, a, m, i);
      HeaderAt(s, b, n, i);
      StoredUnique(s, a[i], b[i]);
    }
  }

  lemma SameLength(s: seq<Byte>, a: seq<File>, b: seq<File>, m: nat, n: nat)
    requires Represents(s, a, m) && Represents(s, b, n)
    ensures |b| <= |a|
  {
    hide Represents;
    RepresentsTotal(s, b, n);
    if |a| < MAX_FILES {
      HeaderAt(s, a, m, |a|);
      HeaderAt(s, b, n, |a|);
    }
  }

  lemma StoredUnique(s: seq<Byte>, f: File, g: File)
    requires StoredAt(s, f) && StoredAt(s, g) && f.off == g.off
    ensures f == g
  {
    StoredPrefix(s, f);
    StoredPrefix(s, g);
    SameName(s, f, g);
  }

  lemma SameName(s: seq<Byte>, f: File, g: File)
    requires StoredAt(s, f) && StoredAt(s, g) && f.off == g.off
    ensures f.name == g.name
  {
    StoredName(s, f);
    StoredName(s, g);
    hide StoredAt;
    var b := Base(f) + 3;
    assert |f.name| <= |g.name| && |g.name| <= |f.name|;
    forall k | 0 <= k < |f.name|
      ensures f.name[k] == g.name[k]
    {
      assert s[b + k] == f.name[k] && s[b + k] == g.name[k];
    }
  }
}
