/** The MiniFs volume as the kernel keeps it: a flat byte buffer changed in place. */
module MiniFsVolume {
  import opened Words
  import opened HeaderSort
  import opened MiniFsModel
  import opened FileList
  import opened VolumeBytes
  import opened BrokenVolumes

  /** When a request to create a file succeeds: as much room as its recorded size factor asks for. */
  ghost predicate CanCreate(files: seq<File>, total: nat, name: seq<Byte>, contentLen: Word) {
    && |name| < PATH_MAX
    && |files| < MAX_FILES
    && Find(files, name) == |files|
    && HasFreeRegion(files, total, SizeFactorFor(StoredTotal(name, contentLen)) as nat)
  }

  /** When file `i` can be given `len` bytes of content: its own blocks, those after it, or a free region. */
  ghost predicate CanResize(files: seq<File>, total: nat, i: nat, len: Word)
    requires i < |files|
  {
    || StaysInPlace(files, total, i, StoredTotal(files[i].name, len))
    || HasFreeRegion(files, total, SizeFactorFor(StoredTotal(files[i].name, len)) as nat)
  }

  /** File `f` at block `off`, with a size factor and `len` bytes of content that start like its own. */
  predicate Renewed(f: File, g: File, off: Byte, size: Byte, len: nat) {
    g.off == off && g.size == size && g.name == f.name && Resized(f.content, g.content, len)
  }

  /** What a resize makes of file `i`, and where: fewer blocks, the same, those after it, or the first that fit. */
  ghost predicate ResizedTo(files: seq<File>, total: nat, i: nat, len: Word, g: File, after: seq<File>)
    requires i < |files|
  {
    var f := files[i];
    var newTotal := StoredTotal(f.name, len);
    var newSize := SizeFactorFor(newTotal);
    if len > |f.content| && !StaysInPlace(files, total, i, newTotal) then
      && Renewed(f, g, g.off, newSize, len) && FirstFit(files, total, newSize, g.off)
      && after == Inserted(Removed(files, i), g)
    else
      && Renewed(f, g, f.off, if len > |f.content| && newTotal <= f.size as nat * FACTOR then f.size else newSize, len)
      && after == files[i := g]
  }

  predicate StaysInPlace(files: seq<File>, total: nat, i: nat, newTotal: Word)
    requires i < |files|
  {
    || newTotal <= files[i].size as nat * FACTOR
    || files[i].off as nat + SizeFactorFor(newTotal) as nat <= GapEnd(files, total, i)
  }

  /** The part of `c` a read at `offset` for `len` bytes may return. */
  function Window(c: seq<Byte>, offset: nat, len: nat): (r: seq<Byte>)
    ensures |r| <= len && (offset >= |c| ==> r == [])
    ensures offset < |c| ==> offset + |r| <= |c| && (|r| == len || offset + |r| == |c|)
    ensures forall k :: 0 <= k < |r| ==> r[k] == c[offset + k]
  {
    if offset >= |c| then [] else c[offset..if offset + len <= |c| then offset + len else |c|]
  }

  lemma WindowIs(c: seq<Byte>, offset: nat, len: nat)
    ensures offset >= |c| ==> Window(c, offset, len) == []
    ensures offset < |c| && len > |c| - offset ==> Window(c, offset, len) == c[offset..]
    ensures offset < |c| && len <= |c| - offset ==> Window(c, offset, len) == c[offset..offset + len]
  {
  }

  class MiniFs {
    const vol: array<Byte>
    const readOnly: bool
    ghost var files: seq<File>

    /** Blocks in the volume, from the header. */
    ghost function Total(): nat
      requires vol.Length >= FACTOR
      reads vol
    {
      vol[1] as nat + 1
    }

    ghost predicate Valid()
      reads this, vol
    {
      vol.Length >= FACTOR && Represents(vol[..], files, Total())
    }

    /** Mount a volume without touching it. */
    constructor Mount(vol: array<Byte>, readOnly: bool, ghost files: seq<File>)
      requires vol.Length >= FACTOR && Represents(vol[..], files, vol[1] as nat + 1)
      ensures Valid() && this.vol == vol && this.readOnly == readOnly && this.files == files
    {
      this.vol, this.readOnly, this.files := vol, readOnly, files;
    }

    // Reading the volume.

    method GetFileTotalLength(base: nat, ghost f: File) returns (r: nat)
      requires StoredAt(vol[..], f) && base == Base(f)
      ensures r == TotalLen(f)
    {
      hide StoredAt, FileOk, TotalLen, Hi, Lo, Join;
      StoredPrefix(vol[..], f);
      ghost var s := vol[..];
      assert s[base] == vol[base] && s[base + 1] == vol[base + 1];
      r := Join(vol[base], vol[base + 1]);
    }

    method GetFilenameLen(base: nat, ghost f: File) returns (n: nat)
      requires StoredAt(vol[..], f) && base == Base(f)
      ensures n == |f.name|
    {
      StoredName(vol[..], f);
      ghost var s := vol[..];
      hide StoredAt;
      n := 0;
      while vol[base + 3 + n] != 0
        invariant n <= |f.name| && base + 3 + |f.name| < vol.Length
        decreases |f.name| - n
      {
        assert s[base + 3 + n] != 0;
        n := n + 1;
      }
      assert s[base + 3 + n] == 0;
    }

    method GetContentOffset(base: nat, ghost f: File) returns (r: nat)
      requires StoredAt(vol[..], f) && base == Base(f)
      ensures r == ContentBase(f)
    {
      var n := GetFilenameLen(base, f);
      r := base + 3 + n + 1;
    }

    method GetContentLen(base: nat, ghost f: File) returns (r: nat)
      requires StoredAt(vol[..], f) && base == Base(f)
      ensures r == |f.content|
    {
      var total := GetFileTotalLength(base, f);
      var offset := GetContentOffset(base, f);
      r := base + total - offset;
    }

    method GetSizeFactor(base: nat, ghost f: File) returns (r: Byte)
      requires StoredAt(vol[..], f) && base == Base(f)
      ensures r == f.size
    {
      StoredPrefix(vol[..], f);
      r := vol[base + 2];
    }

    method GetSize(base: nat, ghost f: File) returns (r: nat)
      requires StoredAt(vol[..], f) && base == Base(f)
      ensures r == f.size as nat * FACTOR
    {
      var size := GetSizeFactor(base, f);
      r := size as nat * FACTOR;
    }

    lemma ValidParts()
      requires Valid()
      ensures vol.Length >= FACTOR && Represents(vol[..], files, Total())
      ensures Layout(files, Total()) && |files| <= MAX_FILES
    {
    }

    lemma MakeValid(n: nat)
      requires vol.Length >= FACTOR && Represents(vol[..], files, n)
      ensures Valid() && Total() == n
    {
    }

    lemma ValidStored(i: nat)
      requires Valid() && i < |files|
      ensures StoredAt(vol[..], files[i]) && End(files[i]) <= Total()
    {
    }

    /** The first block of the file in slot `index`, or 0. */
    method OffsetFactor(index: nat) returns (r: Byte)
      requires Valid() && index < MAX_FILES
      ensures r == Slot(files, index)
      ensures r != 0 <==> index < |files|
    {
      HeaderAt(vol[..], files, Total(), index);
      r := vol[HEADER_BASE + index];
    }

    /** The block after the last one of the file in slot `index`. */
    method EndFactor(index: nat) returns (r: nat)
      requires Valid() && index < |files|
      ensures r == End(files[index])
    {
      var off := OffsetFactor(index);
      StoredPrefix(vol[..], files[index]);
      r := off as nat + vol[off as nat * FACTOR + 2] as nat;
    }

    /** Compares the stored name at `base` with `name`, character by character. */
    method NameMatches(base: nat, name: seq<Byte>, ghost f: File) returns (same: bool)
      requires StoredAt(vol[..], f) && base == Base(f)
      requires forall k :: 0 <= k < |name| ==> name[k] != 0
      ensures same == (f.name == name)
    {
      StoredName(vol[..], f);
      ghost var s := vol[..];
      hide StoredAt;
      var i := 0;
      while true
        invariant i <= |name| && i <= |f.name| && base + 3 + |f.name| < vol.Length
        invariant f.name[..i] == name[..i]
        decreases |f.name| - i
      {
        var testChar := vol[base + 3 + i];
        assert testChar == s[base + 3 + i];
        var trueChar := if i < |name| then name[i] else 0;
        if testChar != trueChar {
          return false;
        }
        if testChar == 0 {
          return true;
        }
        i := i + 1;
      }
    }

    /** Slot and base address of the file called `name`, or `MAX_FILES` and 0. */
    method FilenameToIndex(name: seq<Byte>) returns (index: nat, base: nat)
      requires Valid() && forall k :: 0 <= k < |name| ==> name[k] != 0
      ensures index < |files| || index == MAX_FILES
      ensures index < |files| ==> files[index].name == name && base == Base(files[index]) && Find(files, name) == index
      ensures index >= |files| ==> base == 0 && Find(files, name) == |files|
    {
      hide Valid, StoredAt, Find, Layout, Represents;
      ValidParts();
      index := 0;
      while index < MAX_FILES
        invariant index <= |files|
        invariant forall i :: 0 <= i < index ==> files[i].name != name
      {
        var off := OffsetFactor(index);
        var b := off as nat * FACTOR;
        if b == 0 {
          break;
        }
        ValidStored(index);
        var m := NameMatches(b, name, files[index]);
        if m {
          FindIs(files, name, index);
          return index, b;
        }
        index := index + 1;
      }
      FindIs(files, name, index);
      return MAX_FILES, 0;
    }

    /** The first empty header slot, or `MAX_FILES`. */
    method GetEmptyIndex() returns (index: nat)
      requires Valid()
      ensures index == |files|
    {
      assert |files| <= MAX_FILES;
      index := 0;
      while index < MAX_FILES
        invariant index <= |files|
      {
        var off := OffsetFactor(index);
        if off == 0 {
          return;
        }
        index := index + 1;
      }
    }

    // Finding room.

    /** The lowest run of `sizeFactor` free blocks, or 0. */
    method FindFreeRegionFactor(sizeFactor: Byte) returns (r: Byte)
      requires Valid()
      ensures FirstFit(files, Total(), sizeFactor, r)
    {
      hide FirstFit, NoneBefore, FreeRegion, Layout, Valid;
      ValidParts();
      FirstGap(files, Total(), sizeFactor);
      var firstOff := OffsetFactor(0);
      if firstOff == 0 {
        return if sizeFactor > vol[1] then 0 else 1;
      }
      if sizeFactor <= firstOff - 1 {
        return 1;
      }
      r := GapBetween(sizeFactor);
    }

    /** The gaps between neighbouring files, then the one after the last. */
    method GapBetween(sizeFactor: Byte) returns (r: Byte)
      requires Valid() && files != []
      requires NoneBefore(files, Total(), End(files[0]), sizeFactor)
      ensures FirstFit(files, Total(), sizeFactor, r)
    {
      hide FirstFit, NoneBefore, FreeRegion, Layout, Valid, End, LowByte, FileOk, Ascending, DistinctNames;
      ValidParts();
      var first, second := 0, 1;
      while second < MAX_FILES
        invariant 1 <= second <= |files|
        invariant first == second - 1
        invariant NoneBefore(files, Total(), End(files[first]), sizeFactor)
      {
        var secondOff := OffsetFactor(second);
        if secondOff == 0 {
          break;
        }
        var end := EndFactor(first);
        if sizeFactor as int <= secondOff as int - end {
          GapFits(files, Total(), first, sizeFactor);
          return LowByte(end);
        }
        GapTooSmall(files, Total(), first, sizeFactor);
        first := second;
        second := second + 1;
      }
      r := LastGap(first, sizeFactor);
    }

    /** The gap between the last file and the end of the volume. */
    method LastGap(first: nat, sizeFactor: Byte) returns (r: Byte)
      requires Valid() && first + 1 == |files|
      requires NoneBefore(files, Total(), End(files[first]), sizeFactor)
      ensures FirstFit(files, Total(), sizeFactor, r)
    {
      hide FirstFit, NoneBefore, FreeRegion, Layout, Valid;
      ValidParts();
      var end := EndFactor(first);
      if sizeFactor as int <= vol[1] as int + 1 - end {
        GapFits(files, Total(), first, sizeFactor);
        return LowByte(end);
      }
      GapTooSmall(files, Total(), first, sizeFactor);
      return 0;
    }

    // Writing the volume.

    /** The device write functor. */
    method Write(addr: nat, data: seq<Byte>)
      modifies vol
      ensures vol[..] == Overlay(old(vol[..]), addr, data)
    {
      forall k | addr <= k < addr + |data| && k < vol.Length {
        vol[k] := data[k - addr];
      }
    }

    method WriteByte(addr: nat, value: Byte)
      modifies vol
      ensures vol[..] == Overlay(old(vol[..]), addr, [value])
    {
      Write(addr, [value]);
    }

    method SwapSlots(i: nat, ghost base: seq<Byte>, ghost h: seq<Byte>)
      requires 1 <= i < MAX_FILES == |h| && FACTOR <= |base|
      requires vol[..] == Overlay(base, HEADER_BASE, h)
      modifies vol
      ensures vol[..] == Overlay(base, HEADER_BASE, Swapped(h, i))
    {
      var factorA, factorB := vol[HEADER_BASE + i - 1], vol[HEADER_BASE + i];
      assert factorA == vol[..][HEADER_BASE + i - 1] == h[i - 1] && factorB == vol[..][HEADER_BASE + i] == h[i];
      OverlayUpdate(base, HEADER_BASE, h, i - 1, factorB);
      OverlayUpdate(base, HEADER_BASE, h[i - 1 := factorB], i, factorA);
      vol[HEADER_BASE + i - 1] := factorB;
      vol[HEADER_BASE + i] := factorA;
    }

    /** One pass of the bubble sort over the first `max` slots. */
    method BubblePass(max: nat, ghost base: seq<Byte>, ghost h0: seq<Byte>) returns (change: bool, ghost h: seq<Byte>)
      requires 1 <= max <= MAX_FILES == |h0| && FACTOR <= |base|
      requires vol[..] == Overlay(base, HEADER_BASE, h0)
      requires TailPlaced(h0, max)
      modifies vol
      ensures |h| == MAX_FILES && multiset(h) == multiset(h0)
      ensures vol[..] == Overlay(base, HEADER_BASE, h)
      ensures TailPlaced(h, max - 1)
      ensures change ==> max >= 2
      ensures !change ==> Sorted(h)
    {
      hide TailPlaced, LastIsGreatest, SortedRange, Sorted, Swapped;
      h := h0;
      PassStarts(h);
      change := false;
      var i := 1;
      while i < max
        invariant 1 <= i <= max <= |h| == MAX_FILES
        invariant multiset(h) == multiset(h0)
        invariant vol[..] == Overlay(base, HEADER_BASE, h)
        invariant TailPlaced(h, max)
        invariant LastIsGreatest(h, i)
        invariant if change then i >= 2 else SortedRange(h, 0, i)
      {
        var factorA, factorB := vol[HEADER_BASE + i - 1], vol[HEADER_BASE + i];
        assert factorA == vol[..][HEADER_BASE + i - 1] == h[i - 1] && factorB == vol[..][HEADER_BASE + i] == h[i];
        if factorB != 0 && (factorA == 0 || factorA > factorB) {
          change := true;
          SwapStep(h, i, max);
          SwapSlots(i, base, h);
          h := Swapped(h, i);
        } else {
          KeepStep(h, i);
        }
        i := i + 1;
      }
      PassEnds(h, max);
    }

    /** Bubble sort of the header slots with a shrinking bound. */
    method ResortFileOffsets() returns (ghost h: seq<Byte>)
      requires vol.Length >= FACTOR
      modifies vol
      ensures |h| == MAX_FILES && Sorted(h) && multiset(h) == multiset(HeaderBytes(old(vol[..])))
      ensures vol[..] == Overlay(old(vol[..]), HEADER_BASE, h)
    {
      var max := MAX_FILES;
      var change := true;
      ghost var base := vol[..];
      h := HeaderBytes(base);
      ghost var h0 := h;
      while change
        invariant 0 <= max <= MAX_FILES == |h|
        invariant change ==> max >= 1
        invariant multiset(h) == multiset(h0)
        invariant vol[..] == Overlay(base, HEADER_BASE, h)
        invariant TailPlaced(h, max)
        invariant !change ==> Sorted(h)
        decreases max
      {
        change, h := BubblePass(max, base, h);
        max := max - 1;
      }
    }

    /** Writes length, size factor, name and terminator at the start of a file. */
    method WritePrefix(base: nat, total: Word, size: Byte, name: seq<Byte>)
      modifies vol
      ensures vol[..] == Overlay(old(vol[..]), base, FileHead(total, size, name))
    {
      WriteByte(base, Hi(total));
      WriteByte(base + 1, Lo(total));
      WriteByte(base + 2, size);
      Write(base + 3, name + [0]);
    }

    // Operations.

    /**
     * Creates a file of `contentLen` bytes whose content is whatever its blocks held. If the length does not fit,
     * that succeeds as well, given room for the size factor it is cut to, and leaves bytes that are no volume.
     */
    method FileCreate(name: seq<Byte>, contentLen: Word) returns (ok: bool, ghost f: File)
      requires Valid() && forall k :: 0 <= k < |name| ==> name[k] != 0
      modifies vol, this`files
      ensures ok <==> !readOnly && CanCreate(old(files), old(Total()), name, contentLen)
      ensures !ok ==> vol[..] == old(vol[..]) && files == old(files)
      ensures ok ==> (Fits(name, contentLen) <==> !Broken(vol[..]))
      ensures !ok || Fits(name, contentLen) ==> Valid() && Total() == old(Total())
      ensures ok && Fits(name, contentLen) ==>
                && Created(old(vol[..]), old(files), old(Total()), f, name, contentLen)
                && files == Inserted(old(files), f)
                && Contents(files) == Contents(old(files))[name := f.content]
    {
      hide FirstFit, StoredTotal, SizeFactorFor, Created, HasFreeRegion, Broken, Valid, Contents, Find, Inserted, Fits;
      hide Represents, Layout;
      ValidParts();
      ok, f := false, File(0, 0, [], []);
      if |name| >= PATH_MAX || readOnly {
        return;
      }
      var index, _ := FilenameToIndex(name);
      if index != MAX_FILES {
        return;
      }
      var freeIndex := GetEmptyIndex();
      if freeIndex == MAX_FILES {
        return;
      }
      var total := StoredTotal(name, contentLen);
      var size := SizeFactorFor(total);
      SizeFactorExact(name, contentLen);
      var off := FindFreeRegionFactor(size);
      FirstFitFinds(files, Total(), size, off);
      if off == 0 {
        return;
      }
      f := PlaceNew(freeIndex, off, total, size, name, contentLen);
      ok := true;
      if Fits(name, contentLen) {
        ValidIsWhole();
      }
    }

    /** The writes of `miniFsFileCreate` once a free region is known. */
    method PlaceNew(freeIndex: nat, off: Byte, total: Word, size: Byte, name: seq<Byte>, ghost contentLen: Word)
      returns (ghost f: File)
      requires Valid() && NameOk(name) && freeIndex == |files| < MAX_FILES && off != 0
      requires total == StoredTotal(name, contentLen) && size == SizeFactorFor(total)
      requires FirstFit(files, Total(), size, off) && Find(files, name) == |files|
      modifies vol, this`files
      ensures !Fits(name, contentLen) ==> Broken(vol[..])
      ensures Fits(name, contentLen) ==> Valid() && Total() == old(Total())
      ensures Fits(name, contentLen) ==>
                && Created(old(vol[..]), old(files), old(Total()), f, name, contentLen)
                && files == Inserted(old(files), f)
                && Contents(files) == Contents(old(files))[name := f.content]
    {
      hide Created, FirstFit, Contents, Find, Broken, StoredTotal, SizeFactorFor;
      ghost var s, n := vol[..], Total();
      f := File(0, 0, [], []);
      SizeFactorExact(name, contentLen);
      WriteByte(HEADER_BASE + freeIndex, off);
      WritePrefix(off as nat * FACTOR, total, size, name);
      ghost var r := vol[..];
      ghost var h := ResortFileOffsets();
      if Fits(name, contentLen) {
        f := PlacedNew(s, files, n, off, size, name, contentLen, total, r, h, vol[..]);
        files := Inserted(files, f);
      } else {
        CreateBreaks(s, freeIndex, off, name, contentLen, h);
      }
    }

    lemma ValidIsWhole()
      requires Valid()
      ensures !Broken(vol[..])
    {
    }

    lemma FirstFitFinds(files: seq<File>, total: nat, size: nat, r: nat)
      requires FirstFit(files, total, size, r)
      ensures r != 0 <==> HasFreeRegion(files, total, size)
    {
    }

    /** Removes a file; no byte outside the header changes. */
    method FileDelete(name: seq<Byte>) returns (ok: bool)
      requires Valid() && forall k :: 0 <= k < |name| ==> name[k] != 0
      modifies vol, this`files
      ensures Valid() && Total() == old(Total())
      ensures ok <==> !readOnly && Find(old(files), name) < |old(files)|
      ensures !ok ==> vol[..] == old(vol[..]) && files == old(files)
      ensures ok ==> files == Removed(old(files), Find(old(files), name))
      ensures ok ==> Contents(files) == Contents(old(files)) - {name}
      ensures vol[FACTOR..] == old(vol[FACTOR..])
    {
      if readOnly {
        return false;
      }
      var index, _ := FilenameToIndex(name);
      if index == MAX_FILES {
        FullHasIndex(index);
        return false;
      }
      ClearSlot(index);
      return true;
    }

    lemma FullHasIndex(index: nat)
      requires Valid() && index == MAX_FILES
      ensures |files| <= index
    {
    }

    method ClearSlot(index: nat)
      requires Valid() && index < |files|
      modifies vol, this`files
      ensures Valid() && Total() == old(Total())
      ensures files == Removed(old(files), index)
      ensures Contents(files) == Contents(old(files)) - {old(files)[index].name}
      ensures vol[FACTOR..] == old(vol[FACTOR..])
    {
      ghost var s, n := vol[..], Total();
      assert |files| <= MAX_FILES;
      WriteByte(HEADER_BASE + index, 0);
      ghost var h := ResortFileOffsets();
      hide Represents, Contents, Sorted, Overlay;
      ClearedRepresents(s, files, n, index, h, vol[..]);
      files := Removed(files, index);
    }

    /** Reads up to `len` bytes of content from `offset`. */
    method FileRead(name: seq<Byte>, offset: Word, len: Word) returns (data: seq<Byte>)
      requires Valid() && forall k :: 0 <= k < |name| ==> name[k] != 0
      ensures Find(files, name) == |files| ==> data == []
      ensures Find(files, name) < |files| ==>
                var c := files[Find(files, name)].content;
                && data == Window(c, offset, len) && (offset >= |c| ==> data == [])
                && (offset < |c| ==> offset + |data| <= |c| && (|data| == len || offset + |data| == |c|))
                && forall k :: 0 <= k < |data| ==> data[k] == c[offset + k]
    {
      var index, base := FilenameToIndex(name);
      if index == MAX_FILES {
        FullHasIndex(index);
        return [];
      }
      data := ReadContent(index, base, offset, len);
    }

    method ReadContent(index: nat, base: nat, offset: Word, len: Word) returns (data: seq<Byte>)
      requires Valid() && index < |files| && base == Base(files[index])
      ensures data == Window(files[index].content, offset, len)
    {
      hide Represents, StoredAt, Window, Base, ContentBase, FileOk, TotalLen, End;
      ghost var f, s := files[index], vol[..];
      ValidStored(index);
      hide Valid;
      var fileLen := GetContentLen(base, f);
      WindowIs(f.content, offset, len);
      if offset >= fileLen {
        return [];
      }
      var n := if len > fileLen - offset then fileLen - offset else len;
      var contentOffset := GetContentOffset(base, f);
      StoredContent(s, f, offset, n);
      data := vol[contentOffset + offset..contentOffset + offset + n];
      assert data == s[contentOffset + offset..contentOffset + offset + n];
    }

    /** Overwrites content from `offset`, never past the end of the file. */
    method FileWrite(name: seq<Byte>, offset: Word, data: seq<Byte>) returns (n: nat)
      requires Valid() && |data| < 0x1_0000 && forall k :: 0 <= k < |name| ==> name[k] != 0
      modifies vol, this`files
      ensures Valid() && Total() == old(Total())
      ensures readOnly || Find(old(files), name) == |old(files)| ==> n == 0 && files == old(files)
      ensures !readOnly && Find(old(files), name) < |old(files)| ==>
                var f := old(files)[Find(old(files), name)];
                && n == |Window(f.content, offset, |data|)| && (offset >= |f.content| ==> n == 0)
                && (offset < |f.content| ==> offset + n <= |f.content| && (n == |data| || offset + n == |f.content|))
                && files == old(files)[Find(old(files), name) := f.(content := Overlay(f.content, offset, data))]
                && Contents(files) == Contents(old(files))[name := Overlay(f.content, offset, data)]
    {
      hide Window;
      n := 0;
      if readOnly {
        return;
      }
      var index, base := FilenameToIndex(name);
      if index == MAX_FILES {
        FullHasIndex(index);
        return;
      }
      n := WriteContent(index, base, offset, data);
    }

    method WriteContent(index: nat, base: nat, offset: Word, data: seq<Byte>) returns (n: nat)
      requires Valid() && index < |files| && base == Base(files[index])
      modifies vol, this`files
      ensures Valid() && Total() == old(Total())
      ensures var f := old(files)[index];
              && n == |Window(f.content, offset, |data|)|
              && files == old(files)[index := f.(content := Overlay(f.content, offset, data))]
              && Contents(files) == Contents(old(files))[f.name := Overlay(f.content, offset, data)]
    {
      ghost var f, s, total := files[index], vol[..], Total();
      ValidStored(index);
      var fileLen := GetContentLen(base, f);
      var contentOffset := GetContentOffset(base, f);
      n := if offset >= fileLen then 0 else if |data| > fileLen - offset then fileLen - offset else |data|;
      if n == 0 {
        assert Overlay(f.content, offset, data) == f.content;
        UnchangedFile(files, total, index);
        return;
      }
      Write(contentOffset + offset, data[..n]);
      assert Overlay(f.content, offset, data) == Overlay(f.content, offset, data[..n]);
      hide Represents, Contents, StoredAt;
      ghost var g := ContentRepresents(s, files, total, index, offset, data[..n], vol[..]);
      files := files[index := g];
    }

    /** Writes a new length and size factor in front of a stored name. */
    method WriteHead(base: nat, total: Word, size: Byte)
      modifies vol
      ensures vol[..] == Overlay(old(vol[..]), base, LengthHead(total, size))
    {
      WriteByte(base, Hi(total));
      WriteByte(base + 1, Lo(total));
      WriteByte(base + 2, size);
    }

    /** Gives file `index` a new length and size factor where it lies. */
    method Rehead(index: nat, base: nat, ghost newLen: Word, newTotal: Word, size: Byte) returns (ghost g: File)
      requires Valid() && index < |files| && base == Base(files[index])
      requires newTotal == StoredTotal(files[index].name, newLen)
      requires Fits(files[index].name, newLen) ==>
        newTotal <= size as nat * FACTOR && files[index].off as nat + size as nat <= GapEnd(files, Total(), index)
      requires !Fits(files[index].name, newLen) ==> Impossible(newTotal, size, files[index].name)
      modifies vol, this`files
      ensures !Fits(old(files)[index].name, newLen) ==> Broken(vol[..])
      ensures Fits(old(files)[index].name, newLen) ==> Valid() && Total() == old(Total())
      ensures Fits(old(files)[index].name, newLen) ==>
        && Renewed(old(files)[index], g, old(files)[index].off, size, newLen) && files == old(files)[index := g]
        && Contents(files) == Contents(old(files))[g.name := g.content]
    {
      hide Represents, Contents, GapEnd, Resized, LengthHead, Broken, Impossible, StoredTotal, Valid;
      ValidParts();
      ghost var s, n, name := vol[..], Total(), files[index].name;
      SizeFactorExact(name, newLen);
      WriteHead(base, newTotal, size);
      g := files[index];
      if Fits(name, newLen) {
        g := ReheadedRepresents(s, files, n, index, size, newLen, newTotal, vol[..]);
        files := files[index := g];
        MakeValid(n);
      } else {
        ReheadBreaks(s, files, n, index, newTotal, size);
      }
    }

    /** Lengthens file `index` within the blocks it already has. */
    method Relength(index: nat, base: nat, ghost newLen: Word, newTotal: Word) returns (ghost g: File)
      requires Valid() && index < |files| && base == Base(files[index])
      requires newTotal == StoredTotal(files[index].name, newLen) && newTotal <= files[index].size as nat * FACTOR
      modifies vol, this`files
      ensures !Fits(old(files)[index].name, newLen) ==> Broken(vol[..])
      ensures Fits(old(files)[index].name, newLen) ==> Valid() && Total() == old(Total())
      ensures Fits(old(files)[index].name, newLen) ==>
        && Renewed(old(files)[index], g, old(files)[index].off, old(files)[index].size, newLen)
        && files == old(files)[index := g]
        && Contents(files) == Contents(old(files))[g.name := g.content]
    {
      hide Valid, Represents, Contents, GapEnd, Resized, StoredAt, Layout, Overlay, LengthHead, Broken, StoredTotal;
      ValidParts();
      ValidStored(index);
      ghost var s, n, size, name := vol[..], Total(), files[index].size, files[index].name;
      StoredPrefix(s, files[index]);
      StoredOff(s, files[index]);
      GapInside(files, n, index);
      SizeFactorExact(name, newLen);
      WriteLength(base, newTotal, size);
      g := files[index];
      if Fits(name, newLen) {
        g := ReheadedRepresents(s, files, n, index, size, newLen, newTotal, vol[..]);
        files := files[index := g];
        MakeValid(n);
      } else {
        TooLongIsImpossible(name, newLen);
        ReheadBreaks(s, files, n, index, newTotal, size);
      }
    }

    /** Writes a new length in front of the size factor already stored. */
    method WriteLength(base: nat, total: Word, ghost size: Byte)
      requires base + 2 < vol.Length && vol[base + 2] == size
      modifies vol
      ensures vol[..] == Overlay(old(vol[..]), base, LengthHead(total, size))
    {
      OverlayTwoOfThree(vol[..], base, Hi(total), Lo(total), size);
      WriteByte(base, Hi(total));
      WriteByte(base + 1, Lo(total));
    }

    /** Where the gap after file `index` ends. */
    method NextOffsetFactor(index: nat) returns (r: nat)
      requires Valid() && index < |files|
      ensures r == GapEnd(files, Total(), index)
    {
      assert |files| <= MAX_FILES && vol.Length >= FACTOR;
      var next := index + 1;
      while next < MAX_FILES
        invariant index + 1 <= next <= MAX_FILES
        invariant next > index + 1 ==> index + 1 == |files|
      {
        var off := OffsetFactor(next);
        if off != 0 {
          return off as nat;
        }
        next := next + 1;
      }
      r := vol[1] as nat + 1;
    }

    /** Copies `len` bytes; source and destination do not overlap. */
    method CopyBytesTo(to: nat, from: nat, len: nat, ghost data: seq<Byte>)
      requires from + len <= vol.Length && (to + len <= from || from + len <= to)
      requires |data| == len && vol[..][from..from + len] == data
      modifies vol
      ensures vol[..] == Overlay(old(vol[..]), to, data)
    {
      ghost var s := vol[..];
      var i := 0;
      assert Overlay(s, to, data[..0]) == s;
      while i < len
        invariant 0 <= i <= len
        invariant vol[..] == Overlay(s, to, data[..i])
      {
        assert vol[from + i] == vol[..][from + i] == s[from + i] == s[from..from + len][i] == data[i];
        WriteByte(to + i, vol[from + i]);
        OverlayExtend(s, to, data, i);
        i := i + 1;
      }
      assert data[..len] == data;
    }

    /** Copies the content of `f` elsewhere. */
    method CopyContent(base: nat, to: nat, ghost f: File)
      requires StoredAt(vol[..], f) && base == Base(f)
      requires to + |f.content| <= ContentBase(f) || ContentBase(f) + |f.content| <= to
      modifies vol
      ensures vol[..] == Overlay(old(vol[..]), to, f.content)
    {
      var contentOffset := GetContentOffset(base, f);
      var contentLen := GetContentLen(base, f);
      StoredContent(vol[..], f, 0, |f.content|);
      assert f.content[0..|f.content|] == f.content;
      CopyBytesTo(to, contentOffset, contentLen, f.content);
    }

    /** Copies file `index` into a free region and points its slot there. */
    method MoveTo(index: nat, base: nat, name: seq<Byte>, ghost newLen: Word, newTotal: Word, newSize: Byte, off: Byte)
      returns (ghost g: File)
      requires Valid() && index < |files| && base == Base(files[index]) && name == files[index].name
      requires |files[index].content| <= newLen && newTotal == StoredTotal(name, newLen)
      requires newSize == SizeFactorFor(newTotal) && newSize > files[index].size
      requires FirstFit(files, Total(), newSize, off) && off != 0
      modifies vol, this`files
      ensures !Fits(name, newLen) ==> Broken(vol[..])
      ensures Fits(name, newLen) ==> Valid() && Total() == old(Total())
      ensures Fits(name, newLen) ==>
        && Renewed(old(files)[index], g, off, newSize, newLen) && files == Inserted(Removed(old(files), index), g)
        && Contents(files) == Contents(old(files))[name := g.content]
    {
      hide Valid, Represents, Contents, FileHead, Placed, Resized, Blocks, Overlay, StoredAt, Broken, Impossible;
      hide StoredTotal, SizeFactorFor, MoveWrites;
      ValidParts();
      ValidStored(index);
      StoredOff(vol[..], files[index]);
      ghost var s, n, f := vol[..], Total(), files[index];
      MoveReads(s, files, n, index, off, newSize, newTotal);
      hide FirstFit, FreeRegion;
      SizeFactorExact(name, newLen);
      g := f;
      if Fits(name, newLen) {
        g := CopyPlan(s, files, n, index, off, newSize, newLen, newTotal);
        WritesAre(s, index, off, newTotal, newSize, name, f.content);
      } else {
        TooLongIsImpossible(name, newLen);
      }
      MoveBytes(index, base, name, newTotal, newSize, off, f);
      FinishMove(index, s, n, g, newLen, newTotal, newSize, off, f);
    }

    lemma WritesAre(s: seq<Byte>, slot: nat, off: Byte, total: Word, size: Byte, name: seq<Byte>, content: seq<Byte>)
      ensures var u := Overlay(s, off as nat * FACTOR, FileHead(total, size, name));
              MoveWrites(s, slot, off, total, size, name, content)
              == Overlay(Overlay(u, off as nat * FACTOR + 4 + |name|, content), HEADER_BASE + slot, [off])
    {
    }

    /** The writes of a move up to the new header slot. */
    method MoveBytes(index: nat, base: nat, name: seq<Byte>, newTotal: Word, newSize: Byte, off: Byte, ghost f: File)
      requires base == Base(f) && StoredAt(Overlay(vol[..], off as nat * FACTOR, FileHead(newTotal, newSize, name)), f)
      requires var to := off as nat * FACTOR + 4 + |name|;
               to + |f.content| <= ContentBase(f) || ContentBase(f) + |f.content| <= to
      modifies vol
      ensures vol[..] == MoveWrites(old(vol[..]), index, off, newTotal, newSize, name, f.content)
    {
      hide Overlay, StoredAt, FileHead;
      var newBase := off as nat * FACTOR;
      WritePrefix(newBase, newTotal, newSize, name);
      CopyContent(base, newBase + 4 + |name|, f);
      WriteByte(HEADER_BASE + index, off);
    }

    /** Sorts the header and settles what the moved volume holds. */
    method FinishMove(index: nat, ghost s: seq<Byte>, ghost n: nat, ghost g: File,
                      ghost newLen: Word, ghost newTotal: Word, ghost newSize: Byte, ghost off: Byte, ghost f: File)
      requires Represents(s, files, n) && index < |files| && |s| >= FACTOR && index < MAX_FILES && f == files[index]
      requires vol[..] == MoveWrites(s, index, off, newTotal, newSize, f.name, f.content) && off != 0 && NameOk(f.name)
      requires Fits(f.name, newLen) ==> Placed(s, files, n, index, g, vol[..]) && g.name == f.name
      requires !Fits(f.name, newLen) ==> Impossible(newTotal, newSize, f.name)
      modifies vol, this`files
      ensures !Fits(f.name, newLen) ==> Broken(vol[..])
      ensures Fits(f.name, newLen) ==> Valid() && Total() == n && files == Inserted(Removed(old(files), index), g)
      ensures Fits(f.name, newLen) ==> Contents(files) == Contents(old(files))[g.name := g.content]
    {
      hide Valid, Represents, Contents, Placed, Overlay, Sorted, Broken, Impossible, MoveWrites, FileHead, NameOk;
      ghost var r := vol[..];
      ghost var h := ResortFileOffsets();
      if Fits(f.name, newLen) {
        MovedRepresents(s, files, n, index, g, r, h);
        files := Inserted(Removed(files, index), g);
        MakeValid(n);
      } else {
        MoveBreaks(s, index, off, newTotal, newSize, f.name, f.content, h);
      }
    }

    /**
     * Changes a file's length, in place where possible and otherwise by moving it. A length that does not fit is cut
     * like that of a create: if there is room for what is left of it, the bytes are no volume afterwards.
     */
    method FileResize(name: seq<Byte>, newLen: Word) returns (ok: bool, ghost g: File)
      requires Valid() && forall k :: 0 <= k < |name| ==> name[k] != 0
      modifies vol, this`files
      ensures ok <==> !readOnly && Find(old(files), name) < |old(files)|
                      && CanResize(old(files), old(Total()), Find(old(files), name), newLen)
      ensures !ok ==> vol[..] == old(vol[..]) && files == old(files)
      ensures ok ==> (Fits(name, newLen) <==> !Broken(vol[..]))
      ensures !ok || Fits(name, newLen) ==> Valid() && Total() == old(Total())
      ensures ok && Fits(name, newLen) ==>
        && ResizedTo(old(files), old(Total()), Find(old(files), name), newLen, g, files)
        && Contents(files) == Contents(old(files))[name := g.content]
        && |g.content| == newLen
        && var c := old(files)[Find(old(files), name)].content;
           forall k :: 0 <= k < |c| && k < newLen ==> g.content[k] == c[k]
    {
      hide CanResize, ResizedTo, Contents, Broken, Valid;
      ok, g := false, File(0, 0, [], []);
      ValidParts();
      if readOnly {
        return;
      }
      var index, base := FilenameToIndex(name);
      if index == MAX_FILES {
        return;
      }
      ghost var before, total := files, Total();
      ok, g := ResizeAt(index, base, name, newLen);
      if ok && Fits(name, newLen) {
        ValidIsWhole();
        ResizedKeeps(before, total, index, newLen, g, files);
      }
    }

    method ResizeAt(index: nat, base: nat, name: seq<Byte>, newLen: Word) returns (ok: bool, ghost g: File)
      requires Valid() && index < |files| && base == Base(files[index]) && name == files[index].name
      modifies vol, this`files
      ensures ok <==> CanResize(old(files), old(Total()), index, newLen)
      ensures !ok ==> vol[..] == old(vol[..]) && files == old(files)
      ensures ok && !Fits(name, newLen) ==> Broken(vol[..])
      ensures !ok || Fits(name, newLen) ==> Valid() && Total() == old(Total())
      ensures ok && Fits(name, newLen) ==>
        && ResizedTo(old(files), old(Total()), index, newLen, g, files)
        && Contents(files) == Contents(old(files))[name := g.content]
    {
      ghost var f := files[index];
      ValidStored(index);
      StoredOff(vol[..], f);
      hide Valid, StoredAt, GapEnd, Contents, FirstFit, HasFreeRegion, Resized, SizeFactorFor, Broken, Impossible, Find;
      ok, g := true, f;
      var contentLen := GetContentLen(base, f);
      var totalLen := GetFileTotalLength(base, f);
      var newTotal := Wrap(totalLen + newLen - contentLen);
      assert newTotal == StoredTotal(name, newLen);
      if newLen <= contentLen {
        ShrinkFits(files, Total(), index, newLen);
        g := Rehead(index, base, newLen, newTotal, SizeFactorFor(newTotal));
        return;
      }
      var size := GetSize(base, f);
      if newTotal <= size {
        g := Relength(index, base, newLen, newTotal);
        return;
      }
      ok, g := GrowAt(index, base, name, newLen, newTotal);
    }

    lemma ShrinkFits(files: seq<File>, total: nat, i: nat, newLen: Word)
      requires Layout(files, total) && i < |files| && newLen <= |files[i].content|
      ensures var newTotal := StoredTotal(files[i].name, newLen);
              && Fits(files[i].name, newLen) && newTotal <= files[i].size as nat * FACTOR
              && newTotal <= SizeFactorFor(newTotal) as nat * FACTOR
              && files[i].off as nat + SizeFactorFor(newTotal) as nat <= GapEnd(files, total, i)
    {
      assert FileOk(files[i]);
      GapInside(files, total, i);
      SizeFactorExact(files[i].name, newLen);
      BlocksLeast(4 + |files[i].name| + newLen, files[i].size as nat);
    }

    /** A resize that needs more blocks: extend into the gap after the file, or move. */
    method GrowAt(index: nat, base: nat, name: seq<Byte>, newLen: Word, newTotal: Word)
      returns (ok: bool, ghost g: File)
      requires Valid() && index < |files| && base == Base(files[index]) && name == files[index].name
      requires newTotal == StoredTotal(name, newLen) && |files[index].content| <= newLen
      requires newTotal > files[index].size as nat * FACTOR
      modifies vol, this`files
      ensures ok <==> CanResize(old(files), old(Total()), index, newLen)
      ensures !ok ==> vol[..] == old(vol[..]) && files == old(files)
      ensures ok && !Fits(name, newLen) ==> Broken(vol[..])
      ensures !ok || Fits(name, newLen) ==> Valid() && Total() == old(Total())
      ensures ok && Fits(name, newLen) ==>
        && ResizedTo(old(files), old(Total()), index, newLen, g, files)
        && Contents(files) == Contents(old(files))[name := g.content]
    {
      hide Valid, GapEnd, Contents, FirstFit, HasFreeRegion, Resized, SizeFactorFor, LowByte, Base, Broken, Impossible;
      hide StoredTotal, StoredAt, Represents, Layout, Inserted, Removed;
      ValidParts();
      ValidStored(index);
      StoredOff(vol[..], files[index]);
      BaseFactor(files[index]);
      GapIsByte(files, Total(), index);
      GapInside(files, Total(), index);
      SizeFactorExact(name, newLen);
      if !Fits(name, newLen) {
        TooLongIsImpossible(name, newLen);
      }
      var newSize := SizeFactorFor(newTotal);
      var nextOff := NextOffsetFactor(index);
      var currOff := base / FACTOR;
      var maxSize := LowByte(nextOff - currOff);
      if newSize <= maxSize {
        g := Rehead(index, base, newLen, newTotal, newSize);
        ok := true;
        return;
      }
      ok, g := MoveAway(index, base, name, newLen, newTotal, newSize);
    }

    /** Moving to the lowest free region, which has more blocks than the file had. */
    method MoveAway(index: nat, base: nat, name: seq<Byte>, ghost newLen: Word, newTotal: Word, newSize: Byte)
      returns (ok: bool, ghost g: File)
      requires Valid() && index < |files| && base == Base(files[index]) && name == files[index].name
      requires |files[index].content| <= newLen && newTotal == StoredTotal(name, newLen)
      requires newSize == SizeFactorFor(newTotal) && newSize > files[index].size
      modifies vol, this`files
      ensures ok <==> HasFreeRegion(old(files), old(Total()), newSize as nat)
      ensures !ok ==> vol[..] == old(vol[..]) && files == old(files)
      ensures ok && !Fits(name, newLen) ==> Broken(vol[..])
      ensures !ok || Fits(name, newLen) ==> Valid() && Total() == old(Total())
      ensures ok && Fits(name, newLen) ==>
        && Renewed(old(files)[index], g, g.off, newSize, newLen) && files == Inserted(Removed(old(files), index), g)
        && FirstFit(old(files), old(Total()), newSize, g.off)
        && Contents(files) == Contents(old(files))[name := g.content]
    {
      hide Valid, GapEnd, Contents, FirstFit, HasFreeRegion, Resized, Broken, StoredTotal, SizeFactorFor;
      ok, g := false, files[index];
      ValidParts();
      var off := FindFreeRegionFactor(newSize);
      FirstFitFinds(files, Total(), newSize, off);
      if off != 0 {
        g := MoveTo(index, base, name, newLen, newTotal, newSize, off);
        ok := true;
      }
    }

    /** Formats the volume: magic byte, size, empty header. */
    method Format(maxTotalSize: Word) returns (ok: bool)
      requires maxTotalSize <= vol.Length
      modifies vol, this`files
      ensures ok <==> FACTOR <= maxTotalSize / FACTOR * FACTOR <= 256 * FACTOR
      ensures !ok ==> vol[..] == old(vol[..]) && files == old(files)
      ensures ok ==> Valid() && files == [] && Contents(files) == map[] && Total() == maxTotalSize / FACTOR
    {
      var totalSizeFactor := maxTotalSize / FACTOR;
      var totalSize := totalSizeFactor * FACTOR;
      if totalSize < FACTOR || totalSize > 256 * FACTOR {
        return false;
      }
      WriteByte(0, MAGIC);
      WriteByte(1, totalSizeFactor - 1);
      ghost var s := vol[..];
      var i := 0;
      while i < MAX_FILES
        invariant 0 <= i <= MAX_FILES && vol.Length == |s|
        invariant vol[0] == MAGIC && vol[1] as nat == totalSizeFactor - 1
        invariant forall k :: HEADER_BASE <= k < HEADER_BASE + i ==> vol[k] == 0
      {
        WriteByte(HEADER_BASE + i, 0);
        assert forall k :: 0 <= k < vol.Length ==> vol[k] == vol[..][k];
        i := i + 1;
      }
      files := [];
      assert HeaderBytes(vol[..]) == Header([]);
      return true;
    }

    /** The check the operations assert before they return. */
    method IsConsistent() returns (b: bool)
      requires vol.Length >= FACTOR
      ensures b <==> vol[0] == MAGIC && Sorted(HeaderBytes(vol[..]))
    {
      hide Sorted, SortedRange, NonZero, Key;
      ghost var h := HeaderBytes(vol[..]);
      assert forall k :: 0 <= k < MAX_FILES ==> h[k] == vol[HEADER_BASE + k];
      if vol[0] != MAGIC {
        return false;
      }
      var totalSize := (vol[1] as nat + 1) * FACTOR;
      if totalSize < FACTOR || totalSize > 256 * FACTOR {
        return false;
      }
      var prevOffsetFactor: Byte := 0;
      var i := 0;
      RunStarts(h);
      while i < MAX_FILES
        invariant 0 <= i <= MAX_FILES
        invariant prevOffsetFactor == if i == 0 then 0 else h[i - 1]
        invariant NonZero(h, 0, i) && SortedRange(h, 0, i)
      {
        var off := vol[HEADER_BASE + i];
        if off == 0 {
          break;
        }
        RunGrows(h, i);
        if off < prevOffsetFactor {
          return false;
        }
        prevOffsetFactor := off;
        i := i + 1;
      }
      ghost var n := i;
      while i < MAX_FILES
        invariant n <= i <= MAX_FILES && (n < MAX_FILES ==> h[n] == 0)
        invariant forall k :: n <= k < i ==> h[k] == 0
      {
        if vol[HEADER_BASE + i] != 0 {
          RunInterrupted(h, n, i);
          return false;
        }
        i := i + 1;
      }
      RunEnds(h, n);
      return true;
    }

    /** A valid volume passes the check, so the assertions after each operation hold. */
    lemma ValidIsConsistent()
      requires Valid()
      ensures vol[0] == MAGIC && Sorted(HeaderBytes(vol[..]))
    {
    }
  }

  lemma FindIs(files: seq<File>, name: seq<Byte>, i: nat)
    requires i <= |files| && (i < |files| ==> files[i].name == name)
    requires forall j :: 0 <= j < i ==> files[j].name != name
    ensures Find(files, name) == i
  {
    hide Find;
  }

  lemma ResizedKeeps(files: seq<File>, total: nat, i: nat, len: Word, g: File, after: seq<File>)
    requires i < |files| && ResizedTo(files, total, i, len, g, after)
    ensures Resized(files[i].content, g.content, len)
  {
    hide FirstFit, Inserted, StaysInPlace;
  }

  predicate NonZero(h: seq<Byte>, from: nat, to: nat)
    requires to <= |h|
  {
    forall k :: from <= k < to ==> h[k] != 0
  }

  lemma RunStarts(h: seq<Byte>)
    ensures NonZero(h, 0, 0) && SortedRange(h, 0, 0)
  {
  }

  /** One more block in order, or a header out of order. */
  lemma RunGrows(h: seq<Byte>, i: nat)
    requires i < |h| && h[i] != 0 && NonZero(h, 0, i) && SortedRange(h, 0, i)
    ensures i == 0 || h[i - 1] <= h[i] ==> NonZero(h, 0, i + 1) && SortedRange(h, 0, i + 1)
    ensures i > 0 && h[i] < h[i - 1] ==> !Sorted(h)
  {
    if i > 0 && h[i] < h[i - 1] {
      assert Key(h[i]) < Key(h[i - 1]);
    }
  }

  /** A block after an empty slot. */
  lemma RunInterrupted(h: seq<Byte>, n: nat, i: nat)
    requires n <= i < |h| && h[i] != 0 && h[n] == 0
    ensures !Sorted(h)
  {
    assert n < i && Key(h[i]) < Key(h[n]);
  }

  /** Blocks in order, and then empty slots. */
  lemma RunEnds(h: seq<Byte>, n: nat)
    requires n <= |h| && NonZero(h, 0, n) && SortedRange(h, 0, n) && forall k :: n <= k < |h| ==> h[k] == 0
    ensures Sorted(h)
  {
  }
}
