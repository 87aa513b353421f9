/** Adding, removing and replacing files in the sorted list of extents. */
module FileList {
  import opened Words
  import opened HeaderSort
  import opened MiniFsModel

  /** How many files start before block `off`. */
  function Rank(files: seq<File>, off: Byte): (p: nat)
    ensures p <= |files|
    ensures forall i :: 0 <= i < p ==> files[i].off < off
    ensures p < |files| ==> off <= files[p].off
  {
    if files == [] || off <= files[0].off then 0 else 1 + Rank(files[1..], off)
  }

  function InsertedAt(files: seq<File>, p: nat, f: File): (r: seq<File>)
    requires p <= |files|
    ensures |r| == |files| + 1
    ensures forall k :: 0 <= k < |r| ==> r[k] == if k < p then files[k] else if k == p then f else files[k - 1]
  {
    files[..p] + [f] + files[p..]
  }

  /** `files` with `f` put in its place by block number. */
  function Inserted(files: seq<File>, f: File): seq<File> {
    InsertedAt(files, Rank(files, f.off), f)
  }

  function Removed(files: seq<File>, i: nat): (r: seq<File>)
    requires i < |files|
    ensures |r| == |files| - 1
    ensures forall k :: 0 <= k < |r| ==> r[k] == if k < i then files[k] else files[k + 1]
  {
    files[..i] + files[i + 1..]
  }

  predicate Apart(f: File, g: File) {
    End(f) <= g.off as nat || End(g) <= f.off as nat
  }

  predicate ApartFromAll(files: seq<File>, f: File) {
    forall i :: 0 <= i < |files| ==> Apart(files[i], f)
  }

  /** Every file before the rank of `f` ends before it, every other one starts after it. */
  predicate Splits(files: seq<File>, p: nat, f: File) {
    forall i :: 0 <= i < |files| ==> if i < p then End(files[i]) <= f.off as nat else End(f) <= files[i].off as nat
  }

  lemma RankSplits(files: seq<File>, f: File)
    requires Ascending(files) && ApartFromAll(files, f) && f.size > 0
    requires forall i :: 0 <= i < |files| ==> files[i].size > 0
    ensures Splits(files, Rank(files, f.off), f)
  {
  }

  lemma InsertedAscending(files: seq<File>, p: nat, f: File)
    requires Ascending(files) && p <= |files| && Splits(files, p, f)
    ensures Ascending(InsertedAt(files, p, f))
  {
  }

  lemma InsertedNames(files: seq<File>, p: nat, f: File)
    requires DistinctNames(files) && p <= |files|
    requires forall i :: 0 <= i < |files| ==> files[i].name != f.name
    ensures DistinctNames(InsertedAt(files, p, f))
  {
  }

  lemma InsertedLayout(files: seq<File>, f: File, total: nat)
    requires Layout(files, total) && |files| < MAX_FILES
    requires FileOk(f) && End(f) <= total && ApartFromAll(files, f)
    requires forall i :: 0 <= i < |files| ==> files[i].name != f.name
    ensures Layout(Inserted(files, f), total)
  {
    hide Ascending, DistinctNames, Splits, ApartFromAll;
    RankSplits(files, f);
    InsertedAscending(files, Rank(files, f.off), f);
    InsertedNames(files, Rank(files, f.off), f);
  }

  lemma RemovedLayout(files: seq<File>, i: nat, total: nat)
    requires Layout(files, total) && i < |files|
    ensures Layout(Removed(files, i), total)
  {
  }

  /** Replacing file `i` by one of the same name and block that ends in time. */
  lemma ReplacedLayout(files: seq<File>, total: nat, i: nat, f: File)
    requires Layout(files, total) && i < |files|
    requires f.off == files[i].off && f.name == files[i].name && FileOk(f)
    requires End(f) <= GapEnd(files, total, i)
    ensures Layout(files[i := f], total) && Header(files[i := f]) == Header(files)
  {
  }

  /** Where a replaced or inserted file could clash: the others stay apart from it. */
  lemma ReplacedApart(files: seq<File>, total: nat, i: nat, f: File, k: nat)
    requires i < |files| && k < |files| && k != i && Layout(files[i := f], total)
    ensures Apart(files[k], f)
  {
    assert files[i := f][k] == files[k] && files[i := f][i] == f;
  }

  // Gaps.

  /** The gap before the first file, or the whole of an empty volume. */
  lemma FirstGap(files: seq<File>, total: nat, size: nat)
    requires Layout(files, total)
    ensures 1 + size <= (if files == [] then total else files[0].off as nat) ==> FirstFit(files, total, size, 1)
    ensures 1 + size > total && files == [] ==> FirstFit(files, total, size, 0)
    ensures files != [] && 1 + size > files[0].off as nat ==> NoneBefore(files, total, End(files[0]), size)
  {
  }

  lemma GapFits(files: seq<File>, total: nat, i: nat, size: nat)
    requires Layout(files, total) && i < |files|
    requires NoneBefore(files, total, End(files[i]), size)
    requires End(files[i]) + size <= GapEnd(files, total, i)
    ensures total <= 256 ==> FirstFit(files, total, size, LowByte(End(files[i])))
  {
    assert size == 0 ==> FreeRegion(files, total, 1, size);
  }

  /** A gap that is too small rules out every start up to the end of the file after it. */
  lemma GapTooSmall(files: seq<File>, total: nat, i: nat, size: nat)
    requires Layout(files, total) && i < |files|
    requires NoneBefore(files, total, End(files[i]), size)
    requires End(files[i]) + size > GapEnd(files, total, i)
    ensures i + 1 < |files| ==> NoneBefore(files, total, End(files[i + 1]), size)
    ensures i + 1 == |files| ==> FirstFit(files, total, size, 0)
  {
  }

  lemma GapIsByte(files: seq<File>, total: nat, i: nat)
    requires Layout(files, total) && i < |files| && total <= 256
    ensures var gap := GapEnd(files, total, i) - files[i].off; gap >= 0 && LowByte(gap) == gap
  {
  }

  /** A free region is apart from every file. */
  lemma FreeIsApart(files: seq<File>, total: nat, f: File)
    requires FreeRegion(files, total, f.off as nat, f.size as nat)
    ensures ApartFromAll(files, f) && End(f) <= total && f.off != 0
  {
  }

  // The header as a multiset of slots.

  lemma HeaderSorted(files: seq<File>, total: nat)
    requires Layout(files, total)
    ensures Sorted(Header(files))
  {
  }

  lemma UpdateMultiset(h: seq<Byte>, i: nat, x: Byte)
    requires i < |h|
    ensures multiset(h[i := x]) == multiset(h) - multiset{h[i]} + multiset{x}
  {
  }

  /** `h` with `x` pushed in at slot `p` and its last slot dropped. */
  function PushSlot(h: seq<Byte>, p: nat, x: Byte): (r: seq<Byte>)
    requires p < |h|
    ensures |r| == |h|
    ensures forall k :: 0 <= k < |h| ==> r[k] == if k < p then h[k] else if k == p then x else h[k - 1]
  {
    h[..p] + [x] + h[p..|h| - 1]
  }

  lemma PushMultiset(h: seq<Byte>, p: nat, x: Byte)
    requires p < |h|
    ensures multiset(PushSlot(h, p, x)) == multiset(h) - multiset{h[|h| - 1]} + multiset{x}
  {
    assert h == h[..p] + h[p..|h| - 1] + [h[|h| - 1]];
  }

  lemma InsertedSlots(files: seq<File>, p: nat, f: File)
    requires p <= |files| < MAX_FILES
    ensures Header(InsertedAt(files, p, f)) == PushSlot(Header(files), p, f.off)
  {
  }

  lemma RemovedSlots(files: seq<File>, i: nat)
    requires i < |files| <= MAX_FILES
    ensures Header(files) == PushSlot(Header(Removed(files, i)), i, files[i].off)
  {
  }

  /** Writing the new file's block into the first free slot and sorting gives the new header. */
  lemma InsertedHeader(files: seq<File>, f: File)
    requires |files| < MAX_FILES
    ensures multiset(Header(Inserted(files, f))) == multiset(Header(files)[|files| := f.off])
  {
    var h, p := Header(files), Rank(files, f.off);
    InsertedSlots(files, p, f);
    PushMultiset(h, p, f.off);
    UpdateMultiset(h, |files|, f.off);
  }

  lemma RemovedHeader(files: seq<File>, i: nat)
    requires i < |files| <= MAX_FILES
    ensures multiset(Header(Removed(files, i))) == multiset(Header(files)[i := 0])
  {
    var h, r := Header(files), Header(Removed(files, i));
    RemovedSlots(files, i);
    PushMultiset(r, i, files[i].off);
    UpdateMultiset(h, i, 0);
    assert r[MAX_FILES - 1] == 0 && h[i] == files[i].off;
  }

  /** A moved file: overwriting its slot with the new block and sorting gives the new header. */
  lemma MovedHeader(files: seq<File>, i: nat, f: File)
    requires i < |files| <= MAX_FILES
    ensures multiset(Header(Inserted(Removed(files, i), f))) == multiset(Header(files)[i := f.off])
  {
    var rest := Removed(files, i);
    RemovedHeader(files, i);
    InsertedHeader(rest, f);
    UpdateMultiset(Header(rest), |rest|, f.off);
    UpdateMultiset(Header(files), i, 0);
    UpdateMultiset(Header(files), i, f.off);
  }

  // The abstract map.

  /** In a list with distinct names, `Contents` is lookup. */
  lemma ContentsHas(files: seq<File>, i: nat)
    requires DistinctNames(files) && i < |files|
    ensures files[i].name in Contents(files) && Contents(files)[files[i].name] == files[i].content
  {
  }

  lemma ContentsLacks(files: seq<File>, name: seq<Byte>)
    requires forall i :: 0 <= i < |files| ==> files[i].name != name
    ensures name !in Contents(files)
  {
  }

  /** `b` agrees with `a` about `name`: both lack it or both hold it with the same content. */
  predicate SameEntry(a: map<seq<Byte>, seq<Byte>>, b: map<seq<Byte>, seq<Byte>>, name: seq<Byte>) {
    (name in a <==> name in b) && (name in a ==> a[name] == b[name])
  }

  lemma SameMap(a: map<seq<Byte>, seq<Byte>>, b: map<seq<Byte>, seq<Byte>>)
    requires forall name :: SameEntry(a, b, name)
    ensures a == b
  {
    forall name
      ensures name in a <==> name in b
      ensures name in a ==> a[name] == b[name]
    {
      assert SameEntry(a, b, name);
    }
  }

  lemma InsertedEntry(files: seq<File>, p: nat, f: File, name: seq<Byte>)
    requires p <= |files| && DistinctNames(files) && DistinctNames(InsertedAt(files, p, f))
    ensures SameEntry(Contents(InsertedAt(files, p, f)), Contents(files)[f.name := f.content], name)
  {
    hide DistinctNames, Contents;
    var r := InsertedAt(files, p, f);
    var k := Find(files, name);
    if name == f.name {
      ContentsHas(r, p);
    } else if k < |files| {
      ContentsHas(files, k);
      ContentsHas(r, if k < p then k else k + 1);
    } else {
      ContentsLacks(files, name);
      ContentsLacks(r, name);
    }
  }

  lemma InsertedContents(files: seq<File>, f: File, total: nat)
    requires Layout(files, total) && Layout(Inserted(files, f), total)
    ensures Contents(Inserted(files, f)) == Contents(files)[f.name := f.content]
  {
    hide SameEntry, Contents, DistinctNames, Ascending;
    var a, b := Contents(Inserted(files, f)), Contents(files)[f.name := f.content];
    forall name
      ensures SameEntry(a, b, name)
    {
      InsertedEntry(files, Rank(files, f.off), f, name);
    }
    SameMap(a, b);
  }

  /** The name of a removed file is gone from the rest. */
  lemma RemovedLacks(files: seq<File>, i: nat)
    requires i < |files| && DistinctNames(files)
    ensures files[i].name !in Contents(Removed(files, i))
  {
  }

  lemma RemovedEntry(files: seq<File>, i: nat, name: seq<Byte>)
    requires i < |files| && DistinctNames(files) && DistinctNames(Removed(files, i))
    ensures SameEntry(Contents(Removed(files, i)), Contents(files) - {files[i].name}, name)
  {
    hide DistinctNames, Contents;
    var r := Removed(files, i);
    var k := Find(files, name);
    if name == files[i].name {
      RemovedLacks(files, i);
    } else if k < |files| {
      ContentsHas(files, k);
      ContentsHas(r, if k < i then k else k - 1);
    } else {
      ContentsLacks(files, name);
      ContentsLacks(r, name);
    }
  }

  lemma RemovedContents(files: seq<File>, i: nat, total: nat)
    requires i < |files| && Layout(files, total) && Layout(Removed(files, i), total)
    ensures Contents(Removed(files, i)) == Contents(files) - {files[i].name}
  {
    hide SameEntry, Contents, DistinctNames, Ascending;
    var a, b := Contents(Removed(files, i)), Contents(files) - {files[i].name};
    forall name
      ensures SameEntry(a, b, name)
    {
      RemovedEntry(files, i, name);
    }
    SameMap(a, b);
  }

  lemma ReplacedEntry(files: seq<File>, i: nat, f: File, name: seq<Byte>)
    requires i < |files| && f.name == files[i].name && DistinctNames(files) && DistinctNames(files[i := f])
    ensures SameEntry(Contents(files[i := f]), Contents(files)[f.name := f.content], name)
  {
    var r := files[i := f];
    var k := Find(files, name);
    if k == |files| {
      ContentsLacks(files, name);
      ContentsLacks(r, name);
    } else {
      ContentsHas(files, k);
      ContentsHas(r, k);
      ContentsHas(r, i);
    }
  }

  lemma ReplacedContents(files: seq<File>, total: nat, i: nat, f: File)
    requires i < |files| && f.name == files[i].name && Layout(files, total) && Layout(files[i := f], total)
    ensures Contents(files[i := f]) == Contents(files)[f.name := f.content]
  {
    hide SameEntry, Contents, DistinctNames, Ascending;
    var a, b := Contents(files[i := f]), Contents(files)[f.name := f.content];
    forall name
      ensures SameEntry(a, b, name)
    {
      ReplacedEntry(files, i, f, name);
    }
    SameMap(a, b);
  }

  lemma ReinsertedEntry(m: map<seq<Byte>, seq<Byte>>, k: seq<Byte>, v: seq<Byte>)
    ensures (m - {k})[k := v] == m[k := v]
  {
  }

  lemma MovedContents(files: seq<File>, total: nat, i: nat, f: File)
    requires i < |files| && f.name == files[i].name && Layout(files, total)
    requires Layout(Removed(files, i), total) && Layout(Inserted(Removed(files, i), f), total)
    ensures Contents(Inserted(Removed(files, i), f)) == Contents(files)[f.name := f.content]
  {
    hide Contents, Layout;
    RemovedContents(files, i, total);
    InsertedContents(Removed(files, i), f, total);
    ReinsertedEntry(Contents(files), f.name, f.content);
  }

  lemma UnchangedFile(files: seq<File>, total: nat, i: nat)
    requires i < |files| && Layout(files, total)
    ensures files[i := files[i]] == files
    ensures Contents(files)[files[i].name := files[i].content] == Contents(files)
  {
  }
}
