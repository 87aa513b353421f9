/** Runs of file operations on the byte buffer, seen as runs on lists of files and on a map from names to contents. */
module MiniFsRuns {
  import opened Words
  import opened MiniFsModel
  import opened FileList
  import opened VolumeBytes
  import opened BrokenVolumes
  import opened MiniFsVolume

  type Fs = map<seq<Byte>, seq<Byte>>

  /** The files in order of their blocks, and the number of blocks; or bytes that are no volume. */
  datatype State = State(files: seq<File>, total: nat) | Ruined

  function Map(a: State): Fs
    requires a.State?
  {
    Contents(a.files)
  }

  datatype Op =
    | Format(size: Word)
    | Create(name: seq<Byte>, len: Word)
    | Delete(name: seq<Byte>)
    | Resize(name: seq<Byte>, len: Word)
    | Write(name: seq<Byte>, offset: Word, data: seq<Byte>)

  /** A size the device holds, a C string, and a 16-bit count of bytes. */
  predicate OpOk(op: Op, room: nat) {
    match op
    case Format(size) => size <= room
    case Write(name, _, data) => NoTerminator(name) && |data| < 0x1_0000
    case _ => NoTerminator(op.name)
  }

  /** A length whose block count does not fit its 8-bit field. */
  predicate TooLong(op: Op) {
    (op.Create? || op.Resize?) && !Fits(op.name, op.len)
  }

  predicate NoTerminator(name: seq<Byte>) {
    forall k :: 0 <= k < |name| ==> name[k] != 0
  }

  /** Whether an operation may change the file of a name. */
  predicate Concerns(op: Op, name: seq<Byte>) {
    op.Format? || op.name == name
  }

  /** Formatting needs no volume; every other operation does. */
  predicate Allowed(a: State, op: Op) {
    a.State? || op.Format?
  }

  /** Exactly when an operation succeeds; a write says how many bytes it wrote. */
  ghost function Outcome(a: State, op: Op, readOnly: bool): nat
    requires Allowed(a, op)
  {
    var i := if op.Format? then 0 else Find(a.files, op.name);
    match op
    case Format(size) => if 1 <= size / FACTOR <= 256 then 1 else 0
    case Create(name, len) => if !readOnly && CanCreate(a.files, a.total, name, len) then 1 else 0
    case Delete(name) => if !readOnly && i < |a.files| then 1 else 0
    case Resize(_, len) => if !readOnly && i < |a.files| && CanResize(a.files, a.total, i, len) then 1 else 0
    case Write(_, offset, data) =>
      if !readOnly && i < |a.files| then |Window(a.files[i].content, offset, |data|)| else 0
  }

  /** What a successful operation does to the map, and where it puts the file. */
  ghost predicate Changes(a: State, op: Op, b: State)
    requires Allowed(a, op) && b.State?
  {
    match op
    case Format(size) => b == State([], size / FACTOR) && Map(b) == map[]
    case Create(name, len) => b.total == a.total && exists f :: Adds(a, name, len, f, b)
    case Delete(name) =>
      b.total == a.total && Find(a.files, name) < |a.files|
      && b.files == Removed(a.files, Find(a.files, name)) && Map(b) == Map(a) - {name}
    case Resize(name, len) => b.total == a.total && exists g :: Regrows(a, name, len, g, b)
    case Write(name, offset, data) =>
      b.total == a.total && Find(a.files, name) < |a.files|
      && var i := Find(a.files, name); var c := Overlay(a.files[i].content, offset, data);
      && b.files == a.files[i := a.files[i].(content := c)] && Map(b) == Map(a)[name := c]
  }

  /** A file of the requested length in the first region that fits it. */
  ghost predicate Adds(a: State, name: seq<Byte>, len: Word, f: File, b: State)
    requires a.State? && b.State?
  {
    && f.name == name && |f.content| == len && f.size as nat == Blocks(TotalLen(f))
    && FirstFit(a.files, a.total, f.size, f.off)
    && b.files == Inserted(a.files, f) && name !in Map(a) && Map(b) == Map(a)[name := f.content]
  }

  ghost predicate Regrows(a: State, name: seq<Byte>, len: Word, g: File, b: State)
    requires a.State? && b.State?
  {
    && Find(a.files, name) < |a.files| && ResizedTo(a.files, a.total, Find(a.files, name), len, g, b.files)
    && name in Map(a) && Resized(Map(a)[name], g.content, len) && Map(b) == Map(a)[name := g.content]
  }

  /** One operation: it succeeds exactly when it can, a failure changes nothing, and too long a length ruins all. */
  ghost predicate Step(a: State, op: Op, res: nat, b: State, readOnly: bool) {
    && Allowed(a, op) && res == Outcome(a, op, readOnly)
    && if res == 0 then b == a else if TooLong(op) then b.Ruined? else b.State? && Changes(a, op, b)
  }

  /** `states` are the states a run passes through. */
  ghost predicate IsRun(ops: seq<Op>, res: seq<nat>, states: seq<State>, readOnly: bool) {
    && |states| == |ops| + 1 && |res| == |ops|
    && forall i :: 0 <= i < |ops| ==> Step(states[i], ops[i], res[i], states[i + 1], readOnly)
  }

  /** A file that no operation of a run concerns is the same after it. */
  lemma {:induction false} RunUntouched(ops: seq<Op>, res: seq<nat>, states: seq<State>, readOnly: bool,
                                        name: seq<Byte>)
    requires IsRun(ops, res, states, readOnly) && states[|ops|].State?
    requires forall i :: 0 <= i < |ops| ==> !Concerns(ops[i], name)
    ensures states[0].State? && SameEntry(Map(states[0]), Map(states[|ops|]), name)
    decreases |ops|
  {
    hide Step, Map;
    if |ops| > 0 {
      var n := |ops| - 1;
      assert Step(states[n], ops[n], res[n], states[n + 1], readOnly);
      StepStarts(states[n], ops[n], res[n], states[n + 1], readOnly);
      RunUntouched(ops[..n], res[..n], states[..n + 1], readOnly, name);
      StepUntouched(states[n], ops[n], res[n], states[n + 1], readOnly, name);
    }
  }

  lemma StepStarts(a: State, op: Op, res: nat, b: State, readOnly: bool)
    requires Step(a, op, res, b, readOnly) && !op.Format?
    ensures a.State?
  {
    hide Outcome, Changes;
  }

  lemma StepUntouched(a: State, op: Op, res: nat, b: State, readOnly: bool, name: seq<Byte>)
    requires Step(a, op, res, b, readOnly) && !Concerns(op, name) && a.State? && b.State?
    ensures SameEntry(Map(a), Map(b), name)
  {
    hide Outcome, Map, ResizedTo, FirstFit, Inserted, Resized;
  }

  /**
   * A write counts all its bytes, or those up to the end of the file; a read at the same place returns them, the
   * other bytes are as they were, and so is the length.
   */
  lemma ReadBack(a: State, name: seq<Byte>, offset: Word, data: seq<Byte>, res: nat, b: State, readOnly: bool)
    requires Step(a, Write(name, offset, data), res, b, readOnly) && res > 0
    ensures a.State? && b.State? && name in Map(b) && Find(a.files, name) < |a.files|
    ensures var old_, now := a.files[Find(a.files, name)].content, Map(b)[name];
            && |now| == |old_| && offset + res <= |now| && (res == |data| || offset + res == |now|)
            && now[offset..offset + res] == data[..res]
            && forall k :: 0 <= k < |now| && !(offset <= k < offset + res) ==> now[k] == old_[k]
  {
    hide Map;
  }

  /** Nothing is written only to a file that is not there or read-only, at its end, or of no bytes. */
  lemma NothingWrittenExactly(a: State, name: seq<Byte>, offset: Word, data: seq<Byte>, b: State, readOnly: bool)
    requires a.State? && Step(a, Write(name, offset, data), 0, b, readOnly)
    ensures b == a
    ensures readOnly || data == [] || Find(a.files, name) == |a.files|
            || offset >= |a.files[Find(a.files, name)].content|
  {
    hide Map;
  }

  /**
   * After a resize the file has the new length and starts with what it held. It has no more blocks than it needs,
   * unless it grew within its own.
   */
  lemma Kept(a: State, name: seq<Byte>, len: Word, res: nat, b: State, readOnly: bool)
    requires Step(a, Resize(name, len), res, b, readOnly) && res != 0 && Fits(name, len)
    ensures a.State? && b.State? && Find(a.files, name) < |a.files| && name in Map(b) && |Map(b)[name]| == len
    ensures var old_ := a.files[Find(a.files, name)];
            && (forall k :: 0 <= k < len && k < |old_.content| ==> Map(b)[name][k] == old_.content[k])
            && exists g: File :: g in b.files && g.name == name && g.content == Map(b)[name]
                 && (TotalLen(g) > (g.size as int - 1) * FACTOR
                     || (g.off == old_.off && g.size == old_.size && len > |old_.content|))
  {
    hide Map, FirstFit, Inserted, Find;
    var g :| Regrows(a, name, len, g, b);
    ResizedKeeps(a.files, a.total, Find(a.files, name), len, g, b.files);
    ResizedBlocks(a.files, a.total, Find(a.files, name), len, g, b.files);
  }

  lemma ResizedBlocks(files: seq<File>, total: nat, i: nat, len: Word, g: File, after: seq<File>)
    requires i < |files| && ResizedTo(files, total, i, len, g, after) && Fits(files[i].name, len)
    ensures g in after
    ensures TotalLen(g) > (g.size as int - 1) * FACTOR
            || (g.off == files[i].off && g.size == files[i].size && len > |files[i].content|)
  {
    hide FirstFit, Rank;
    SizeFactorExact(files[i].name, len);
    ResizedKeeps(files, total, i, len, g, after);
    if len > |files[i].content| && !StaysInPlace(files, total, i, StoredTotal(files[i].name, len)) {
      assert after[Rank(Removed(files, i), g.off)] == g;
    } else {
      assert after[i] == g;
    }
    assert TotalLen(g) == 4 + |files[i].name| + len;
    if g.size == SizeFactorFor(StoredTotal(files[i].name, len)) {
      assert g.size as nat == Blocks(TotalLen(g)) && g.size >= 1;
      BlocksLeast(TotalLen(g), g.size as nat - 1);
    }
  }

  // Nothing is refused that there is room for.

  /** A file that fits can be created exactly when some volume holds it beside the files there are. */
  lemma CreatesWhenever(files: seq<File>, total: nat, name: seq<Byte>, len: Word)
    requires Layout(files, total) && total <= 256 && NoTerminator(name) && Fits(name, len)
    ensures CanCreate(files, total, name, len) <==>
            exists f: File :: f.name == name && |f.content| == len && Layout(Inserted(files, f), total)
  {
    hide Layout, Inserted;
    SizeFactorExact(name, len);
    if CanCreate(files, total, name, len) {
      var f := RoomFor(files, total, name, len);
      assert f.name == name && |f.content| == len && Layout(Inserted(files, f), total);
    }
    forall f: File | f.name == name && |f.content| == len && Layout(Inserted(files, f), total)
      ensures CanCreate(files, total, name, len)
    {
      RoomTaken(files, total, f);
    }
  }

  /** A file of some content in the room there is for it. */
  lemma RoomFor(files: seq<File>, total: nat, name: seq<Byte>, len: Word) returns (f: File)
    requires Layout(files, total) && total <= 256 && NoTerminator(name) && Fits(name, len)
    requires CanCreate(files, total, name, len)
    ensures f.name == name && |f.content| == len && Layout(Inserted(files, f), total)
  {
    hide Layout, Inserted, FreeRegion, ApartFromAll, Find;
    SizeFactorExact(name, len);
    var size := SizeFactorFor(StoredTotal(name, len));
    var from: nat :| FreeRegion(files, total, from, size as nat);
    RegionIsByte(files, total, from, size);
    f := File(from, size, name, seq(len, _ => 0));
    FreeIsApart(files, total, f);
    BlocksCover(4 + |name| + len);
    FindMisses(files, name);
    InsertedLayout(files, f, total);
  }

  lemma RegionIsByte(files: seq<File>, total: nat, from: nat, size: Byte)
    requires FreeRegion(files, total, from, size as nat) && total <= 256 && size > 0
    ensures 0 < from < 256
  {
  }

  lemma FindMisses(files: seq<File>, name: seq<Byte>)
    ensures Find(files, name) == |files| <==> forall i :: 0 <= i < |files| ==> files[i].name != name
  {
    hide Find;
    var k := Find(files, name);
    assert k < |files| ==> files[k].name == name;
  }

  lemma RoomTaken(files: seq<File>, total: nat, f: File)
    requires Layout(Inserted(files, f), total) && Fits(f.name, |f.content|) && |f.content| < 0x1_0000
    ensures CanCreate(files, total, f.name, |f.content|)
  {
    hide Find, Rank;
    var all, p := Inserted(files, f), Rank(files, f.off);
    SizeFactorExact(f.name, |f.content|);
    var size := SizeFactorFor(StoredTotal(f.name, |f.content|)) as nat;
    assert all[p] == f && FileOk(f);
    BlocksLeast(TotalLen(f), f.size as nat);
    forall i | 0 <= i < |files|
      ensures files[i].name != f.name
      ensures f.off as nat + size <= files[i].off as nat || End(files[i]) <= f.off as nat
    {
      assert files[i] == all[if i < p then i else i + 1];
    }
    FindMisses(files, f.name);
    assert FreeRegion(files, total, f.off as nat, size);
  }

  /** `g` fits beside the other files, where file `i` is or apart from it. */
  predicate FitsBeside(files: seq<File>, total: nat, i: nat, g: File)
    requires i < |files|
  {
    && FileOk(g) && End(g) <= total && (forall k :: 0 <= k < |files| && k != i ==> Apart(files[k], g))
    && (g.off == files[i].off || Apart(files[i], g))
  }

  /** A file can be resized to a length that fits exactly when it fits so beside the others, there or elsewhere. */
  lemma ResizesWhenever(files: seq<File>, total: nat, i: nat, len: Word)
    requires Layout(files, total) && total <= 256 && i < |files| && Fits(files[i].name, len)
    ensures CanResize(files, total, i, len) <==>
            exists g: File :: g.name == files[i].name && |g.content| == len && FitsBeside(files, total, i, g)
  {
    hide Layout, FitsBeside, CanResize;
    if CanResize(files, total, i, len) {
      var g := BesideFor(files, total, i, len);
      assert g.name == files[i].name && |g.content| == len && FitsBeside(files, total, i, g);
    }
    forall g: File | g.name == files[i].name && |g.content| == len && FitsBeside(files, total, i, g)
      ensures CanResize(files, total, i, len)
    {
      BesideTaken(files, total, i, g);
    }
  }

  lemma BesideFor(files: seq<File>, total: nat, i: nat, len: Word) returns (g: File)
    requires Layout(files, total) && total <= 256 && i < |files| && Fits(files[i].name, len)
    requires CanResize(files, total, i, len)
    ensures g.name == files[i].name && |g.content| == len && FitsBeside(files, total, i, g)
  {
    hide HasFreeRegion;
    var f := files[i];
    SizeFactorExact(f.name, len);
    var newTotal := StoredTotal(f.name, len);
    var size := SizeFactorFor(newTotal);
    if StaysInPlace(files, total, i, newTotal) {
      g := File(f.off, if newTotal <= f.size as nat * FACTOR then f.size else size, f.name, seq(len, _ => 0));
      BlocksCover(newTotal);
    } else {
      g := Elsewhere(files, total, i, len, size);
    }
  }

  lemma Elsewhere(files: seq<File>, total: nat, i: nat, len: Word, size: Byte) returns (g: File)
    requires Layout(files, total) && total <= 256 && i < |files| && Fits(files[i].name, len)
    requires size as nat == Blocks(4 + |files[i].name| + len) && HasFreeRegion(files, total, size as nat)
    ensures g.name == files[i].name && |g.content| == len && FitsBeside(files, total, i, g)
  {
    BlocksCover(4 + |files[i].name| + len);
    var from: nat :| FreeRegion(files, total, from, size as nat);
    RegionIsByte(files, total, from, size);
    g := File(from, size, files[i].name, seq(len, _ => 0));
  }

  lemma BesideTaken(files: seq<File>, total: nat, i: nat, g: File)
    requires Layout(files, total) && i < |files| && g.name == files[i].name && Fits(g.name, |g.content|)
    requires FitsBeside(files, total, i, g) && |g.content| < 0x1_0000
    ensures CanResize(files, total, i, |g.content|)
  {
    SizeFactorExact(g.name, |g.content|);
    BlocksLeast(TotalLen(g), g.size as nat);
    var size := SizeFactorFor(StoredTotal(g.name, |g.content|)) as nat;
    if g.off != files[i].off {
      assert FreeRegion(files, total, g.off as nat, size);
    }
  }

  ghost function StateOf(fs: MiniFs): State
    requires fs.vol.Length >= FACTOR
    reads fs, fs.vol
  {
    if Broken(fs.vol[..]) then Ruined else State(fs.files, fs.Total())
  }

  lemma ValidState(fs: MiniFs)
    requires fs.Valid()
    ensures StateOf(fs) == State(fs.files, fs.Total())
  {
    hide Broken;
    fs.ValidIsWhole();
  }

  /** A volume whose files are known, or bytes that are none. */
  ghost predicate Known(fs: MiniFs)
    reads fs, fs.vol
  {
    fs.vol.Length >= FACTOR && (StateOf(fs).State? ==> fs.Valid())
  }

  /** One operation is one step. */
  method Perform(fs: MiniFs, op: Op) returns (res: nat)
    requires Known(fs) && Allowed(StateOf(fs), op) && OpOk(op, fs.vol.Length)
    modifies fs.vol, fs`files
    ensures Known(fs) && Step(old(StateOf(fs)), op, res, StateOf(fs), fs.readOnly)
  {
    hide MiniFs.Valid, Step, StateOf;
    if op.Format? {
      res := PerformFormat(fs, op.size);
    } else {
      res := PerformOn(fs, op);
    }
  }

  /** Formatting what may be no volume. */
  method PerformFormat(fs: MiniFs, size: Word) returns (res: nat)
    requires Known(fs) && size <= fs.vol.Length
    modifies fs.vol, fs`files
    ensures Known(fs) && Step(old(StateOf(fs)), Format(size), res, StateOf(fs), fs.readOnly)
  {
    hide MiniFs.Valid, Step, Broken;
    ghost var a, bytes, files, valid := StateOf(fs), fs.vol[..], fs.files, fs.Valid();
    if valid {
      ValidSays(fs);
    }
    var ok := fs.Format(size);
    res := if ok then 1 else 0;
    if ok {
      ValidState(fs);
    } else {
      assert fs.vol[1] == fs.vol[..][1] == bytes[1];
      if valid {
        StaysValid(bytes, files, fs);
      }
    }
    FormatStep(a, size, res, StateOf(fs), fs.readOnly);
  }

  method PerformOn(fs: MiniFs, op: Op) returns (res: nat)
    requires fs.Valid() && OpOk(op, fs.vol.Length) && !op.Format?
    modifies fs.vol, fs`files
    ensures Known(fs) && Step(old(StateOf(fs)), op, res, StateOf(fs), fs.readOnly)
  {
    hide MiniFs.Valid, Contents, FirstFit, CanResize, CanCreate, ResizedTo, Inserted, Removed, Step, Window, Created;
    hide Broken;
    fs.ValidParts();
    ValidState(fs);
    ghost var a, bytes := State(fs.files, fs.Total()), fs.vol[..];
    match op {
      case Create(name, len) =>
        var ok, f := fs.FileCreate(name, len);
        res := if ok then 1 else 0;
        if !ok || Fits(name, len) {
          ValidState(fs);
        }
        CreateStep(a, name, len, res, f, StateOf(fs), fs.readOnly, bytes);
      case Delete(name) =>
        var ok := fs.FileDelete(name);
        res := if ok then 1 else 0;
        ValidState(fs);
        DeleteStep(a, name, res, StateOf(fs), fs.readOnly);
      case Resize(name, len) =>
        ValidFind(fs, name);
        var ok, g := fs.FileResize(name, len);
        res := if ok then 1 else 0;
        if !ok || Fits(name, len) {
          ValidState(fs);
        }
        ResizeStep(a, name, len, res, g, StateOf(fs), fs.readOnly);
      case Write(name, offset, data) =>
        res := fs.FileWrite(name, offset, data);
        ValidState(fs);
        WriteStep(a, name, offset, data, res, StateOf(fs), fs.readOnly);
    }
  }

  lemma FormatStep(a: State, size: Word, res: nat, b: State, readOnly: bool)
    requires res == if 1 <= size / FACTOR <= 256 then 1 else 0
    requires if res == 0 then b == a else b == State([], size / FACTOR) && Map(b) == map[]
    ensures Step(a, Format(size), res, b, readOnly)
  {
  }

  lemma CreateStep(a: State, name: seq<Byte>, len: Word, res: nat, f: File, b: State, readOnly: bool, s: seq<Byte>)
    requires a.State? && res == if !readOnly && CanCreate(a.files, a.total, name, len) then 1 else 0
    requires res == 0 ==> b == a
    requires res != 0 && !Fits(name, len) ==> b.Ruined?
    requires res != 0 && Fits(name, len) ==>
      && b.State? && Created(s, a.files, a.total, f, name, len) && b.files == Inserted(a.files, f) && b.total == a.total
      && Map(b) == Map(a)[name := f.content]
    ensures Step(a, Create(name, len), res, b, readOnly)
  {
    hide FirstFit, Inserted, Blocks, TotalLen, Contents, Fits;
    if res != 0 && Fits(name, len) {
      ContentsLacks(a.files, name);
      assert Adds(a, name, len, f, b);
    }
  }

  lemma DeleteStep(a: State, name: seq<Byte>, res: nat, b: State, readOnly: bool)
    requires a.State? && b.State? && res == if !readOnly && Find(a.files, name) < |a.files| then 1 else 0
    requires res == 0 ==> b == a
    requires res != 0 ==>
      b.total == a.total && b.files == Removed(a.files, Find(a.files, name)) && Map(b) == Map(a) - {name}
    ensures Step(a, Delete(name), res, b, readOnly)
  {
    hide Removed, Contents;
  }

  lemma ResizeStep(a: State, name: seq<Byte>, len: Word, res: nat, g: File, b: State, readOnly: bool)
    requires a.State?
    requires Find(a.files, name) < |a.files| ==>
      name in Map(a) && Map(a)[name] == a.files[Find(a.files, name)].content
    requires res == if !readOnly && Find(a.files, name) < |a.files|
                       && CanResize(a.files, a.total, Find(a.files, name), len) then 1 else 0
    requires res == 0 ==> b == a
    requires res != 0 && !Fits(name, len) ==> b.Ruined?
    requires res != 0 && Fits(name, len) ==>
      && b.State? && b.total == a.total && ResizedTo(a.files, a.total, Find(a.files, name), len, g, b.files)
      && Map(b) == Map(a)[name := g.content]
    ensures Step(a, Resize(name, len), res, b, readOnly)
  {
    hide ResizedTo, Contents, Resized, CanResize, Fits;
    if res != 0 && Fits(name, len) {
      ResizedKeeps(a.files, a.total, Find(a.files, name), len, g, b.files);
      assert Regrows(a, name, len, g, b);
    }
  }

  lemma WriteStep(a: State, name: seq<Byte>, offset: Word, data: seq<Byte>, res: nat, b: State, readOnly: bool)
    requires a.State? && b.State? && b.total == a.total
    requires readOnly || Find(a.files, name) == |a.files| ==> res == 0 && b.files == a.files
    requires !readOnly && Find(a.files, name) < |a.files| ==>
      var i := Find(a.files, name);
      var f := a.files[i];
      && res == |Window(f.content, offset, |data|)|
      && b.files == a.files[i := f.(content := Overlay(f.content, offset, data))]
      && Map(b) == Map(a)[name := Overlay(f.content, offset, data)]
    ensures Step(a, Write(name, offset, data), res, b, readOnly)
  {
    hide Contents;
    if !readOnly && Find(a.files, name) < |a.files| && res == 0 {
      NothingWritten(a, name, offset, data, b);
    }
  }

  lemma ValidSays(fs: MiniFs)
    requires fs.Valid()
    ensures |fs.vol[..]| >= FACTOR && Represents(fs.vol[..], fs.files, fs.vol[..][1] as nat + 1)
  {
  }

  lemma StaysValid(bytes: seq<Byte>, files: seq<File>, fs: MiniFs)
    requires |bytes| >= FACTOR && Represents(bytes, files, bytes[1] as nat + 1)
    requires fs.vol[..] == bytes && fs.files == files
    ensures fs.Valid() && fs.Total() == bytes[1] as nat + 1
  {
    assert fs.vol[1] == fs.vol[..][1];
  }

  /** A write with nothing in its window changes nothing. */
  lemma NothingWritten(a: State, name: seq<Byte>, offset: Word, data: seq<Byte>, b: State)
    requires a.State? && b.State? && Find(a.files, name) < |a.files| && b.total == a.total
    requires var i := Find(a.files, name);
             && |Window(a.files[i].content, offset, |data|)| == 0
             && b.files == a.files[i := a.files[i].(content := Overlay(a.files[i].content, offset, data))]
    ensures b == a
  {
    var c := a.files[Find(a.files, name)].content;
    assert Overlay(c, offset, data) == c;
  }

  lemma ValidFind(fs: MiniFs, name: seq<Byte>)
    requires fs.Valid()
    ensures name in Contents(fs.files) <==> Find(fs.files, name) < |fs.files|
    ensures name in Contents(fs.files) ==> Contents(fs.files)[name] == fs.files[Find(fs.files, name)].content
    ensures fs.vol.Length >= FACTOR
  {
  }

  /**
   * Every run of operations, on a volume or on bytes to be formatted, is a run of steps; it ends early only at an
   * operation other than a format when a step has left no volume.
   */
  method Run(fs: MiniFs, formatted: bool, ops: seq<Op>) returns (res: seq<nat>, ghost states: seq<State>)
    requires Known(fs) && (formatted <==> StateOf(fs).State?)
    requires forall i :: 0 <= i < |ops| ==> OpOk(ops[i], fs.vol.Length)
    modifies fs.vol, fs`files
    ensures |res| <= |ops| && IsRun(ops[..|res|], res, states, fs.readOnly)
    ensures Known(fs) && states[0] == old(StateOf(fs)) && states[|res|] == StateOf(fs)
    ensures |res| < |ops| ==> states[|res|].Ruined? && !ops[|res|].Format?
  {
    hide MiniFs.Valid, Step, OpOk, StateOf, Broken;
    res, states := [], [StateOf(fs)];
    var volume := formatted;
    while |res| < |ops| && (volume || ops[|res|].Format?)
      invariant |res| <= |ops| && |states| == |res| + 1 && Known(fs)
      invariant volume <==> StateOf(fs).State?
      invariant states[0] == old(StateOf(fs)) && states[|res|] == StateOf(fs)
      invariant forall k :: 0 <= k < |res| ==> Step(states[k], ops[k], res[k], states[k + 1], fs.readOnly)
    {
      var op := ops[|res|];
      var r := Perform(fs, op);
      res, states := res + [r], states + [StateOf(fs)];
      StepLeaves(states[|res| - 1], op, r, states[|res|], fs.readOnly);
      volume := if r == 0 then volume else !TooLong(op);
    }
  }

  lemma StepLeaves(a: State, op: Op, res: nat, b: State, readOnly: bool)
    requires Step(a, op, res, b, readOnly)
    ensures b.State? <==> if res == 0 then a.State? else !TooLong(op)
  {
    hide Outcome, Changes, Fits;
  }

  /** The first length that does not fit: an empty volume takes it, and is then no volume. */
  method CreateOneTooLong(fs: MiniFs) returns (ok: bool)
    requires fs.Valid() && fs.files == [] && !fs.readOnly
    modifies fs.vol, fs`files
    ensures ok && Broken(fs.vol[..]) && !Fits([97], 32636) && Fits([97], 32635)
  {
    hide Broken, FirstFit;
    fs.ValidParts();
    assert FreeRegion([], fs.Total(), 1, SizeFactorFor(StoredTotal([97], 32636)) as nat);
    ghost var f;
    ok, f := fs.FileCreate([97], 32636);
  }
}
