/** A circular buffer kept in a file: head and tail offsets, big-endian, in front of the bytes themselves. */
module Ring {
  import opened Words

  // Offsets take 1, 2 or 4 bytes, as the file's length needs.

  function OffsetSize(total: nat): (k: nat)
    ensures k == 1 || k == 2 || k == 4
  {
    if total < 0x100 then 1 else if total < 0x1_0000 then 2 else 4
  }

  /** Offsets take no more bytes than the file's length does. */
  lemma OffsetSizeLeast(total: nat, k: nat)
    requires (k == 1 || k == 2 || k == 4) && total < Power256(k)
    ensures OffsetSize(total) <= k && BufferSize(total) >= total - 2 * k
  {
  }

  function BufferSize(total: nat): int {
    total - 2 * OffsetSize(total)
  }

  /** Lengths a buffer can be mounted on. */
  predicate Mountable(total: nat) {
    4 <= total < 0x1_0000_0000
  }

  lemma Sizes(total: nat)
    requires Mountable(total)
    ensures 2 <= BufferSize(total) < total
  {
  }

  // Big-endian numbers.

  function Value(s: seq<Byte>): nat {
    if s == [] then 0 else Value(s[..|s| - 1]) * 256 + s[|s| - 1]
  }

  function BigEndian(v: nat, k: nat): (s: seq<Byte>)
    ensures |s| == k
    decreases k
  {
    if k == 0 then [] else BigEndian(v / 256, k - 1) + [v % 256]
  }

  /** Each further byte is a lower digit. */
  lemma ValueMeans(s: seq<Byte>, b: Byte)
    ensures Value([]) == 0 && Value(s + [b]) == 0x100 * Value(s) + b
  {
    assert (s + [b])[..|s|] == s;
  }

  function Power256(k: nat): (p: nat)
    ensures p > 0
  {
    if k == 0 then 1 else 256 * Power256(k - 1)
  }

  /** What was stored reads back, if it fits. */
  lemma {:induction false} StoredValue(v: nat, k: nat)
    requires v < Power256(k)
    ensures Value(BigEndian(v, k)) == v
    decreases k
  {
    if k > 0 {
      StoredValue(v / 256, k - 1);
      assert BigEndian(v, k)[..k - 1] == BigEndian(v / 256, k - 1);
    }
  }

  /** Every offset into a buffer fits the bytes kept for it. */
  lemma OffsetFits(total: nat, v: nat)
    requires Mountable(total) && v < BufferSize(total)
    ensures v < Power256(OffsetSize(total))
  {
  }

  // The queue.

  function Inc(size: nat, offset: nat): (r: nat)
    requires size > 0
    ensures r < size || r == offset + 1
    ensures offset < size ==> r == if offset + 1 == size then 0 else offset + 1
  {
    if offset < size - 1 then offset + 1 else 0
  }

  /** The bytes from head up to tail, around the end. */
  function Queued(buf: seq<Byte>, head: nat, tail: nat): (q: seq<Byte>)
    requires head < |buf| && tail < |buf|
    ensures |q| == if head <= tail then tail - head else |buf| - head + tail
    ensures |q| < |buf|
  {
    if head <= tail then buf[head..tail] else buf[head..] + buf[..tail]
  }

  /** Putting a byte at the tail appends it, unless the tail would meet the head. */
  lemma Push(buf: seq<Byte>, head: nat, tail: nat, b: Byte)
    requires head < |buf| && tail < |buf|
    ensures Inc(|buf|, tail) == head <==> |Queued(buf, head, tail)| == |buf| - 1
    ensures Inc(|buf|, tail) != head ==> Queued(buf[tail := b], head, Inc(|buf|, tail)) == Queued(buf, head, tail) + [b]
  {
  }

  /** Moving the head on drops the first byte. */
  lemma Pop(buf: seq<Byte>, head: nat, tail: nat)
    requires head < |buf| && tail < |buf| && head != tail
    ensures Queued(buf, head, tail) == [buf[head]] + Queued(buf, Inc(|buf|, head), tail)
  {
    if head < tail {
      assert buf[head..tail] == [buf[head]] + buf[head + 1..tail];
    } else if head + 1 < |buf| {
      assert buf[head..] == [buf[head]] + buf[head + 1..];
      assert ([buf[head]] + buf[head + 1..]) + buf[..tail] == [buf[head]] + (buf[head + 1..] + buf[..tail]);
    } else {
      assert buf[head..] == [buf[head]] && buf[0..tail] == buf[..tail];
    }
  }

  lemma OverlaySlices(s: seq<Byte>, at: nat, data: seq<Byte>)
    requires at + |data| <= |s|
    ensures var r := Overlay(s, at, data);
            r[..at] == s[..at] && r[at..at + |data|] == data && r[at + |data|..] == s[at + |data|..]
  {
  }

  /** What follows the first offset is the second offset and the data. */
  lemma AfterOffset(s: seq<Byte>, t: seq<Byte>, k: nat)
    requires 2 * k <= |s| == |t| && s[k..] == t[k..]
    ensures s[k..2 * k] == t[k..2 * k] && s[2 * k..] == t[2 * k..]
  {
    assert s[k..2 * k] == s[k..][..k] && t[k..2 * k] == t[k..][..k];
    assert s[2 * k..] == s[k..][k..] && t[2 * k..] == t[k..][k..];
  }

  // Runs.

  datatype Op = Read | Write(data: seq<Byte>)

  function Min(a: int, b: int): int {
    if a < b then a else b
  }

  /** One operation on a queue of some capacity: a byte read or -1, or how many bytes were written. */
  ghost predicate Step(op: Op, before: seq<Byte>, after: seq<Byte>, result: int, capacity: int, reliable: bool) {
    match op
    case Read =>
      if result == -1 then after == before && (reliable ==> before == [])
      else 0 <= result < 0x100 && before == [result] + after
    case Write(data) =>
      && (result == Min(|data|, capacity - |before|) || (result == 0 && !reliable))
      && 0 <= result <= |data| && after == before + data[..result]
  }

  /** Operations one after another, with what each gave and the queue before and after each. */
  ghost predicate IsRun(ops: seq<Op>, results: seq<int>, queues: seq<seq<Byte>>, capacity: int, reliable: bool) {
    && |results| == |ops| && |queues| == |ops| + 1
    && forall i :: 0 <= i < |ops| ==> Step(ops[i], queues[i], queues[i + 1], results[i], capacity, reliable)
  }

  /** The byte an operation gave. */
  function Gave(op: Op, result: int): seq<Byte> {
    if op.Read? && 0 <= result < 0x100 then [result] else []
  }

  /** The bytes an operation took. */
  function Took(op: Op, result: int): seq<Byte> {
    if op.Write? && 0 <= result <= |op.data| then op.data[..result] else []
  }

  /** All bytes the first `n` operations gave. */
  function ReadBy(ops: seq<Op>, results: seq<int>, n: nat): seq<Byte>
    requires n <= |ops| && |results| == |ops|
    decreases n
  {
    if n == 0 then [] else ReadBy(ops, results, n - 1) + Gave(ops[n - 1], results[n - 1])
  }

  /** All bytes the first `n` operations took. */
  function WrittenBy(ops: seq<Op>, results: seq<int>, n: nat): seq<Byte>
    requires n <= |ops| && |results| == |ops|
    decreases n
  {
    if n == 0 then [] else WrittenBy(ops, results, n - 1) + Took(ops[n - 1], results[n - 1])
  }

  lemma StepInOrder(op: Op, before: seq<Byte>, after: seq<Byte>, result: int, capacity: int, reliable: bool,
                    first: seq<Byte>, w: seq<Byte>, r: seq<Byte>)
    requires Step(op, before, after, result, capacity, reliable) && first + w == r + before
    ensures first + (w + Took(op, result)) == (r + Gave(op, result)) + after
  {
    var more, one := Took(op, result), Gave(op, result);
    assert first + (w + more) == (r + before) + more == r + (before + more);
    assert (r + one) + after == r + (one + after);
    assert before + more == one + after;
  }

  /** Over any run, what was queued and written comes out in order, and the rest is queued. */
  lemma {:induction false} InOrder(ops: seq<Op>, results: seq<int>, queues: seq<seq<Byte>>, capacity: int,
                                   reliable: bool, n: nat)
    requires IsRun(ops, results, queues, capacity, reliable) && n <= |ops|
    ensures queues[0] + WrittenBy(ops, results, n) == ReadBy(ops, results, n) + queues[n]
    decreases n
  {
    if n > 0 {
      InOrder(ops, results, queues, capacity, reliable, n - 1);
      assert Step(ops[n - 1], queues[n - 1], queues[n], results[n - 1], capacity, reliable);
      StepInOrder(ops[n - 1], queues[n - 1], queues[n], results[n - 1], capacity, reliable,
                  queues[0], WrittenBy(ops, results, n - 1), ReadBy(ops, results, n - 1));
    }
  }

  class CircBuf {
    const file: array<Byte>
    // A file whose writes never fail.
    const reliable: bool
    var mounted: bool

    ghost function Head(): nat
      reads file
    {
      var k := OffsetSize(file.Length);
      if 2 * k <= file.Length then Value(file[..k]) else 0
    }

    ghost function Tail(): nat
      reads file
    {
      var k := OffsetSize(file.Length);
      if 2 * k <= file.Length then Value(file[k..2 * k]) else 0
    }

    ghost function Buffer(): seq<Byte>
      reads file
    {
      var k := OffsetSize(file.Length);
      if 2 * k <= file.Length then file[2 * k..] else []
    }

    ghost predicate Valid()
      reads file
    {
      Mountable(file.Length) && Head() < BufferSize(file.Length) && Tail() < BufferSize(file.Length)
    }

    ghost function Queue(): seq<Byte>
      requires Valid()
      reads file
    {
      Queued(Buffer(), Head(), Tail())
    }

    ghost function Capacity(): int {
      BufferSize(file.Length) - 1
    }

    /** An empty buffer over a file of at least four bytes, unless its offsets cannot be stored. */
    constructor Mount(backing: array<Byte>, neverFails: bool)
      requires Mountable(backing.Length)
      modifies backing
      ensures file == backing && reliable == neverFails
      ensures mounted ==> Valid() && Queue() == []
      ensures neverFails ==> mounted
    {
      file, reliable, mounted := backing, neverFails, false;
      new;
      Sizes(file.Length);
      var k := OffsetSize(file.Length);
      var ok := SetOffset(0, 0);
      if ok {
        ghost var head := file[..k];
        ok := SetOffset(k, 0);
        assert file[..k] == head;
      }
      mounted := ok;
    }

    method GetOffset(at: nat) returns (v: nat)
      requires at + OffsetSize(file.Length) <= file.Length
      ensures v == Value(file[at..at + OffsetSize(file.Length)])
    {
      var k := OffsetSize(file.Length);
      v := 0;
      for i := 0 to k
        invariant v == Value(file[at..at + i])
      {
        assert file[at..at + i + 1][..i] == file[at..at + i];
        v := v * 256 + file[at + i];
      }
    }

    /** Storing an offset; a write that fails stores nothing. */
    method SetOffset(at: nat, v: nat) returns (ok: bool)
      requires Mountable(file.Length) && at + OffsetSize(file.Length) <= file.Length && v < BufferSize(file.Length)
      modifies file
      ensures ok ==> Value(file[at..at + OffsetSize(file.Length)]) == v
      ensures file[..at] == old(file[..at])
      ensures file[at + OffsetSize(file.Length)..] == old(file[at + OffsetSize(file.Length)..])
      ensures !ok ==> file[..] == old(file[..])
      ensures reliable ==> ok
    {
      hide Value, BigEndian, Power256, BufferSize, OffsetSize, Mountable;
      ok := *;
      ok := ok || reliable;
      if !ok {
        return;
      }
      var k := OffsetSize(file.Length);
      var bytes := BigEndian(v, k);
      OffsetFits(file.Length, v);
      StoredValue(v, k);
      ghost var before := file[..];
      forall i | 0 <= i < k {
        file[at + i] := bytes[i];
      }
      assert file[..] == Overlay(before, at, bytes);
      OverlaySlices(before, at, bytes);
      assert file[at..at + k] == file[..][at..at + k];
      assert file[..at] == file[..][..at] && file[at + k..] == file[..][at + k..];
    }

    method GetHeadOffset() returns (v: nat)
      requires Valid()
      ensures v == Head()
    {
      Parts();
      v := GetOffset(0);
    }

    method GetTailOffset() returns (v: nat)
      requires Valid()
      ensures v == Tail()
    {
      Parts();
      v := GetOffset(OffsetSize(file.Length));
    }

    /** Storing the head leaves the tail and the bytes alone. */
    method SetHeadOffset(v: nat) returns (ok: bool)
      requires Valid() && v < BufferSize(file.Length)
      modifies file
      ensures Valid() && Tail() == old(Tail()) && Buffer() == old(Buffer())
      ensures Head() == if ok then v else old(Head())
      ensures file[OffsetSize(file.Length)..] == old(file[OffsetSize(file.Length)..])
      ensures !ok ==> file[..] == old(file[..])
      ensures reliable ==> ok
    {
      hide Value, BufferSize, OffsetSize;
      Parts();
      ghost var k, before := OffsetSize(file.Length), file[..];
      ok := SetOffset(0, v);
      ghost var after := file[..];
      assert file[k..] == after[k..] && file[..k] == after[..k];
      AfterOffset(before, after, k);
    }

    /** Storing the tail leaves the head and the bytes alone. */
    method SetTailOffset(v: nat) returns (ok: bool)
      requires Valid() && v < BufferSize(file.Length)
      modifies file
      ensures Valid() && Head() == old(Head()) && Buffer() == old(Buffer())
      ensures Tail() == if ok then v else old(Tail())
      ensures file[..OffsetSize(file.Length)] == old(file[..OffsetSize(file.Length)])
      ensures file[2 * OffsetSize(file.Length)..] == old(file[2 * OffsetSize(file.Length)..])
      ensures !ok ==> file[..] == old(file[..])
      ensures reliable ==> ok
    {
      hide Value, BufferSize, OffsetSize;
      Parts();
      ghost var k, before := OffsetSize(file.Length), file[..];
      ok := SetOffset(OffsetSize(file.Length), v);
      assert k + k == 2 * k;
      assert file[..k] == before[..k] && file[2 * k..] == before[2 * k..];
      if !ok {
        assert file[k..2 * k] == before[k..2 * k];
      }
    }

    /** A data byte is written behind the stored offsets, which it never touches. */
    method WriteByte(offset: nat, b: Byte) returns (ok: bool)
      requires Valid() && offset < BufferSize(file.Length)
      modifies file
      ensures Valid() && Head() == old(Head()) && Tail() == old(Tail())
      ensures Buffer() == if ok then old(Buffer())[offset := b] else old(Buffer())
      ensures file[..2 * OffsetSize(file.Length)] == old(file[..2 * OffsetSize(file.Length)])
      ensures reliable ==> ok
    {
      hide Value, BufferSize, OffsetSize;
      Parts();
      ghost var k, before := OffsetSize(file.Length), file[..];
      ok := *;
      ok := ok || reliable;
      if ok {
        file[2 * OffsetSize(file.Length) + offset] := b;
      }
      assert file[..k] == before[..k] && file[k..2 * k] == before[k..2 * k];
      assert file[2 * k..] == if ok then before[2 * k..][offset := b] else before[2 * k..];
    }

    /** The oldest byte, or -1 when there is none or the head cannot be moved on. */
    method Read() returns (r: int)
      requires Valid()
      modifies file
      ensures Valid()
      ensures r != -1 ==> 0 <= r < 0x100 && old(Queue()) == [r] + Queue()
      ensures r == -1 ==> Queue() == old(Queue()) && file[..] == old(file[..])
      ensures old(Queue()) == [] ==> r == -1
      ensures reliable && old(Queue()) != [] ==> r != -1
      ensures Buffer() == old(Buffer()) && Tail() == old(Tail())
    {
      hide Head, Tail, Buffer, Valid, BufferSize, OffsetSize, Inc, Queued;
      Ready();
      var offsetSize := OffsetSize(file.Length);
      var headOffset: nat := GetHeadOffset();
      var tailOffset: nat := GetTailOffset();
      EmptyExactly(Buffer(), headOffset, tailOffset);
      if headOffset == tailOffset {
        return -1;
      }
      DataByte(headOffset);
      var result := file[2 * offsetSize + headOffset];
      Pop(Buffer(), headOffset, tailOffset);
      IncInside(BufferSize(file.Length), headOffset);
      var ok := SetHeadOffset(Inc(BufferSize(file.Length), headOffset));
      if !ok {
        return -1;
      }
      return result;
    }

    method CanRead() returns (r: bool)
      requires Valid()
      ensures r <==> Queue() != []
    {
      hide Head, Tail, Buffer, Valid, BufferSize, OffsetSize, Queued;
      Ready();
      var headOffset: nat := GetHeadOffset();
      var tailOffset: nat := GetTailOffset();
      EmptyExactly(Buffer(), headOffset, tailOffset);
      return headOffset != tailOffset;
    }

    method CanWrite() returns (r: bool)
      requires Valid()
      ensures r <==> |Queue()| < Capacity()
    {
      hide Head, Tail, Buffer, Valid, BufferSize, OffsetSize, Queued, Inc;
      Ready();
      var headOffset: nat := GetHeadOffset();
      var tailOffset: nat := GetTailOffset();
      Push(Buffer(), headOffset, tailOffset, 0);
      return Inc(BufferSize(file.Length), tailOffset) != headOffset;
    }

    /**
     * As many bytes as there is room for, written at the tail; the tail is stored last, so a failure on the way
     * leaves the queue as it was.
     */
    method Write(data: seq<Byte>) returns (written: nat)
      requires Valid()
      modifies file
      ensures Valid() && Head() == old(Head())
      ensures written <= |data| && Queue() == old(Queue()) + data[..written]
      ensures written == 0 || written == |data| || |Queue()| == Capacity()
      ensures reliable ==> written == |data| || |Queue()| == Capacity()
      ensures |Queue()| <= Capacity()
    {
      hide Head, Tail, Buffer, Valid, BufferSize, OffsetSize, Queued, Inc, Queue, Power256, Value;
      Ready();
      var headOffset: nat := GetHeadOffset();
      var tailOffset: nat := GetTailOffset();
      ghost var stored := tailOffset;
      ghost var start := Queue();
      written := 0;
      while written < |data|
        invariant 0 <= written <= |data| && Valid() && tailOffset < BufferSize(file.Length)
        invariant Head() == headOffset && Tail() == stored && |Buffer()| == BufferSize(file.Length)
        invariant Queued(Buffer(), headOffset, tailOffset) == start + data[..written]
        invariant Queued(Buffer(), headOffset, stored) == start
      {
        Push(Buffer(), headOffset, tailOffset, data[written]);
        var newTailOffset := Inc(BufferSize(file.Length), tailOffset);
        if newTailOffset == headOffset {
          break;
        }
        FreeByte(Buffer(), headOffset, stored, tailOffset, data[written], start, data[..written]);
        var ok := WriteByte(tailOffset, data[written]);
        if !ok {
          Ready();
          return 0;
        }
        IncInside(BufferSize(file.Length), tailOffset);
        Ready();
        tailOffset := newTailOffset;
        assert data[..written + 1] == data[..written] + [data[written]];
        written := written + 1;
      }
      var ok := SetTailOffset(tailOffset);
      Ready();
      if !ok {
        return 0;
      }
    }

    /** Any run of reads and writes: each does to the queue what it should, and reports it. */
    method Run(ops: seq<Op>) returns (results: seq<int>, ghost queues: seq<seq<Byte>>)
      requires Valid()
      modifies file
      ensures Valid() && IsRun(ops, results, queues, Capacity(), reliable)
      ensures queues[0] == old(Queue()) && queues[|ops|] == Queue()
      ensures forall i :: 0 <= i <= |ops| ==> |queues[i]| <= Capacity()
    {
      hide Head, Tail, Buffer, Valid, BufferSize, Queue, Step;
      results, queues := [], [Queue()];
      Bounded();
      for i := 0 to |ops|
        invariant Valid() && |results| == i && |queues| == i + 1
        invariant queues[0] == old(Queue()) && queues[i] == Queue()
        invariant forall j :: 0 <= j <= i ==> |queues[j]| <= Capacity()
        invariant forall j :: 0 <= j < i ==> Step(ops[j], queues[j], queues[j + 1], results[j], Capacity(), reliable)
      {
        ghost var before := Queue();
        var result: int;
        match ops[i] {
          case Read => result := Read();
          case Write(data) => result := Write(data);
        }
        Bounded();
        StepMade(ops[i], before, Queue(), result, Capacity(), reliable);
        results, queues := results + [result], queues + [Queue()];
      }
    }

    lemma Bounded()
      requires Valid()
      ensures |Queue()| <= Capacity()
    {
    }

    /** Facts about the file's parts. */
    lemma Parts()
      requires Valid()
      ensures var k := OffsetSize(file.Length);
              && 1 <= k && 2 * k + 2 <= file.Length && |Buffer()| == BufferSize(file.Length) == file.Length - 2 * k
              && Buffer() == file[2 * k..] && Head() == Value(file[..k]) && Tail() == Value(file[k..2 * k])
              && Head() < |Buffer()| && Tail() < |Buffer()| && Mountable(file.Length)
    {
    }

    lemma Ready()
      requires Valid()
      ensures |Buffer()| == BufferSize(file.Length) && Head() < |Buffer()| && Tail() < |Buffer()|
      ensures 2 <= BufferSize(file.Length) && Queue() == Queued(Buffer(), Head(), Tail())
    {
    }

    lemma DataByte(offset: nat)
      requires Valid() && offset < BufferSize(file.Length)
      ensures 2 * OffsetSize(file.Length) + offset < file.Length
      ensures offset < |Buffer()| && file[2 * OffsetSize(file.Length) + offset] == Buffer()[offset]
    {
    }
  }

  /** What `Read` and `Write` promise, as one step. */
  lemma StepMade(op: Op, before: seq<Byte>, after: seq<Byte>, result: int, capacity: int, reliable: bool)
    requires |before| <= capacity
    requires op.Read? && result == -1 ==> after == before && (reliable ==> before == [])
    requires op.Read? && result != -1 ==> 0 <= result < 0x100 && before == [result] + after
    requires op.Write? ==> 0 <= result <= |op.data| && after == before + op.data[..result] && |after| <= capacity
    requires op.Write? ==> result == 0 || result == |op.data| || |after| == capacity
    requires op.Write? && reliable ==> result == |op.data| || |after| == capacity
    ensures Step(op, before, after, result, capacity, reliable)
  {
  }

  /** A byte past the queued ones is not among the first of them. */
  lemma FreeByte(buf: seq<Byte>, head: nat, stored: nat, tail: nat, b: Byte, start: seq<Byte>, more: seq<Byte>)
    requires head < |buf| && stored < |buf| && tail < |buf| && Inc(|buf|, tail) != head
    requires Queued(buf, head, stored) == start && Queued(buf, head, tail) == start + more
    ensures Queued(buf[tail := b], head, stored) == start
  {
  }

  lemma EmptyExactly(buf: seq<Byte>, head: nat, tail: nat)
    requires head < |buf| && tail < |buf|
    ensures Queued(buf, head, tail) == [] <==> head == tail
  {
  }

  lemma IncInside(size: nat, offset: nat)
    requires offset < size
    ensures Inc(size, offset) < size
  {
  }
}
