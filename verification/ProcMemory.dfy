/** A process's memory as the kernel keeps it: program file, RAM file, and blocks read and written through them. */
module ProcMemory {
  import opened AddressMap
  import opened Words
  import opened MemorySpace

  class Memory {
    const progmem: seq<Byte>
    const envVarDataLen: Byte
    const scratch: array<Byte>
    // The file system always has room for a RAM file of this many bytes, and opens it.
    const assured: nat
    var ramFile: seq<Byte>
    var ramLen: Word
    var ramOpen: bool

    /** Room for all of an address space and the environment data. */
    ghost predicate Roomy() {
      assured >= 0x1_0000
    }

    ghost function Contents(): Space
      reads this
    {
      Space(progmem, ramFile, ramLen, envVarDataLen)
    }

    ghost predicate Valid()
      reads this
    {
      ramOpen && Proper(Contents()) && scratch.Length == 256
    }

    constructor (program: seq<Byte>, env: seq<Byte>, room: nat)
      requires |env| < 0x100
      ensures Valid() && fresh(scratch) && assured == room
      ensures Contents() == Space(program, env, 0, |env|)
    {
      progmem, envVarDataLen, scratch, assured := program, |env|, new Byte[256], room;
      ramFile, ramLen, ramOpen := env, 0, true;
    }

    // The files. Program and RAM file are read and written without failing; growing and opening can fail.

    /** Reading a file from an offset: as much as there is. */
    method ReadOffset(file: seq<Byte>, at: nat, data: array<Byte>, n: nat) returns (count: nat)
      requires n <= data.Length
      modifies data
      ensures count == if at >= |file| then 0 else if |file| - at < n then |file| - at else n
      ensures data[count..] == old(data[count..])
      ensures count == n && n > 0 ==> data[..n] == file[at..][..n]
    {
      count := if at >= |file| then 0 else if |file| - at < n then |file| - at else n;
      forall i | 0 <= i < count {
        data[i] := file[at + i];
      }
    }

    /** Writing the RAM file at an offset: as much as it has room for. */
    method WriteOffset(at: nat, data: array<Byte>, n: nat) returns (count: nat)
      requires n <= data.Length
      modifies this`ramFile
      ensures count == if at >= |ramFile| then 0 else if |ramFile| - at < n then |ramFile| - at else n
      ensures ramFile == Overlay(old(ramFile), at, data[..count])
    {
      count := if at >= |ramFile| then 0 else if |ramFile| - at < n then |ramFile| - at else n;
      ramFile := Overlay(ramFile, at, data[..count]);
    }

    /** Growing the RAM file: the bytes it gains are whatever the file system holds there. */
    method Resize(newSize: nat) returns (ok: bool, ghost fill: seq<Byte>)
      requires |ramFile| <= newSize
      modifies this`ramFile
      ensures ok ==> |fill| == newSize - |old(ramFile)| && ramFile == old(ramFile) + fill
      ensures !ok ==> ramFile == old(ramFile)
      ensures newSize <= assured ==> ok
    {
      ok, fill := *, [];
      ok := ok || newSize <= assured;
      if ok {
        var gained: seq<Byte> := [];
        while |ramFile| + |gained| < newSize
          invariant |ramFile| + |gained| <= newSize
          decreases newSize - |gained|
        {
          var b: Byte := *;
          gained := gained + [b];
        }
        fill := gained;
        ramFile := ramFile + gained;
      }
    }

    // Blocks.

    method ReadBlock(addr: Word, data: array<Byte>, n: nat) returns (ok: bool)
      requires Valid() && n <= data.Length
      modifies data
      ensures ok == ReadOk(Contents(), addr, n)
      ensures ok ==> data[..n] == Block(Contents(), addr, n)
    {
      var count: nat;
      if addr + n < RAM_ADDR {
        count := ReadOffset(progmem, addr, data, n);
        return count == n;
      } else if addr >= RAM_ADDR {
        var ramIndex := addr - RAM_ADDR;
        if ramIndex < ramLen {
          count := ReadOffset(ramFile, ramIndex + envVarDataLen, data, n);
          return count == n;
        } else if addr >= ENV_ADDR {
          var offset := addr - ENV_ADDR;
          if offset < envVarDataLen {
            count := ReadOffset(ramFile, offset, data, n);
            return count == n;
          }
          return false;
        }
        return false;
      }
      return false;
    }

    /** A block is written whole, or not at all to good effect: a process whose write fails is killed. */
    method WriteBlock(addr: Word, data: array<Byte>, n: nat)
      returns (ok: bool, ghost extra: nat, ghost fill: seq<Byte>)
      requires Valid() && n <= data.Length && (addr < ENV_ADDR ==> LengthsFit(Contents(), addr, n))
      modifies this`ramFile, this`ramLen, this`ramOpen
      ensures WhereTo(old(Contents()), addr, n).Refused? ==> !ok
      ensures WhereTo(old(Contents()), addr, n).Plain? || WhereTo(old(Contents()), addr, n).Env? ==> ok
      ensures ok ==> Valid() && Fills(old(Contents()), addr, n, extra, fill)
      ensures ok ==> Contents() == Written(old(Contents()), addr, data[..n], extra, fill)
      ensures WhereTo(old(Contents()), addr, n).Grow? && envVarDataLen + (addr - RAM_ADDR) + n <= assured ==> ok
      ensures 0x8000 <= addr < 0xFC00 && envVarDataLen + (addr - 0x8000) + n + 15 <= assured ==>
        ok && ramLen == if addr - 0x8000 + n < old(ramLen) then old(ramLen) else addr - 0x8000 + n + 15
    {
      extra, fill := 1, [];
      if addr < RAM_ADDR && addr + n >= RAM_ADDR {
        return false, extra, fill;
      }
      if addr + n < RAM_ADDR {
        return false, extra, fill;
      }
      var ramIndex := addr - RAM_ADDR;
      var count: nat;
      if ramIndex + n < ramLen {
        count := WriteOffset(envVarDataLen + ramIndex, data, n);
        return count == n, extra, fill;
      } else if addr >= ENV_ADDR {
        count := WriteOffset(addr - ENV_ADDR, data, n);
        return count == n, extra, fill;
      }
      ok, extra, fill := GrowAndWrite(addr, data, n);
      assert ExtraTried(1) && ExtraTried(16);
    }

    /** The write that first makes room: the RAM file is closed, resized, opened again. */
    method GrowAndWrite(addr: Word, data: array<Byte>, n: nat)
      returns (ok: bool, ghost tried: nat, ghost fill: seq<Byte>)
      requires Valid() && n <= data.Length && LengthsFit(Contents(), addr, n)
      requires WhereTo(Contents(), addr, n).Grow?
      modifies this`ramFile, this`ramLen, this`ramOpen
      ensures ok ==> Valid() && Fills(old(Contents()), addr, n, tried, fill)
      ensures ok ==> Contents() == Written(old(Contents()), addr, data[..n], tried, fill)
      ensures forall e: nat :: ExtraTried(e) && envVarDataLen + (addr - RAM_ADDR) + n + e <= assured + 1 ==>
        ok && tried >= e
    {
      var ramIndex := addr - RAM_ADDR;
      ramOpen := false;
      var newRamLenMin := ramIndex + n;
      var newRamTotalSizeMin := envVarDataLen + newRamLenMin;
      var extra: nat := 16;
      var newRamLen: Word := newRamLenMin;
      var resized := false;
      tried, fill := 16, [];
      while extra > 0
        invariant ExtraTried(extra)
        invariant forall e: nat :: ExtraTried(e) && e > extra ==> newRamTotalSizeMin + e > assured + 1
        invariant !resized && ramFile == old(ramFile) && ramLen == old(ramLen) && !ramOpen
        decreases extra
      {
        newRamLen := newRamLenMin + extra - 1;
        resized, fill := Resize(newRamTotalSizeMin + extra - 1);
        tried := extra;
        if resized {
          break;
        }
        if extra <= 1 {
          ramFile := [];
          return false, tried, fill;
        }
        extra := extra / 2;
      }
      var reopened: bool := *;
      if !reopened && newRamTotalSizeMin > assured {
        ramFile := [];
        return false, tried, fill;
      }
      ramOpen := true;
      ramLen := newRamLen;
      var count := WriteOffset(envVarDataLen + ramIndex, data, n);
      return count == n, tried, fill;
    }

    /**
     * Moving a range, in chunks that fit the scratch buffer, from the end that is not yet overwritten. Addresses wrap;
     * a copy within its ranges moves exactly the bytes it should, and if its source is readable only room can lack.
     */
    method Memmove(destAddr: Word, srcAddr: Word, size: Word) returns (ok: bool)
      requires Valid()
      modifies this`ramFile, this`ramLen, this`ramOpen, scratch
      ensures ok ==> Valid()
      ensures ok && CopyRanges(old(Contents()), destAddr, srcAddr, size) ==>
        && Copied(old(Contents()), Contents(), destAddr, srcAddr, 0, size)
        && OthersKept(old(Contents()), Contents(), destAddr, size)
      ensures old(CopyCannotFail(Contents(), destAddr, srcAddr, size, Roomy())) ==> ok
    {
      if destAddr < srcAddr {
        ok := MoveUp(destAddr, srcAddr, size);
      } else {
        ok := MoveDown(destAddr, srcAddr, size);
      }
    }

    /** A chunk read into the scratch buffer and written from it. */
    method CopyChunk(from: Word, to: Word, n: nat) returns (ok: bool, ghost extra: nat, ghost fill: seq<Byte>)
      requires Valid() && n <= 256
      modifies this`ramFile, this`ramLen, this`ramOpen, scratch
      ensures ok ==> Valid() && ReadOk(old(Contents()), from, n) && !WhereTo(old(Contents()), to, n).Refused?
      ensures ok ==> Fills(old(Contents()), to, n, extra, fill)
      ensures ok ==> Contents() == Written(old(Contents()), to, Block(old(Contents()), from, n), extra, fill)
      ensures var where := WhereTo(old(Contents()), to, n);
              ReadOk(old(Contents()), from, n) && !where.Refused? && (where.Grow? ==> Roomy()) ==> ok
    {
      hide ReadOk, Block, Fills, Written;
      extra, fill := 1, [];
      ok := ReadBlock(from, scratch, n);
      if ok {
        ok, extra, fill := WriteBlock(to, scratch, n);
      }
    }

    method MoveUp(destAddr: Word, srcAddr: Word, size: Word) returns (ok: bool)
      requires Valid() && destAddr < srcAddr
      modifies this`ramFile, this`ramLen, this`ramOpen, scratch
      ensures ok ==> Valid()
      ensures ok && CopyRanges(old(Contents()), destAddr, srcAddr, size) ==>
        Copying(old(Contents()), Contents(), destAddr, srcAddr, size, 0, size)
      ensures old(CopyCannotFail(Contents(), destAddr, srcAddr, size, Roomy())) ==> ok
    {
      hide Copying, CopyRanges, CopyReady, ReadOk, WhereTo, Block, Written, Fills;
      ghost var s0 := Contents();
      ghost var ranges := CopyRanges(s0, destAddr, srcAddr, size);
      var i := 0;
      if ranges {
        RangesFit(s0, destAddr, srcAddr, size);
      }
      while i < size
        invariant 0 <= i <= size && Valid()
        invariant ranges ==> Copying(s0, Contents(), destAddr, srcAddr, size, 0, i)
        invariant ranges ==> ramLen == s0.ramLen || srcAddr + i >= ENV_ADDR
      {
        var chunkSize := if size - i > 256 then 256 else size - i;
        ghost var s := Contents();
        if ranges && CopyReady(s0, destAddr, srcAddr, size, Roomy()) {
          ChunkReady(s0, s, destAddr, srcAddr, size, 0, i, i, chunkSize, Roomy());
        }
        ghost var extra, fill;
        var done;
        done, extra, fill := CopyChunk(Wrap(srcAddr + i), Wrap(destAddr + i), chunkSize);
        if !done {
          return false;
        }
        if ranges {
          UpwardStep(s0, s, destAddr, srcAddr, size, i, chunkSize, extra, fill);
        }
        i := i + chunkSize;
      }
      return true;
    }

    method MoveDown(destAddr: Word, srcAddr: Word, size: Word) returns (ok: bool)
      requires Valid() && srcAddr <= destAddr
      modifies this`ramFile, this`ramLen, this`ramOpen, scratch
      ensures ok ==> Valid()
      ensures ok && CopyRanges(old(Contents()), destAddr, srcAddr, size) ==>
        Copying(old(Contents()), Contents(), destAddr, srcAddr, size, 0, size)
      ensures old(CopyCannotFail(Contents(), destAddr, srcAddr, size, Roomy())) ==> ok
    {
      hide Copying, CopyRanges, CopyReady, ReadOk, WhereTo, Block, Written, Fills;
      ghost var s0 := Contents();
      ghost var ranges := CopyRanges(s0, destAddr, srcAddr, size);
      var i := 0;
      if ranges {
        RangesFit(s0, destAddr, srcAddr, size);
      }
      while i < size
        invariant 0 <= i <= size && Valid()
        invariant ranges ==> Copying(s0, Contents(), destAddr, srcAddr, size, size - i, size)
        invariant ranges ==> ramLen == s0.ramLen || srcAddr + size - i <= RAM_ADDR + s0.ramLen
      {
        var chunkSize := if size - i > 256 then 256 else size - i;
        ghost var s := Contents();
        var q := size - chunkSize - i;
        if ranges && CopyReady(s0, destAddr, srcAddr, size, Roomy()) {
          ChunkReady(s0, s, destAddr, srcAddr, size, size - i, size, q, chunkSize, Roomy());
        }
        ghost var extra, fill;
        var done;
        done, extra, fill := CopyChunk(Wrap(srcAddr + q), Wrap(destAddr + q), chunkSize);
        if !done {
          return false;
        }
        if ranges {
          DownwardStep(s0, s, destAddr, srcAddr, size, q, chunkSize, extra, fill);
        }
        i := i + chunkSize;
      }
      return true;
    }
  }

  lemma RangesFit(s: Space, dest: Word, src: Word, size: nat)
    requires Proper(s) && CopyRanges(s, dest, src, size)
    ensures dest + size <= 0x1_0000 && src + size <= 0x1_0000
    ensures Copying(s, s, dest, src, size, 0, 0) && Copying(s, s, dest, src, size, size, size)
  {
  }
}
