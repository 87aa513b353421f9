/** The SD card reader's write-back cache: one block held in front of a card whose reads and writes can fail. */
module SdCache {
  import opened Words

  const BLOCK := 512

  /** What a user of the device sees: the card, with the cached block laid over it. */
  function Viewed(card: seq<Byte>, cache: seq<Byte>, isValid: bool, block: nat): (r: seq<Byte>)
    ensures |r| == |card|
  {
    if isValid then Overlay(card, block * BLOCK, cache) else card
  }

  /** The block an address lies in. */
  function BlockAt(at: nat): nat {
    at / BLOCK
  }

  /** How many of some bytes from an address on lie on a card. */
  function Reach(addr: nat, len: nat, size: nat): (n: nat)
    ensures addr + len <= size ==> n == len
    ensures addr <= size < addr + len ==> addr + n == size
    ensures addr > size ==> n == 0
  {
    if addr + len <= size then len else if addr <= size then size - addr else 0
  }

  class SdCardReader {
    const card: array<Byte>
    const cache: array<Byte>
    const badCard: bool
    // A card none of whose reads and writes fail.
    const reliable: bool
    var cacheIsValid: bool
    var cacheIsDirty: bool
    var cacheBlock: nat

    ghost function View(): (r: seq<Byte>)
      reads this, card, cache
      ensures |r| == card.Length
    {
      Viewed(card[..], cache[..], cacheIsValid, cacheBlock)
    }

    /** A clean cached block is the card's; a dirty one is all there is of its contents. */
    ghost predicate Valid()
      reads this, card, cache
    {
      && cache.Length == BLOCK && card != cache && card.Length % BLOCK == 0
      && (cacheIsValid ==> cacheBlock * BLOCK + BLOCK <= card.Length)
      && (cacheIsValid && !cacheIsDirty ==> View() == card[..])
    }

    /** A card just mounted, with nothing cached. */
    constructor Mount(contents: array<Byte>, bad: bool, neverFails: bool)
      requires contents.Length % BLOCK == 0
      ensures Valid() && card == contents && badCard == bad && reliable == neverFails && fresh(cache)
      ensures cache.Length == 512
      ensures !cacheIsValid && View() == contents[..]
    {
      card, badCard, reliable := contents, bad, neverFails;
      cache := new Byte[BLOCK];
      cacheIsValid, cacheIsDirty, cacheBlock := false, false, 0;
    }

    /** Reading a block from the card over the cache; a failed read can leave anything there. */
    method ReadCardBlock(block: nat) returns (ok: bool)
      requires cache.Length == BLOCK && card != cache
      modifies cache
      ensures ok ==> block * BLOCK + BLOCK <= card.Length && cache[..] == card[block * BLOCK..block * BLOCK + BLOCK]
      ensures reliable && block * BLOCK + BLOCK <= card.Length ==> ok
    {
      ok := *;
      ok := block * BLOCK + BLOCK <= card.Length && (ok || reliable);
      for i := 0 to BLOCK
        invariant ok ==> cache[..i] == card[block * BLOCK..block * BLOCK + i]
      {
        var b: Byte := *;
        if ok {
          b := card[block * BLOCK + i];
        }
        cache[i] := b;
      }
    }

    /** Writing the cache to a block of the card; a failed write can leave anything in that block. */
    method WriteCardBlock(block: nat) returns (ok: bool)
      requires cache.Length == BLOCK && card != cache && block * BLOCK + BLOCK <= card.Length
      modifies card
      ensures ok ==> card[..] == Overlay(old(card[..]), block * BLOCK, cache[..])
      ensures Overlay(card[..], block * BLOCK, cache[..]) == Overlay(old(card[..]), block * BLOCK, cache[..])
      ensures reliable ==> ok
    {
      ok := *;
      ok := ok || reliable;
      ghost var before := card[..];
      for i := 0 to BLOCK
        invariant forall k :: 0 <= k < card.Length && !(block * BLOCK <= k < block * BLOCK + i) ==> card[k] == before[k]
        invariant ok ==> forall k :: 0 <= k < i ==> card[block * BLOCK + k] == cache[k]
      {
        var b: Byte := *;
        if ok {
          b := cache[i];
        }
        card[block * BLOCK + i] := b;
      }
    }

    /** Bringing a block into the cache, first writing back another that is dirty. */
    method Select(block: nat) returns (ok: bool)
      requires Valid()
      modifies this`cacheIsValid, this`cacheIsDirty, this`cacheBlock, card, cache
      ensures Valid() && View() == old(View())
      ensures ok ==> cacheIsValid && cacheBlock == block
      ensures reliable && block * BLOCK + BLOCK <= card.Length ==> ok
    {
      if cacheIsValid && block != cacheBlock && cacheIsDirty {
        ok := WriteCardBlock(cacheBlock);
        if !ok {
          return false;
        }
        cacheIsDirty := false;
      }
      if !cacheIsValid || block != cacheBlock {
        ok := ReadCardBlock(block);
        if !ok {
          cacheIsValid := false;
          return false;
        }
        cacheIsValid := true;
        cacheIsDirty := false;
        cacheBlock := block;
        assert View() == card[..];
      }
      return true;
    }

    /** Reading byte by byte: what is returned is the view's, which stays as it was. */
    method Read(addr: nat, data: array<Byte>, len: nat) returns (readCount: nat)
      requires Valid() && len <= data.Length && data != card && data != cache && addr + len <= 0x1_0000_0000
      modifies this`cacheIsValid, this`cacheIsDirty, this`cacheBlock, card, cache, data
      ensures Valid() && View() == old(View())
      ensures readCount <= len && (readCount > 0 ==> addr + readCount <= card.Length)
      ensures readCount > 0 ==> data[..readCount] == View()[addr..addr + readCount]
      ensures data[readCount..] == old(data[readCount..])
      ensures badCard ==> readCount == 0
      ensures reliable && !badCard ==> readCount == Reach(addr, len, card.Length)
    {
      hide Viewed, Valid, BlockAt, View, Reach;
      readCount := 0;
      if badCard {
        return 0;
      }
      while readCount < len
        invariant 0 <= readCount <= len && Valid() && View() == old(View())
        invariant readCount > 0 ==> addr + readCount <= card.Length
        invariant readCount > 0 ==> data[..readCount] == View()[addr..addr + readCount]
        invariant data[readCount..] == old(data[readCount..])
      {
        var block := BlockAt(addr + readCount);
        BlockOf(addr + readCount);
        var ok := Select(block);
        if !ok {
          break;
        }
        assert cacheBlock == block;
        CachedByte(addr + readCount);
        var offset := addr + readCount - block * BLOCK;
        ghost var before, view := data[..], View();
        data[readCount] := cache[offset];
        ghost var after := data[..];
        assert after == before[readCount := view[addr + readCount]];
        OneMore(before, view, addr, readCount);
        assert data[..readCount + 1] == after[..readCount + 1];
        assert data[readCount + 1..] == after[readCount + 1..];
        assert before[readCount + 1..] == before[readCount..][1..];
        readCount := readCount + 1;
      }
    }

    /** Writing in chunks that end with a block: exactly the bytes counted change in the view. */
    method Write(addr: nat, data: array<Byte>, len: nat) returns (writeCount: nat)
      requires Valid() && len <= data.Length && data != card && data != cache && addr + len <= 0x1_0000_0000
      modifies this`cacheIsValid, this`cacheIsDirty, this`cacheBlock, card, cache
      ensures Valid() && writeCount <= len
      ensures View() == Overlay(old(View()), addr, data[..writeCount])
      ensures writeCount > 0 ==> addr + writeCount <= card.Length
      ensures badCard ==> writeCount == 0
      ensures reliable && !badCard ==> writeCount == Reach(addr, len, card.Length)
    {
      hide Viewed, Valid, Overlay, BlockAt, View, Reach;
      writeCount := 0;
      NothingOver(View(), addr, data[..0]);
      if badCard {
        return 0;
      }
      while writeCount < len
        invariant 0 <= writeCount <= len && Valid()
        invariant View() == Overlay(old(View()), addr, data[..writeCount])
        invariant writeCount > 0 ==> addr + writeCount <= card.Length
        decreases len - writeCount
      {
        var at := addr + writeCount;
        var block := BlockAt(at);
        BlockOf(at);
        var ok := Select(block);
        if !ok {
          break;
        }
        assert cacheIsValid && cacheBlock == block;
        CachedByte(at);
        var offset := at - block * BLOCK;
        var loopWriteLen := if BLOCK - offset < len - writeCount then BLOCK - offset else len - writeCount;
        ghost var view := View();
        CopyToCache(offset, data, writeCount, loopWriteLen);
        OverlayJoins(old(View()), addr, data[..], writeCount, loopWriteLen);
        writeCount := writeCount + loopWriteLen;
      }
    }

    /** Laying bytes over part of the cached block, which is then dirty. */
    method CopyToCache(offset: nat, data: array<Byte>, from: nat, n: nat)
      requires Valid() && cacheIsValid && data != cache && data != card
      requires offset + n <= BLOCK && from + n <= data.Length
      modifies this`cacheIsDirty, cache
      ensures Valid() && View() == Overlay(old(View()), cacheBlock * BLOCK + offset, data[from..from + n])
      ensures cacheBlock * BLOCK + BLOCK <= card.Length
    {
      ghost var before := cache[..];
      forall i | 0 <= i < n {
        cache[offset + i] := data[from + i];
      }
      cacheIsDirty := true;
      assert cache[..] == Overlay(before, offset, data[from..from + n]);
      ViewedOverlay(card[..], before, cacheBlock, offset, data[from..from + n]);
    }

    /** An address on the card lies in a whole block. */
    lemma BlockOf(at: nat)
      requires Valid()
      ensures at < card.Length ==> BlockAt(at) * BLOCK + BLOCK <= card.Length
      ensures BlockAt(at) * BLOCK <= at < BlockAt(at) * BLOCK + BLOCK
    {
    }

    /** A byte of the cached block is what the view shows there. */
    lemma CachedByte(at: nat)
      requires Valid() && cacheIsValid && cacheBlock * BLOCK <= at < cacheBlock * BLOCK + BLOCK
      ensures cache.Length == BLOCK && at < card.Length && View()[at] == cache[at - cacheBlock * BLOCK]
    {
    }

    /** Writing a dirty block back: a true result means the card holds all the view shows. */
    method Flush() returns (ok: bool)
      requires Valid()
      modifies this`cacheIsDirty, card
      ensures Valid() && View() == old(View())
      ensures ok ==> card[..] == View()
      ensures badCard ==> !ok
      ensures reliable && !badCard ==> ok
    {
      if badCard {
        return false;
      }
      if !cacheIsValid || !cacheIsDirty {
        return true;
      }
      ok := WriteCardBlock(cacheBlock);
      if !ok {
        return false;
      }
      cacheIsDirty := false;
    }
  }

  lemma OneMore(before: seq<Byte>, view: seq<Byte>, addr: nat, n: nat)
    requires n < |before| && addr + n < |view| && (n > 0 ==> before[..n] == view[addr..addr + n])
    ensures before[n := view[addr + n]][..n + 1] == view[addr..addr + n + 1]
    ensures before[n := view[addr + n]][n + 1..] == before[n + 1..]
  {
    var after := before[n := view[addr + n]];
    assert after[..n + 1] == before[..n] + [view[addr + n]];
    assert view[addr..addr + n + 1] == view[addr..addr + n] + [view[addr + n]];
    assert n == 0 ==> before[..n] == [] == view[addr..addr + n];
  }

  lemma NothingOver(view: seq<Byte>, addr: nat, none: seq<Byte>)
    requires none == []
    ensures Overlay(view, addr, none) == view
  {
  }

  lemma OverlayJoins(view: seq<Byte>, addr: nat, data: seq<Byte>, n: nat, m: nat)
    requires n + m <= |data|
    ensures Overlay(Overlay(view, addr, data[..n]), addr + n, data[n..n + m]) == Overlay(view, addr, data[..n + m])
  {
  }

  lemma ViewedOverlay(card: seq<Byte>, cache: seq<Byte>, block: nat, offset: nat, chunk: seq<Byte>)
    requires |cache| == BLOCK && block * BLOCK + BLOCK <= |card| && offset + |chunk| <= BLOCK
    ensures Viewed(card, Overlay(cache, offset, chunk), true, block)
         == Overlay(Viewed(card, cache, true, block), block * BLOCK + offset, chunk)
  {
  }
}
