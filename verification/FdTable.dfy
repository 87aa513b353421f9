/** The kernel's table of open files: each slot's path, and its mode and reference count packed in spare bits. */
module FdTable {
  const FD_MAX := 64
  const FD_INVALID := 0
  const MODE_MAX := 4
  const REF_COUNT_MAX := 8

  type Fd = f: int | 0 <= f < FD_MAX

  datatype Slot = Free | Used(path: string, spare: nat)

  // The packed bits: the count above the mode.

  function SpareMake(mode: nat, refCount: nat): nat {
    if mode == 0 || mode >= MODE_MAX || refCount >= REF_COUNT_MAX then 0 else refCount * MODE_MAX + mode
  }

  function SpareMode(spare: nat): nat {
    spare % MODE_MAX
  }

  function SpareRefCount(spare: nat): nat {
    spare / MODE_MAX
  }

  /** Packing keeps mode and count exactly when the mode is one of the three and the count takes three bits. */
  lemma SpareExactly(mode: nat, refCount: nat)
    ensures var s := SpareMake(mode, refCount);
            SpareMode(s) == mode && SpareRefCount(s) == refCount <==>
            (1 <= mode < MODE_MAX && refCount < REF_COUNT_MAX) || (mode == 0 && refCount == 0)
  {
  }

  /** The mode just past the three is let through on opening, but cannot be packed: the slot counts nothing. */
  lemma ModeMaxLost(path: string)
    ensures var s := Used(path, SpareMake(MODE_MAX, 1)); RefCount(s) == 0 && !SlotOk(s)
  {
  }

  /** How many references a slot counts. */
  function RefCount(s: Slot): nat {
    if s.Free? then 0 else SpareRefCount(s.spare)
  }

  /** A slot in use has a mode, and between one and seven references. */
  predicate SlotOk(s: Slot) {
    s.Used? ==> 1 <= SpareMode(s.spare) && 1 <= SpareRefCount(s.spare) < REF_COUNT_MAX
  }

  /** One reference more, or one less; the last gone frees the slot. */
  function Counted(s: Slot, refCount: nat): (r: Slot)
    requires s.Used? && SlotOk(s) && refCount < REF_COUNT_MAX
    ensures RefCount(r) == refCount && SlotOk(r) && (r.Free? <==> refCount == 0)
    ensures r.Used? ==> r.path == s.path && SpareMode(r.spare) == SpareMode(s.spare)
  {
    if refCount == 0 then Free else Used(s.path, SpareMake(SpareMode(s.spare), refCount))
  }

  predicate HasFree(slots: seq<Slot>) {
    exists i :: 1 <= i < |slots| && slots[i].Free?
  }

  /** How many slots but 0 are free. */
  function FreeCount(slots: seq<Slot>): (n: nat)
    ensures n > 0 ==> HasFree(slots)
  {
    if |slots| <= 1 then 0
    else FreeCount(slots[..|slots| - 1]) + if slots[|slots| - 1].Free? then 1 else 0
  }

  /** Changing one slot changes the count by one at most. */
  lemma {:induction false} FreeCountChanged(a: seq<Slot>, b: seq<Slot>, fd: nat)
    requires |a| == |b| && forall i :: 1 <= i < |a| && i != fd ==> a[i] == b[i]
    ensures FreeCount(b) + 1 >= FreeCount(a)
    ensures !(1 <= fd < |a|) ==> FreeCount(b) == FreeCount(a)
    decreases |a|
  {
    if |a| > 1 {
      FreeCountChanged(a[..|a| - 1], b[..|b| - 1], fd);
    }
  }

  /** Only slot 0, which stands for no file, may differ. */
  predicate SameFiles(a: seq<Slot>, b: seq<Slot>) {
    |a| == |b| && forall i :: 1 <= i < |a| ==> a[i] == b[i]
  }

  /** Slot `fd` is now `s`, and no other but slot 0 has changed. */
  predicate Changed(a: seq<Slot>, b: seq<Slot>, fd: nat, s: Slot) {
    |a| == |b| && 1 <= fd < |a| && b[fd] == s && forall i :: 1 <= i < |a| && i != fd ==> a[i] == b[i]
  }

  /** One reference more to `fd`; no other slot but 0 has changed. */
  predicate Gains(a: seq<Slot>, b: seq<Slot>, fd: Fd) {
    && |a| == |b| && (forall i :: 1 <= i < |a| && i != fd ==> a[i] == b[i])
    && (fd != FD_INVALID ==> fd < |a| && RefCount(b[fd]) == RefCount(a[fd]) + 1)
  }

  /** One reference less to `fd`; no other slot but 0 has changed. */
  predicate Loses(a: seq<Slot>, b: seq<Slot>, fd: Fd) {
    && |a| == |b| && (forall i :: 1 <= i < |a| && i != fd ==> a[i] == b[i])
    && (fd != FD_INVALID ==> fd < |a| && RefCount(b[fd]) == RefCount(a[fd]) - 1)
  }

  /** Two slots open the same file in the same mode. */
  predicate SameFile(slots: seq<Slot>, f: Fd, g: Fd) {
    && f < |slots| && g < |slots| && slots[f].Used? && slots[g].Used?
    && slots[f].path == slots[g].path && SpareMode(slots[f].spare) == SpareMode(slots[g].spare)
  }

  /** Every slot in use still is, for the same file in the same mode. */
  predicate Keeps(a: seq<Slot>, b: seq<Slot>) {
    |a| == |b| && forall i :: 1 <= i < |a| && a[i].Used? ==>
      b[i].Used? && b[i].path == a[i].path && SpareMode(b[i].spare) == SpareMode(a[i].spare)
  }

  /** Slots in use on both sides are for the same file in the same mode. */
  predicate Agree(a: seq<Slot>, b: seq<Slot>) {
    |a| == |b| && forall i :: 1 <= i < |a| && a[i].Used? && b[i].Used? ==>
      b[i].path == a[i].path && SpareMode(b[i].spare) == SpareMode(a[i].spare)
  }

  lemma KeepsAll(a: seq<Slot>, b: seq<Slot>, c: seq<Slot>)
    requires Keeps(a, b) && Keeps(b, c)
    ensures Keeps(a, c)
  {
  }

  /** Opening and then closing leaves nothing renamed. */
  lemma KeepsAgree(a: seq<Slot>, b: seq<Slot>, c: seq<Slot>)
    requires Keeps(a, b) && Keeps(c, b)
    ensures Agree(a, c)
  {
  }

  lemma KeepsItself(a: seq<Slot>)
    ensures Keeps(a, a) && Agree(a, a)
  {
  }

  lemma SameFileKept(a: seq<Slot>, b: seq<Slot>, f: Fd, g: Fd)
    requires Keeps(a, b) && SameFile(a, f, g) && f != FD_INVALID && g != FD_INVALID
    ensures SameFile(b, f, g)
  {
  }

  class Files {
    const fdt: array<Slot>
    // Files that all exist and can be opened any number of times, with memory to spare.
    const reliable: bool

    ghost predicate Valid()
      reads fdt
    {
      fdt.Length == FD_MAX && forall i :: 1 <= i < FD_MAX ==> SlotOk(fdt[i])
    }

    constructor (neverFails: bool)
      ensures Valid() && fresh(fdt) && reliable == neverFails && forall i :: 0 <= i < FD_MAX ==> fdt[i].Free?
    {
      fdt, reliable := new Slot[FD_MAX](_ => Free), neverFails;
    }

    /**
     * Opening a file that exists: the last free slot is taken. With no slot free, slot 0 is filled in and the
     * caller told the open failed. The mode past the last is let through, and leaves a slot that counts no reference.
     */
    method FileOpen(path: string, mode: nat) returns (newFd: Fd)
      requires Valid()
      modifies fdt
      ensures mode != MODE_MAX || newFd == FD_INVALID ==> Valid()
      ensures newFd != FD_INVALID ==> (Valid() <==> mode != MODE_MAX)
      ensures reliable && 1 <= mode <= MODE_MAX ==> (newFd != FD_INVALID <==> HasFree(old(fdt[..])))
      ensures newFd == FD_INVALID ==> SameFiles(old(fdt[..]), fdt[..])
      ensures newFd != FD_INVALID ==>
        && old(fdt[..])[newFd].Free? && Changed(old(fdt[..]), fdt[..], newFd, Used(path, SpareMake(mode, 1)))
        && forall k :: newFd < k < FD_MAX ==> fdt[k].Used?
      ensures HasFree(old(fdt[..])) ==> fdt[0] == old(fdt[0])
      ensures mode == 0 || mode > MODE_MAX ==> newFd == FD_INVALID
    {
      var exists_: bool := *;
      exists_ := exists_ || reliable;
      if mode == 0 || mode > MODE_MAX || !exists_ {
        return FD_INVALID;
      }
      newFd := FD_INVALID;
      var alreadyOpen := false;
      for i := 0 to FD_MAX
        invariant newFd == FD_INVALID ==> forall k :: 1 <= k < i ==> fdt[k].Used?
        invariant newFd != FD_INVALID ==> newFd < i && fdt[newFd].Free? && forall k :: newFd < k < i ==> fdt[k].Used?
      {
        if i != FD_INVALID {
          if fdt[i].Free? {
            newFd := i;
          } else if fdt[i].path == path {
            alreadyOpen := true;
          }
        }
      }
      var canOpenMany: bool, memory: bool, hasDevice: bool := *, *, *;
      if alreadyOpen && !canOpenMany && !reliable {
        return FD_INVALID;
      }
      var stored := reliable || (memory && hasDevice);
      fdt[newFd] := if stored then Used(path, SpareMake(mode, 1)) else Free;
      if !stored {
        return FD_INVALID;
      }
    }

    /** One more reference, unless the count is at its limit. */
    method FileDupe(fd: Fd) returns (ok: bool)
      requires Valid()
      modifies fdt
      ensures Valid()
      ensures ok <==> old(fdt[fd]).Used? && RefCount(old(fdt[fd])) + 1 < REF_COUNT_MAX
      ensures ok && fd != FD_INVALID ==>
        fdt[..] == old(fdt[..])[fd := Counted(old(fdt[fd]), RefCount(old(fdt[fd])) + 1)]
      ensures ok && fd == FD_INVALID ==> SameFiles(old(fdt[..]), fdt[..])
      ensures !ok ==> fdt[..] == old(fdt[..])
    {
      if fdt[fd].Free? {
        return false;
      }
      var refCount := SpareRefCount(fdt[fd].spare) + 1;
      if refCount >= REF_COUNT_MAX {
        return false;
      }
      fdt[fd] := Used(fdt[fd].path, SpareMake(SpareMode(fdt[fd].spare), refCount));
      return true;
    }

    /** A further reference to an open file: the same slot if its count allows, else another; none to a free slot. */
    method FileDupeOrOpen(fd: Fd) returns (newFd: Fd)
      requires Valid()
      modifies fdt
      ensures Valid()
      ensures newFd == FD_INVALID ==> SameFiles(old(fdt[..]), fdt[..])
      ensures newFd != FD_INVALID ==> old(fdt[fd]).Used?
      ensures reliable && fd != FD_INVALID && old(fdt[fd]).Used? && HasFree(old(fdt[..])) ==> newFd != FD_INVALID
      ensures newFd != FD_INVALID ==>
        && (newFd == fd || old(fdt[..])[newFd].Free?)
        && RefCount(fdt[newFd]) == RefCount(old(fdt[..])[newFd]) + 1
        && Changed(old(fdt[..]), fdt[..], newFd, fdt[newFd])
        && fdt[newFd].Used? && fdt[newFd].path == old(fdt[fd]).path
        && SpareMode(fdt[newFd].spare) == SpareMode(old(fdt[fd]).spare)
      ensures fd != FD_INVALID && HasFree(old(fdt[..])) ==> fdt[0] == old(fdt[0])
    {
      var duped := FileDupe(fd);
      if duped {
        return fd;
      }
      if fdt[fd].Free? {
        return FD_INVALID;
      }
      newFd := FileOpen(fdt[fd].path, SpareMode(fdt[fd].spare));
    }

    /** One reference less; the slot is freed exactly when it was the last. */
    method FileClose(fd: Fd) returns (refCount: int)
      requires Valid()
      modifies fdt
      ensures Valid()
      ensures fd == FD_INVALID ==> SameFiles(old(fdt[..]), fdt[..])
      ensures fd != FD_INVALID && old(fdt[fd]).Free? ==> fdt[..] == old(fdt[..]) && refCount == 0
      ensures fd != FD_INVALID && old(fdt[fd]).Used? ==>
        && refCount == RefCount(old(fdt[fd])) - 1
        && fdt[..] == old(fdt[..])[fd := Counted(old(fdt[fd]), refCount)]
    {
      if fdt[fd].Free? {
        return 0;
      }
      refCount := SpareRefCount(fdt[fd].spare) - 1;
      // A count below zero wraps around to one too large to store.
      var stored := if refCount >= 0 then SpareMake(SpareMode(fdt[fd].spare), refCount) else 0;
      fdt[fd] := Used(fdt[fd].path, stored);
      if refCount == 0 {
        fdt[fd] := Free;
      }
    }
  }
}
