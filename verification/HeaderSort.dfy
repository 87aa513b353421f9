/** The order of the header slots, and why sorting them can give only one result. */
module HeaderSort {
  import opened Words

  /** Zero (an empty slot) sorts after every block offset. */
  function Key(b: Byte): nat {
    if b == 0 then 256 else b
  }

  /** Slots `from..to` ascend. */
  predicate SortedRange(h: seq<Byte>, from: nat, to: nat)
    requires to <= |h|
  {
    forall i, j :: from <= i < j < to ==> Key(h[i]) <= Key(h[j])
  }

  predicate Sorted(h: seq<Byte>) {
    SortedRange(h, 0, |h|)
  }

  /** Slots from `max` on ascend and none of them is below a slot before it. */
  predicate TailPlaced(h: seq<Byte>, max: nat) {
    forall i, j :: 0 <= i < j < |h| && max <= j ==> Key(h[i]) <= Key(h[j])
  }

  /** The last of the first `n` slots is the greatest of them. */
  predicate LastIsGreatest(h: seq<Byte>, n: nat)
    requires 1 <= n <= |h|
  {
    forall i :: 0 <= i < n ==> Key(h[i]) <= Key(h[n - 1])
  }

  /** `h` with slots `i - 1` and `i` exchanged. */
  function Swapped(h: seq<Byte>, i: nat): (r: seq<Byte>)
    requires 1 <= i < |h|
    ensures |r| == |h|
  {
    h[i - 1 := h[i]][i := h[i - 1]]
  }

  lemma SwapStep(h: seq<Byte>, i: nat, max: nat)
    requires 1 <= i < max <= |h|
    requires TailPlaced(h, max) && LastIsGreatest(h, i) && Key(h[i]) < Key(h[i - 1])
    ensures TailPlaced(Swapped(h, i), max) && LastIsGreatest(Swapped(h, i), i + 1)
    ensures multiset(Swapped(h, i)) == multiset(h)
  {
  }

  lemma PassStarts(h: seq<Byte>)
    requires h != []
    ensures LastIsGreatest(h, 1) && SortedRange(h, 0, 1)
  {
  }

  lemma KeepStep(h: seq<Byte>, i: nat)
    requires 1 <= i < |h|
    requires LastIsGreatest(h, i) && Key(h[i - 1]) <= Key(h[i])
    ensures LastIsGreatest(h, i + 1)
    ensures SortedRange(h, 0, i) ==> SortedRange(h, 0, i + 1)
  {
  }

  /** After a whole pass one more slot is in its final place. */
  lemma PassEnds(h: seq<Byte>, max: nat)
    requires 1 <= max <= |h|
    requires TailPlaced(h, max) && LastIsGreatest(h, max)
    ensures TailPlaced(h, max - 1)
    ensures SortedRange(h, 0, max) ==> Sorted(h)
  {
  }

  /** The least slot is the first of a sorted header. */
  lemma FirstIsLeast(a: seq<Byte>, x: Byte)
    requires Sorted(a) && x in multiset(a)
    ensures a != [] && Key(a[0]) <= Key(x)
  {
  }

  lemma TailMultiset(a: seq<Byte>)
    requires a != []
    ensures a[0] in multiset(a) && multiset(a[1..]) == multiset(a) - multiset{a[0]}
  {
    assert a == [a[0]] + a[1..];
  }

  /** Two sorted headers with the same slots are the same header. */
  lemma {:induction false} SortedUnique(a: seq<Byte>, b: seq<Byte>)
    requires Sorted(a) && Sorted(b)
    requires multiset(a) == multiset(b)
    ensures a == b
    decreases |a|
  {
    assert |a| == |multiset(a)| == |multiset(b)| == |b|;
    if a != [] {
      TailMultiset(a);
      TailMultiset(b);
      FirstIsLeast(b, a[0]);
      FirstIsLeast(a, b[0]);
      assert a[0] == b[0];
      SortedUnique(a[1..], b[1..]);
    }
  }
}
