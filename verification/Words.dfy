/** Fixed-width values of the C sources, as ranges of the integers. */
module Words {
  type Byte = b: int | 0 <= b < 0x100
  type Word = w: int | 0 <= w < 0x1_0000

  /** The upper byte of a 16-bit value (`w >> 8`). */
  function Hi(w: Word): Byte {
    w / 256
  }

  /** The lower byte of a 16-bit value (`w & 0xFF`). */
  function Lo(w: Word): Byte {
    w % 256
  }

  /** The word `x` wraps around to. */
  function Wrap(x: int): (w: Word)
    ensures 0 <= x < 0x1_0000 ==> w == x
  {
    x % 0x1_0000
  }

  /** A value cut to one byte. */
  function LowByte(x: nat): (r: Byte)
    ensures x < 256 ==> r == x
  {
    x % 256
  }

  /** A big-endian pair of bytes read as one 16-bit value. */
  function Join(hi: Byte, lo: Byte): Word {
    hi * 256 + lo
  }

  /** Wrapping and cutting lose whole multiples of 65536 and of 256. */
  lemma CutsMean(x: int)
    ensures exists k: int :: Wrap(x) == x + 0x1_0000 * k
    ensures x >= 0 ==> exists k: int :: LowByte(x) == x + 0x100 * k
  {
    assert Wrap(x) == x + 0x1_0000 * (0 - x / 0x1_0000);
    if x >= 0 {
      assert LowByte(x) == x + 0x100 * (0 - x / 0x100);
    }
  }

  /** The bytes of a word, upper first, are its digits to base 256. */
  lemma BytesMean(w: Word, hi: Byte, lo: Byte)
    ensures 0x100 * Hi(w) + Lo(w) == w && Hi(Join(hi, lo)) == hi && Lo(Join(hi, lo)) == lo
  {
  }

  /** `s` with `data` laid over it from index `at`; what falls outside `s` is lost. */
  function Overlay<T>(s: seq<T>, at: nat, data: seq<T>): (r: seq<T>)
    ensures |r| == |s|
    ensures forall k :: 0 <= k < |s| ==> r[k] == if at <= k < at + |data| then data[k - at] else s[k]
  {
    seq(|s|, k requires 0 <= k < |s| => if at <= k < at + |data| then data[k - at] else s[k])
  }

  lemma OverlayUpdate<T>(s: seq<T>, at: nat, data: seq<T>, i: nat, x: T)
    requires at + |data| <= |s| && i < |data|
    ensures Overlay(s, at, data)[at + i := x] == Overlay(s, at, data[i := x])
  {
  }

  /** A slice that contains, or misses, what is laid over. */
  lemma SliceOverlay<T>(s: seq<T>, at: nat, data: seq<T>, lo: nat, hi: nat)
    requires lo <= hi <= |s|
    ensures lo <= at && at + |data| <= hi ==> Overlay(s, at, data)[lo..hi] == Overlay(s[lo..hi], at - lo, data)
    ensures hi <= at || at + |data| <= lo ==> Overlay(s, at, data)[lo..hi] == s[lo..hi]
  {
  }

  lemma SliceOfSlice<T>(s: seq<T>, lo: nat, hi: nat, a: nat, b: nat)
    requires a <= b && lo + b <= hi <= |s|
    ensures s[lo..hi][a..b] == s[lo + a..lo + b]
  {
    var u := s[lo..hi];
    forall k | 0 <= k < b - a
      ensures u[a..b][k] == s[lo + a..lo + b][k]
    {
      assert u[a + k] == s[lo + (a + k)];
    }
    assert u[a..b] == s[lo + a..lo + b];
  }

  /** Laying data over byte by byte. */
  lemma OverlayExtend<T>(s: seq<T>, at: nat, data: seq<T>, i: nat)
    requires i < |data|
    ensures Overlay(Overlay(s, at, data[..i]), at + i, [data[i]]) == Overlay(s, at, data[..i + 1])
  {
  }

  /** Writing two of three bytes is enough when the third is already in place. */
  lemma OverlayTwoOfThree<T>(s: seq<T>, at: nat, x: T, y: T, z: T)
    requires at + 2 < |s| && s[at + 2] == z
    ensures Overlay(Overlay(s, at, [x]), at + 1, [y]) == Overlay(s, at, [x, y, z])
  {
  }
}
