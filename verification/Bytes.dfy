/** Bytes, little-endian words, and the 4 KiB frames that hold them. */
module Bytes {

  type Byte = b: int | 0 <= b < 256

  const PAGE_SIZE: nat := 4096
  const WORD_SIZE: nat := 8
  const WORDS_PER_PAGE: nat := 512
  const WORD_LIMIT: nat := 0x1_0000_0000_0000_0000

  function Zeros(n: nat): (s: seq<Byte>)
    ensures |s| == n && forall k :: 0 <= k < n ==> s[k] == 0
  {
    seq(n, i => 0)
  }

  type Frame = f: seq<Byte> | |f| == PAGE_SIZE witness Zeros(PAGE_SIZE)

  function ZeroFrame(): Frame {
    Zeros(PAGE_SIZE)
  }

  /** The bytes of `f` with `data` written over them from position `at` on. */
  function Splice(f: seq<Byte>, at: nat, data: seq<Byte>): (r: seq<Byte>)
    requires at + |data| <= |f|
    ensures |r| == |f|
    ensures forall k :: 0 <= k < |f| ==> r[k] == if at <= k < at + |data| then data[k - at] else f[k]
  {
    f[..at] + data + f[at + |data|..]
  }

  function Pow256(n: nat): (r: nat)
    ensures r > 0
  {
    if n == 0 then 1 else 256 * Pow256(n - 1)
  }

  /** The number a little-endian byte string denotes. */
  function LeValue(s: seq<Byte>): (v: nat)
    ensures v < Pow256(|s|)
  {
    if s == [] then 0 else s[0] + 256 * LeValue(s[1..])
  }

  /** The `n`-byte little-endian string of `v`. */
  function LeBytes(v: nat, n: nat): (s: seq<Byte>)
    ensures |s| == n
  {
    if n == 0 then [] else [v % 256] + LeBytes(v / 256, n - 1)
  }

  lemma {:induction false} LeRoundTrip(v: nat, n: nat)
    requires v < Pow256(n)
    ensures LeValue(LeBytes(v, n)) == v
  {
    if n != 0 {
      LeRoundTrip(v / 256, n - 1);
      assert LeBytes(v, n)[1..] == LeBytes(v / 256, n - 1);
    }
  }

  lemma {:induction false} LeInverse(s: seq<Byte>)
    ensures LeBytes(LeValue(s), |s|) == s
  {
    if s != [] {
      LeInverse(s[1..]);
      assert LeValue(s) / 256 == LeValue(s[1..]) && LeValue(s) % 256 == s[0];
    }
  }

  lemma {:induction false} LeZero(n: nat)
    ensures LeValue(Zeros(n)) == 0
  {
    if n != 0 {
      LeZero(n - 1);
      assert Zeros(n)[1..] == Zeros(n - 1);
    }
  }

  lemma WordPower()
    ensures Pow256(8) == WORD_LIMIT
  {
    assert Pow256(2) == 65536;
    assert Pow256(4) == 256 * (256 * Pow256(2));
    assert Pow256(6) == 256 * (256 * Pow256(4));
    assert Pow256(8) == 256 * (256 * Pow256(6));
  }

  /** The `i`-th 64-bit word of a frame. */
  function Word(f: Frame, i: nat): (w: nat)
    requires i < WORDS_PER_PAGE
    ensures w < WORD_LIMIT
  {
    WordPower();
    LeValue(f[WORD_SIZE * i..WORD_SIZE * i + WORD_SIZE])
  }

  function WithWord(f: Frame, i: nat, w: nat): (r: Frame)
    requires i < WORDS_PER_PAGE
  {
    Splice(f, WORD_SIZE * i, LeBytes(w, WORD_SIZE))
  }

  /** A word store is read back, and leaves every other word alone. */
  lemma WordOfWithWord(f: Frame, i: nat, w: nat, j: nat)
    requires i < WORDS_PER_PAGE && j < WORDS_PER_PAGE && w < WORD_LIMIT
    ensures Word(WithWord(f, i, w), j) == if i == j then w else Word(f, j)
  {
    var g := WithWord(f, i, w);
    if i == j {
      WordPower();
      LeRoundTrip(w, WORD_SIZE);
      assert g[8 * i..8 * i + 8] == LeBytes(w, WORD_SIZE);
    } else {
      assert g[8 * j..8 * j + 8] == f[8 * j..8 * j + 8];
    }
  }

  /** A cleared frame holds only zero words. */
  lemma WordOfZeroFrame(j: nat)
    requires j < WORDS_PER_PAGE
    ensures Word(ZeroFrame(), j) == 0
  {
    LeZero(WORD_SIZE);
    assert ZeroFrame()[8 * j..8 * j + 8] == Zeros(8);
  }
}
