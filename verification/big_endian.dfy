/** Bytes and the big-endian conversions the encoder takes from `bitstring`:
    `Bits(bytes).uintbe` and `Bits(uintbe=n, length=8*len).tobytes()`. */
module BigEndian {
  import opened Bits

  type byte = x: int | 0 <= x < 256

  /** The bytes read as one big-endian unsigned integer. */
  function FromBytes(s: seq<byte>): (n: nat)
    ensures n < Pow2(8 * |s|)
  {
    if |s| == 0 then 0
    else
      Pow2Add(8, 8 * (|s| - 1));
      assert Pow2(8) == 256;
      FromBytes(s[..|s| - 1]) * 256 + s[|s| - 1]
  }

  /** `n` written as `len` big-endian bytes; `bitstring` only accepts values
      that fit, so the model asks the same of its callers. */
  function ToBytes(n: nat, len: nat): (r: seq<byte>)
    requires n < Pow2(8 * len)
    ensures |r| == len
    ensures FromBytes(r) == n
  {
    if len == 0 then []
    else
      Pow2Add(8, 8 * (len - 1));
      assert Pow2(8) == 256;
      ToBytes(n / 256, len - 1) + [n % 256]
  }

  /** Dot `t` of a run of bytes, counted from the most significant bit of the
      first byte, as the printer reads a column: 1 means a printed dot. */
  function Dot(s: seq<byte>, t: nat): nat
    requires t < 8 * |s|
  {
    Bit(s[t / 8], 7 - t % 8)
  }

  /** Reading bytes back after writing them gives the same bytes. */
  lemma {:induction false} ToFromBytes(s: seq<byte>)
    ensures ToBytes(FromBytes(s), |s|) == s
    decreases |s|
  {
    if |s| > 0 {
      var init := s[..|s| - 1];
      var last := s[|s| - 1];
      assert s == init + [last];
      ToFromBytesStep(init, last);
      ToFromBytes(init);
    }
  }

  lemma ToFromBytesStep(init: seq<byte>, last: byte)
    ensures ToBytes(FromBytes(init + [last]), |init| + 1) == ToBytes(FromBytes(init), |init|) + [last]
  {
    var s := init + [last];
    assert s[..|s| - 1] == init;
    var n := FromBytes(s);
    assert n == FromBytes(init) * 256 + last;
    DivMod256(FromBytes(init), last);
    assert n / 256 == FromBytes(init) && n % 256 == last;
    assert ToBytes(n, |s|) == ToBytes(n / 256, |s| - 1) + [n % 256];
  }

  lemma DivMod256(x: nat, low: byte)
    ensures (x * 256 + low) / 256 == x && (x * 256 + low) % 256 == low
  {
  }

  /** Bit `p` of the big-endian integer is dot `8*|s| - 1 - p` of the bytes:
      the integer's most significant bit is the first dot. */
  lemma {:induction false} BitOfFromBytes(s: seq<byte>, p: nat)
    requires p < 8 * |s|
    ensures Bit(FromBytes(s), p) == Dot(s, 8 * |s| - 1 - p)
    decreases |s|
  {
    var init := s[..|s| - 1];
    var last := s[|s| - 1];
    assert Pow2(8) == 256;
    assert FromBytes(s) == last + Pow2(8) * FromBytes(init);
    BitOfPlaced(last, FromBytes(init), 8, p);
    if p >= 8 {
      BitOfFromBytes(init, p - 8);
    }
  }
}
