/** The bit interleaver at the heart of the column encoder
    (columnFormat.py:106-114). One window of `line_height` slice bytes is read
    as a big-endian integer `sparse`; output bit `k` is sparse bit
    `overscan*k + overscan - 1`; the result is written back as `width` bytes. */
module Interleaver {
  import opened Bits
  import opened BigEndian

  /** The sparse bit that becomes output bit `k`. */
  function SourceBit(overscan: nat, k: nat): nat
    requires overscan >= 1
  {
    overscan * k + overscan - 1
  }

  /** The right shift `overscan*k - k + overscan - 1` applied to the masked
      bit. Its result type is `nat`: the shift is never negative, so Python's
      `>>` never raises here. */
  function ShiftAmount(overscan: nat, k: nat): (d: nat)
    requires overscan >= 1
    ensures d + k == SourceBit(overscan, k)
  {
    overscan * k - k + overscan - 1
  }

  /** One turn of the inner loop: `(1 << src) & sparse` shifted right by
      `ShiftAmount` is the selected bit placed at position `k`, and OR-ing it
      into an accumulator of `k` bits appends it as bit `k`. */
  lemma {:induction false} GatherStep(acc: nat, sparse: nat, overscan: nat, k: nat)
    requires overscan >= 1
    requires acc < Pow2(k)
    requires forall q :: 0 <= q < k ==> Bit(acc, q) == Bit(sparse, SourceBit(overscan, q))
    ensures var r := Or(acc, ShiftRight(And(ShiftLeft(1, SourceBit(overscan, k)), sparse), ShiftAmount(overscan, k)));
      && r < Pow2(k + 1)
      && forall q :: 0 <= q <= k ==> Bit(r, q) == Bit(sparse, SourceBit(overscan, q))
  {
    var src := SourceBit(overscan, k);
    var d := ShiftAmount(overscan, k);
    var b := Bit(sparse, src);
    BitIsBinary(sparse, src);
    AndSingleBit(src, sparse);
    var moved := ShiftRight(And(ShiftLeft(1, src), sparse), d);
    if b == 0 {
      ShiftRightZero(d);
      OrWithZero(acc);
      assert Or(acc, moved) == acc;
      forall q | 0 <= q <= k
        ensures Bit(acc, q) == Bit(sparse, SourceBit(overscan, q))
      {
        if q == k {
          BitAboveBound(acc, k, k);
        }
      }
    } else {
      ShiftRightPow2(k, d);
      OrAbove(acc, k);
      assert Or(acc, moved) == acc + Pow2(k);
      SetBitAbove(acc, k);
    }
  }

  /** Adding `2^k` to a number of `k` bits sets bit `k` and keeps the rest. */
  lemma SetBitAbove(acc: nat, k: nat)
    requires acc < Pow2(k)
    ensures acc + Pow2(k) < Pow2(k + 1)
    ensures Bit(acc + Pow2(k), k) == 1
    ensures forall q: nat :: q < k ==> Bit(acc + Pow2(k), q) == Bit(acc, q)
  {
    assert Pow2(k + 1) == 2 * Pow2(k);
    assert acc + Pow2(k) * 1 == acc + Pow2(k);
    BitOfPlaced(acc, 1, k, k);
    assert Bit(1, 0) == 1;
    forall q: nat | q < k
      ensures Bit(acc + Pow2(k), q) == Bit(acc, q)
    {
      BitOfPlaced(acc, 1, k, q);
    }
  }

  /** The inner `for k in range(width_bits)` loop of columnFormat.py:109-112
      after `count` turns: `byte |= ((1 << src) & sparse) >> shift`. */
  function Gather(sparse: nat, overscan: nat, count: nat): (r: nat)
    requires overscan >= 1
    ensures r < Pow2(count)
    ensures forall q :: 0 <= q < count ==> Bit(r, q) == Bit(sparse, SourceBit(overscan, q))
    decreases count
  {
    if count == 0 then 0
    else
      var k := count - 1;
      var acc := Gather(sparse, overscan, k);
      GatherStep(acc, sparse, overscan, k);
      Or(acc, ShiftRight(And(ShiftLeft(1, SourceBit(overscan, k)), sparse), ShiftAmount(overscan, k)))
  }

  /** One output group of `width` bytes (1 in 8-dot mode, 3 in 24-dot mode)
      from one window of slice bytes. */
  function Interleave(window: seq<byte>, overscan: nat, width: nat): (out: seq<byte>)
    requires overscan >= 1
    ensures |out| == width
  {
    ToBytes(Gather(FromBytes(window), overscan, 8 * width), width)
  }

  /** Bit `k` of an output group, counted from its least significant end, is
      bit `overscan * k + overscan - 1` of its window. */
  lemma InterleaveBits(window: seq<byte>, overscan: nat, width: nat)
    requires overscan >= 1
    ensures forall k :: 0 <= k < 8 * width ==>
      Bit(FromBytes(Interleave(window, overscan, width)), k) == Bit(FromBytes(window), SourceBit(overscan, k))
  {
    var g := Gather(FromBytes(window), overscan, 8 * width);
    assert FromBytes(ToBytes(g, width)) == g;
  }

  /** Without overscan the interleaver copies its window unchanged. */
  lemma {:induction false} InterleaveIdentity(window: seq<byte>)
    ensures Interleave(window, 1, |window|) == window
  {
    var n := 8 * |window|;
    var sparse := FromBytes(window);
    var r := Gather(sparse, 1, n);
    forall p | 0 <= p < n
      ensures Bit(r, p) == Bit(sparse, p)
    {
      assert SourceBit(1, p) == p;
    }
    BitsDetermine(r, sparse, n);
    ToFromBytes(window);
  }

  /** Every bit the interleaver reads lies inside its window of
      `overscan * width` bytes, and the last one read is the window's most
      significant bit, its first dot: nothing is read past the window. */
  lemma {:induction false} ReadsInsideWindow(window: seq<byte>, overscan: nat, width: nat)
    requires overscan >= 1 && |window| == overscan * width
    ensures forall k :: 0 <= k < 8 * width ==> SourceBit(overscan, k) < 8 * |window|
    ensures width > 0 ==> SourceBit(overscan, 8 * width - 1) == 8 * |window| - 1
  {
    forall k | 0 <= k < 8 * width
      ensures SourceBit(overscan, k) < 8 * |window|
    {
      SourceBitBound(overscan, width, k);
    }
    if width > 0 {
      SourceBitBound(overscan, width, 8 * width - 1);
    }
  }

  /** `overscan * k + overscan - 1 < 8 * overscan * width` for `k < 8 * width`,
      with equality to the last bit when `k` is the last output bit. */
  lemma SourceBitBound(overscan: nat, width: nat, k: nat)
    requires overscan >= 1 && k < 8 * width
    ensures SourceBit(overscan, k) < 8 * (overscan * width)
    ensures k == 8 * width - 1 ==> SourceBit(overscan, k) == 8 * (overscan * width) - 1
  {
    var j := 8 * width - 1 - k;
    assert overscan * (8 * width) == overscan * k + overscan + overscan * j;
    assert 8 * (overscan * width) == overscan * (8 * width);
  }

  /** The index arithmetic behind `InterleaveDots`: output bit
      `8*width - 1 - m` reads the window bit that is dot `overscan * m`. */
  lemma DotIndex(overscan: nat, width: nat, m: nat)
    requires overscan >= 1 && m < 8 * width
    ensures 8 * (overscan * width) - 1 - SourceBit(overscan, 8 * width - 1 - m) == overscan * m
  {
    var k := 8 * width - 1 - m;
    assert overscan * (k + 1) + overscan * m == overscan * (k + 1 + m);
    assert 8 * (overscan * width) == overscan * (8 * width);
  }

  /** Dot `m` of a group whose bit `8*width - 1 - m` copies the window's
      source bit is dot `overscan * m` of the window. */
  lemma DotFromSourceBit(out: seq<byte>, window: seq<byte>, overscan: nat, width: nat, m: nat)
    requires overscan >= 1 && |window| == overscan * width && |out| == width && m < 8 * width
    requires Bit(FromBytes(out), 8 * width - 1 - m) == Bit(FromBytes(window), SourceBit(overscan, 8 * width - 1 - m))
    ensures overscan * m < 8 * |window|
    ensures Dot(out, m) == Dot(window, overscan * m)
  {
    var k := 8 * width - 1 - m;
    var src := SourceBit(overscan, k);
    SourceBitBound(overscan, width, k);
    assert 8 * |window| - 1 - src == overscan * m by {
      DotIndex(overscan, width, m);
    }
    assert Bit(FromBytes(out), k) == Dot(out, m) by {
      BitOfFromBytes(out, k);
    }
    assert Bit(FromBytes(window), src) == Dot(window, overscan * m) by {
      BitOfFromBytes(window, src);
    }
  }

  /** In printer terms: dot `m` of the output group (most significant bit of
      the first byte first) is dot `overscan * m` of the window, so one pass
      prints every `overscan`-th dot of its slice row starting with the first. */
  lemma {:induction false} InterleaveDots(window: seq<byte>, overscan: nat, width: nat, m: nat)
    requires overscan >= 1 && |window| == overscan * width && m < 8 * width
    ensures overscan * m < 8 * |window| && m < 8 * width
    ensures Dot(window, overscan * m) == Dot(Interleave(window, overscan, width), m)
  {
    var out := Interleave(window, overscan, width);
    var k := 8 * width - 1 - m;
    InterleaveBits(window, overscan, width);
    assert Bit(FromBytes(out), k) == Bit(FromBytes(window), SourceBit(overscan, k));
    DotFromSourceBit(out, window, overscan, width, m);
  }
}
