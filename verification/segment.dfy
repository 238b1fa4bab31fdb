/** What one channel segment writes (columnFormat.py:94-118): its header
    bytes, one interleaved group per slice row, and a payload that is the
    slice itself when there is no overscan. */
module SegmentProperties {
  import opened Bits
  import opened BigEndian
  import opened Interleaver
  import opened Commands
  import opened ColumnFormat

  /** The first eight bytes of a completed segment are `ESC 'r'` and the
      channel, then `ESC '*'`, the mode byte and the row count as a
      little-endian u16, which is `len(data) // line_height`. */
  lemma SegmentHeader(channel: byte, data: seq<byte>, overscan: nat, mode: int, height: nat)
    requires overscan >= 1 && Segment(channel, data, overscan, mode, height).outcome.Finished?
    ensures 0 <= mode < 256 && height < 0x1_0000
    ensures height == |data| / LineHeight(overscan, mode)
    ensures Flatten(Segment(channel, data, overscan, mode, height).blobs[..2])
         == [ESC, SelectOp, channel, ESC, GraphicsOp, mode, height % 256, height / 256]
  {
    var b := Segment(channel, data, overscan, mode, height).blobs;
    var lh := LineHeight(overscan, mode);
    TimesIsProduct(height, lh);
    SliceAssertions(|data|, height, lh);
    var head := b[..2];
    assert head == [Select(channel), Graphics(mode, height)];
    assert head[1..] == [Graphics(mode, height)];
    assert head[1..][1..] == [];
    assert Flatten(head[1..]) == Bytes(Graphics(mode, height));
    assert Flatten(head) == Bytes(Select(channel)) + Bytes(Graphics(mode, height));
  }

  /** Row `y` of the slice, `data[y*line_height : (y+1)*line_height]`,
      becomes the `y`-th column group, and the groups together hold
      `len(data) // overscan` bytes, as the assertion on `ai` says. */
  lemma SegmentGroups(channel: byte, data: seq<byte>, overscan: nat, mode: int, height: nat)
    requires overscan >= 1 && Segment(channel, data, overscan, mode, height).outcome.Finished?
    ensures |data| == Times(height, LineHeight(overscan, mode))
    ensures forall y :: 0 <= y < height ==>
      Segment(channel, data, overscan, mode, height).blobs[y + 2]
      == Column(Interleave(RowBytes(data, LineHeight(overscan, mode), height, y), overscan, GroupWidth(mode)))
    ensures height * GroupWidth(mode) == |data| / overscan
  {
    GroupBytes(height, overscan, mode);
  }

  /** A slice of `height` rows of `line_height` bytes, divided by the
      overscan, is `height` groups of the mode's width. */
  lemma GroupBytes(height: nat, overscan: nat, mode: int)
    requires overscan >= 1
    ensures Times(height, LineHeight(overscan, mode)) / overscan == height * GroupWidth(mode)
  {
    var lh := LineHeight(overscan, mode);
    var g := GroupWidth(mode);
    TimesIsProduct(height, lh);
    assert height * lh == (height * g) * overscan;
    DivCancel(height * g, overscan);
  }

  /** Without overscan a completed segment's payload is its slice, byte for
      byte. */
  lemma SegmentPayloadIdentity(channel: byte, data: seq<byte>, mode: int, height: nat)
    requires Segment(channel, data, 1, mode, height).outcome.Finished?
    ensures Flatten(Segment(channel, data, 1, mode, height).blobs[2..height + 2]) == data
  {
    var b := Segment(channel, data, 1, mode, height).blobs;
    var lh := LineHeight(1, mode);
    var cols := b[2..height + 2];
    SegmentGroups(channel, data, 1, mode, height);
    forall y | 0 <= y < height
      ensures cols[y] == Column(RowBytes(data, lh, height, y))
    {
      InterleaveIdentity(RowBytes(data, lh, height, y));
      assert cols[y] == b[y + 2];
    }
    FlattenRows(data, lh, cols);
  }

  /** Groups that are consecutive rows of `data` write `data`. */
  lemma {:induction false} FlattenRows(data: seq<byte>, lh: nat, cols: seq<Blob>)
    requires |data| == Times(|cols|, lh)
    requires forall y :: 0 <= y < |cols| ==> cols[y] == Column(RowBytes(data, lh, |cols|, y))
    ensures Flatten(cols) == data
    decreases |cols|
  {
    var n := |cols|;
    if n > 0 {
      TimesRest(n, lh);
      var rest := data[lh..];
      forall y | 0 <= y < n - 1
        ensures |rest| == Times(n - 1, lh) && cols[1..][y] == Column(RowBytes(rest, lh, n - 1, y))
      {
        RowShift(data, lh, n, y);
      }
      FlattenRows(rest, lh, cols[1..]);
      assert RowBytes(data, lh, n, 0) == data[..lh];
      assert data == data[..lh] + rest;
    }
  }

  /** Row `y + 1` of `data` is row `y` of what follows its first row. */
  lemma RowShift(data: seq<byte>, lh: nat, n: nat, y: nat)
    requires y + 1 < n && |data| == Times(n, lh)
    ensures lh <= |data| && |data[lh..]| == Times(n - 1, lh)
    ensures RowBytes(data[lh..], lh, n - 1, y) == RowBytes(data, lh, n, y + 1)
  {
    TimesRest(n, lh);
    RowInside(lh, n, y + 1);
    RowInside(lh, n - 1, y);
    var start := y * lh;
    assert (y + 1) * lh == start + lh;
    assert data[lh..][start..start + lh] == data[lh + start..lh + start + lh];
  }

  /** `n` rows of `lh` bytes are a first row and `n - 1` more. */
  lemma TimesRest(n: nat, lh: nat)
    requires n > 0
    ensures Times(n, lh) == lh + Times(n - 1, lh) && Times(n - 1, lh) >= 0
  {
    TimesIsProduct(n - 1, lh);
  }
}
