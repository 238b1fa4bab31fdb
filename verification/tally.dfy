/** What a stretch of the encoder's output amounts to, computed value by
    value: the channels it selects, the spacings it feeds, its byte count and
    whether its graphics headers agree; and the arithmetic of what the loops
    still have to yield. */
module Tallies {
  import opened Bits
  import opened BigEndian
  import opened Commands

  /** Every graphics command carries this mode and this count of rows. */
  predicate HeadersAre(blobs: seq<Blob>, mode: int, height: nat)
  {
    forall t :: 0 <= t < |blobs| && blobs[t].Graphics? ==> blobs[t].mode == mode && blobs[t].count == height
  }

  /** `s` written `n` times. */
  function Repeat<T>(s: seq<T>, n: int): seq<T>
    decreases n
  {
    if n <= 0 then [] else s + Repeat(s, n - 1)
  }

  /** `s` written `o` times, `b` times over, is `s` written `b * o` times. */
  lemma {:induction false} RepeatRepeat<T>(s: seq<T>, o: nat, b: nat)
    ensures Repeat(Repeat(s, o), b) == Repeat(s, b * o)
    decreases b
  {
    if b > 0 {
      RepeatRepeat(s, o, b - 1);
      RepeatAfter(s, o, b - 1);
    }
  }

  lemma {:induction false} RepeatAppend<T>(s: seq<T>, a: nat, b: nat)
    ensures Repeat(s, a) + Repeat(s, b) == Repeat(s, a + b)
    decreases a
  {
    if a > 0 {
      RepeatAppend(s, a - 1, b);
    }
  }

  /** `s` written `o` times and then `more * o` times is `s` written
      `(more + 1) * o` times. */
  lemma RepeatAfter<T>(s: seq<T>, o: nat, more: nat)
    ensures Repeat(s, o) + Repeat(s, more * o) == Repeat(s, (more + 1) * o)
  {
    MulSucc(more, o);
    RepeatAppend(s, o, more * o);
  }

  /** What a stretch of output amounts to: the channel bytes of its
      `ESC 'r'` commands in order, the spacings of its feed commands in
      order, its byte count, and whether every graphics command in it is for
      `height` rows in `mode`. */
  datatype Tally = Tally(selected: seq<byte>, feeds: seq<int>, size: int, headers: bool)

  const Nothing := Tally([], [], 0, true)

  function Plus(x: Tally, y: Tally): Tally
  {
    Tally(x.selected + y.selected, x.feeds + y.feeds, x.size + y.size, x.headers && y.headers)
  }

  lemma PlusAssociates(x: Tally, y: Tally, z: Tally)
    ensures Plus(x, Plus(y, z)) == Plus(Plus(x, y), z)
  {
    assert x.selected + (y.selected + z.selected) == (x.selected + y.selected) + z.selected;
    assert x.feeds + (y.feeds + z.feeds) == (x.feeds + y.feeds) + z.feeds;
  }

  /** The tally of a single yielded value. */
  function Single(blob: Blob, mode: int, height: nat): Tally
  {
    Tally(if blob.Select? then [blob.channel] else [],
          if blob.Feed? then [blob.amount as int] else [],
          |Bytes(blob)|,
          !blob.Graphics? || (blob.mode == mode && blob.count == height))
  }

  function Count(blobs: seq<Blob>, mode: int, height: nat): Tally
  {
    if |blobs| == 0 then Nothing else Plus(Single(blobs[0], mode, height), Count(blobs[1..], mode, height))
  }

  /** The tally's byte count is the length of the written stream, and its
      header flag says every graphics command has this mode and row count. */
  lemma {:induction false} CountMeans(blobs: seq<Blob>, mode: int, height: nat)
    ensures Count(blobs, mode, height).size == |Flatten(blobs)|
    ensures Count(blobs, mode, height).headers <==> HeadersAre(blobs, mode, height)
    decreases |blobs|
  {
    if |blobs| > 0 {
      CountMeans(blobs[1..], mode, height);
      if HeadersAre(blobs[1..], mode, height) && Single(blobs[0], mode, height).headers {
        forall t | 0 <= t < |blobs| && blobs[t].Graphics?
          ensures blobs[t].mode == mode && blobs[t].count == height
        {
          if t > 0 {
            assert blobs[t] == blobs[1..][t - 1];
          }
        }
      } else if !Single(blobs[0], mode, height).headers {
        assert !(blobs[0].mode == mode && blobs[0].count == height);
      } else {
        var t :| 0 <= t < |blobs[1..]| && blobs[1..][t].Graphics? && !(blobs[1..][t].mode == mode && blobs[1..][t].count == height);
        assert blobs[1..][t] == blobs[t + 1];
      }
    }
  }

  /** Counting is additive over concatenation. */
  lemma {:induction false} CountAppend(a: seq<Blob>, b: seq<Blob>, mode: int, height: nat)
    ensures Count(a + b, mode, height) == Plus(Count(a, mode, height), Count(b, mode, height))
    decreases |a|
  {
    if |a| == 0 {
      assert a + b == b;
    } else {
      assert (a + b)[0] == a[0];
      assert (a + b)[1..] == a[1..] + b;
      CountAppend(a[1..], b, mode, height);
      PlusAssociates(Single(a[0], mode, height), Count(a[1..], mode, height), Count(b, mode, height));
    }
  }

  /** Column groups of width `g` select nothing, feed nothing and hold `g`
      bytes each. */
  lemma {:induction false} ColumnsCount(cols: seq<Blob>, g: nat, mode: int, height: nat)
    requires AreColumns(cols, g)
    ensures Count(cols, mode, height) == Tally([], [], Times(|cols|, g), true)
    decreases |cols|
  {
    if |cols| > 0 {
      assert AreColumns(cols[1..], g) by {
        forall t | 0 <= t < |cols[1..]| ensures cols[1..][t] == cols[t + 1] {}
      }
      ColumnsCount(cols[1..], g, mode, height);
      assert Single(cols[0], mode, height) == Tally([], [], g, true);
    }
  }

  /** Two stretches of output, one after the other. */
  lemma CountJoin(whole: seq<Blob>, a: seq<Blob>, b: seq<Blob>, mode: int, height: nat, x: Tally, y: Tally)
    requires whole == a + b && Count(a, mode, height) == x && Count(b, mode, height) == y
    ensures Count(whole, mode, height) == Plus(x, y)
  {
    CountAppend(a, b, mode, height);
  }

  lemma PlusNothing(x: Tally)
    ensures Plus(Nothing, x) == x && Plus(x, Nothing) == x
  {
    assert [] + x.selected == x.selected && x.selected + [] == x.selected;
    assert [] + x.feeds == x.feeds && x.feeds + [] == x.feeds;
  }

  /** What the loops still yield from the spacing of pass `p` of the current
      block on, when `blocks` more blocks follow it: the channels of the
      remaining passes and blocks, the spacings from pass `p` on and those
      of the remaining blocks, and the bytes of all of it; a pass is `pb`
      bytes and `feeds` holds one spacing per pass. */
  function Later(channels: seq<byte>, feeds: seq<int>, p: nat, blocks: nat, pb: int): Tally
    requires p < |feeds|
  {
    Tally(Repeat(channels, |feeds| - 1 - p) + Repeat(Repeat(channels, |feeds|), blocks),
          feeds[p..] + Repeat(feeds, blocks),
          4 + Times(|feeds| - 1 - p, pb) + Times(blocks, Times(|feeds|, pb)),
          true)
  }

  /** What the loops still yield from channel `n` of pass `p` on: that
      pass's segments from `n`, of `sb` bytes each, then `Later`. */
  function Ahead(channels: seq<byte>, feeds: seq<int>, n: nat, p: nat, blocks: nat, sb: int, pb: int): Tally
    requires n <= |channels| && p < |feeds|
  {
    Plus(Tally(channels[n..], [], Times(|channels| - n, sb), true), Later(channels, feeds, p, blocks, pb))
  }

  /** The channel segments of a pass from channel `n` on. */
  lemma ChannelsFrom(channels: seq<byte>, n: nat, sb: int)
    requires n < |channels|
    ensures Plus(Tally([channels[n]], [], sb, true), Tally(channels[n + 1..], [], Times(|channels| - (n + 1), sb), true))
         == Tally(channels[n..], [], Times(|channels| - n, sb), true)
  {
    var rest := Times(|channels| - (n + 1), sb);
    var none: seq<int> := [];
    assert Plus(Tally([channels[n]], [], sb, true), Tally(channels[n + 1..], [], rest, true))
        == Tally([channels[n]] + channels[n + 1..], none + none, sb + rest, true);
    assert [channels[n]] + channels[n + 1..] == channels[n..];
    assert none + none == none;
    assert sb + rest == Times(|channels| - n, sb);
  }

  /** Channel `n`'s segment comes first. */
  lemma AheadChannel(channels: seq<byte>, feeds: seq<int>, n: nat, p: nat, blocks: nat, sb: int, pb: int)
    requires n < |channels| && p < |feeds|
    ensures Ahead(channels, feeds, n, p, blocks, sb, pb)
         == Plus(Tally([channels[n]], [], sb, true), Ahead(channels, feeds, n + 1, p, blocks, sb, pb))
  {
    var single := Tally([channels[n]], [], sb, true);
    var from := Tally(channels[n + 1..], [], Times(|channels| - (n + 1), sb), true);
    ChannelsFrom(channels, n, sb);
    PlusAssociates(single, from, Later(channels, feeds, p, blocks, pb));
  }

  /** After the last channel comes the spacing of pass `p`, then the next
      pass from its first channel. */
  lemma AheadPass(channels: seq<byte>, feeds: seq<int>, p: nat, blocks: nat, sb: int, pb: int)
    requires p + 1 < |feeds| && pb == Times(|channels|, sb) + 4
    ensures Ahead(channels, feeds, |channels|, p, blocks, sb, pb)
         == Plus(Tally([], [feeds[p]], 4, true), Ahead(channels, feeds, 0, p + 1, blocks, sb, pb))
  {
    var none: seq<byte> := [];
    assert channels[|channels|..] == none;
    PlusNothing(Later(channels, feeds, p, blocks, pb));
    assert channels[0..] == channels;
    LaterPass(channels, feeds, p, blocks, Times(|channels|, sb), pb);
  }

  /** The spacing of pass `p` and then a whole pass of `cb` bytes of
      channel segments. */
  lemma LaterPass(channels: seq<byte>, feeds: seq<int>, p: nat, blocks: nat, cb: int, pb: int)
    requires p + 1 < |feeds| && pb == cb + 4
    ensures Later(channels, feeds, p, blocks, pb)
         == Plus(Tally([], [feeds[p]], 4, true),
                 Plus(Tally(channels, [], cb, true), Later(channels, feeds, p + 1, blocks, pb)))
  {
    var o := |feeds|;
    var m := Repeat(Repeat(channels, o), blocks);
    var f := Repeat(feeds, blocks);
    var b := Times(blocks, Times(o, pb));
    var r := Repeat(channels, o - 1 - (p + 1));
    var t := Times(o - 1 - (p + 1), pb);
    var none: seq<int> := [];
    var next := Later(channels, feeds, p + 1, blocks, pb);
    assert next == Tally(r + m, feeds[p + 1..] + f, 4 + t + b, true);
    assert Repeat(channels, o - 1 - p) == channels + r;
    assert feeds[p..] == [feeds[p]] + feeds[p + 1..];
    assert Times(o - 1 - p, pb) == pb + t;
    assert Later(channels, feeds, p, blocks, pb) == Tally((channels + r) + m, ([feeds[p]] + feeds[p + 1..]) + f, 4 + (pb + t) + b, true);
    assert (channels + r) + m == [] + (channels + (r + m));
    assert ([feeds[p]] + feeds[p + 1..]) + f == [feeds[p]] + (none + (feeds[p + 1..] + f));
  }

  /** From the first channel of the first pass, `blocks + 1` whole blocks. */
  lemma AheadWhole(channels: seq<byte>, feeds: seq<int>, blocks: nat, sb: int, pb: int)
    requires 0 < |feeds| && pb == Times(|channels|, sb) + 4
    ensures Ahead(channels, feeds, 0, 0, blocks, sb, pb)
         == Tally(Repeat(Repeat(channels, |feeds|), blocks + 1), Repeat(feeds, blocks + 1),
                  Times(blocks + 1, Times(|feeds|, pb)), true)
  {
    var o := |feeds|;
    var m := Repeat(Repeat(channels, o), blocks);
    var none: seq<int> := [];
    assert channels[0..] == channels;
    assert feeds[0..] == feeds;
    assert Repeat(channels, o) == channels + Repeat(channels, o - 1);
    assert channels + (Repeat(channels, o - 1) + m) == Repeat(channels, o) + m;
    assert none + (feeds + Repeat(feeds, blocks)) == Repeat(feeds, blocks + 1);
    assert Times(o, pb) == pb + Times(o - 1, pb);
  }

  /** After the last pass's spacing the next block starts, if there is one. */
  lemma AheadBlock(channels: seq<byte>, feeds: seq<int>, blocks: nat, sb: int, pb: int)
    requires 0 < |feeds| && pb == Times(|channels|, sb) + 4
    ensures Ahead(channels, feeds, |channels|, |feeds| - 1, blocks, sb, pb)
         == Plus(Tally([], [feeds[|feeds| - 1]], 4, true),
                 if blocks == 0 then Nothing else Ahead(channels, feeds, 0, 0, blocks - 1, sb, pb))
  {
    var o := |feeds|;
    var none: seq<byte> := [];
    assert channels[|channels|..] == none;
    PlusNothing(Later(channels, feeds, o - 1, blocks, pb));
    assert feeds[o - 1..] == [feeds[o - 1]];
    if blocks > 0 {
      AheadWhole(channels, feeds, blocks - 1, sb, pb);
      assert Repeat(feeds, blocks) == Repeat(feeds, blocks - 1 + 1);
    } else {
      PlusNothing(Tally([], [feeds[o - 1]], 4, true));
    }
  }
}
