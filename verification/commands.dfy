/** The printer commands the column encoder yields, their bytes on the wire,
    and a decoder that reads a stream of them back. Each `Blob` is one value
    yielded by `_to_column_format`. */
module Commands {
  import opened Failures
  import opened Bits
  import opened BigEndian

  const ESC: byte := 27
  const CR: byte := 13
  const LF: byte := 10
  /** 'r': select the ribbon colour */
  const SelectOp: byte := 114
  /** '*': column-format graphics */
  const GraphicsOp: byte := 42
  /** '+': 24-pin line spacing in 1/360 inch, followed by a line feed */
  const Feed24Op: byte := 43
  /** '3': 9-pin line spacing in 1/216 inch, followed by a line feed */
  const Feed9Op: byte := 51

  type u16 = x: int | 0 <= x < 0x1_0000

  /** `mode & 32`. Python's `&` on a negative int acts on its two's
      complement, whose bit 5 is `floor(mode / 32) % 2`; Dafny's `/` rounds
      down for a positive divisor, so this holds for every int. */
  predicate WideMode(mode: int)
  {
    (mode / 32) % 2 == 1
  }

  /** Bytes per printed column: 3 for 24-dot graphics, 1 for 8-dot. */
  function GroupWidth(mode: int): (g: nat)
    ensures g == 1 || g == 3
  {
    if WideMode(mode) then 3 else 1
  }

  datatype Blob =
      /** `ESC 'r' <B channel>` */
    | Select(channel: byte)
      /** `ESC '*' <B mode> <H count>`, `count` little-endian */
    | Graphics(mode: byte, count: u16)
      /** one interleaved column group */
    | Column(bytes: seq<byte>)
      /** `\r` ending a graphics line */
    | Return
      /** `ESC <op> <B amount> \n` */
    | Feed(op: byte, amount: byte)

  function Bytes(b: Blob): seq<byte>
  {
    match b
    case Select(c) => [ESC, SelectOp, c]
    case Graphics(m, n) => [ESC, GraphicsOp, m, n % 256, n / 256]
    case Column(bs) => bs
    case Return => [CR]
    case Feed(op, n) => [ESC, op, n, LF]
  }

  /** The bytes a caller writes when it writes every yielded value in turn. */
  function Flatten(blobs: seq<Blob>): seq<byte>
  {
    if |blobs| == 0 then [] else Bytes(blobs[0]) + Flatten(blobs[1..])
  }

  lemma {:induction false} FlattenAppend(a: seq<Blob>, b: seq<Blob>)
    ensures Flatten(a + b) == Flatten(a) + Flatten(b)
    decreases |a|
  {
    if |a| == 0 {
      assert a + b == b;
    } else {
      assert (a + b)[0] == a[0];
      assert (a + b)[1..] == a[1..] + b;
      FlattenAppend(a[1..], b);
    }
  }

  /** A run of column groups of `g` bytes each, as they follow a graphics
      command. */
  predicate AreColumns(cols: seq<Blob>, g: nat)
  {
    forall t :: 0 <= t < |cols| ==> cols[t].Column? && |cols[t].bytes| == g
  }

  /** The stream grammar: a graphics command is followed by exactly `count`
      column groups of its mode's width and then `\r`; feeds use one of the two
      spacing commands. */
  predicate WellFramed(blobs: seq<Blob>)
    decreases |blobs|
  {
    if |blobs| == 0 then true
    else match blobs[0]
      case Select(_) => WellFramed(blobs[1..])
      case Feed(op, _) => (op == Feed24Op || op == Feed9Op) && WellFramed(blobs[1..])
      case Graphics(m, n) =>
        && |blobs| >= n + 2
        && AreColumns(blobs[1..n + 1], GroupWidth(m))
        && blobs[n + 1] == Return
        && WellFramed(blobs[n + 2..])
      case _ => false
  }

  lemma {:induction false} WellFramedAppend(a: seq<Blob>, b: seq<Blob>)
    requires WellFramed(a) && WellFramed(b)
    ensures WellFramed(a + b)
    decreases |a|
  {
    if |a| == 0 {
      assert a + b == b;
    } else {
      assert (a + b)[0] == a[0];
      match a[0]
      case Select(_) =>
        assert (a + b)[1..] == a[1..] + b;
        WellFramedAppend(a[1..], b);
      case Feed(_, _) =>
        assert (a + b)[1..] == a[1..] + b;
        WellFramedAppend(a[1..], b);
      case Graphics(m, n) =>
        assert (a + b)[1..n + 1] == a[1..n + 1];
        assert (a + b)[n + 1] == a[n + 1];
        assert (a + b)[n + 2..] == a[n + 2..] + b;
        WellFramedAppend(a[n + 2..], b);
    }
  }

  /** Cuts `n` column groups of `g` bytes off the front of a payload. */
  function SplitColumns(bs: seq<byte>, g: nat, n: nat): (cols: seq<Blob>)
    requires |bs| == n * g
    ensures |cols| == n && AreColumns(cols, g)
    decreases n
  {
    if n == 0 then []
    else
      assert |bs| == g + (n - 1) * g;
      [Column(bs[..g])] + SplitColumns(bs[g..], g, n - 1)
  }

  function Prepend(a: seq<Blob>, rest: Option<seq<Blob>>): Option<seq<Blob>>
  {
    match rest
    case None => None
    case Some(r) => Some(a + r)
  }

  /** One decoded command: the values it stands for and how many bytes it
      took. */
  datatype Decoded = Decoded(values: seq<Blob>, used: nat)

  /** Decodes the command at the front of `bs`; `None` when no command the
      encoder writes starts there. */
  function Unit(bs: seq<byte>): (r: Option<Decoded>)
    ensures r.Some? ==> 0 < r.value.used <= |bs|
  {
    if |bs| >= 3 && bs[0] == ESC && bs[1] == SelectOp then
      Some(Decoded([Select(bs[2])], 3))
    else if |bs| >= 5 && bs[0] == ESC && bs[1] == GraphicsOp then
      var n := bs[3] as int + 256 * bs[4] as int;
      var g := GroupWidth(bs[2]);
      var end := 5 + n * g;
      if end < |bs| && bs[end] == CR then
        Some(Decoded([Graphics(bs[2], n)] + SplitColumns(bs[5..end], g, n) + [Return], end + 1))
      else None
    else if |bs| >= 4 && bs[0] == ESC && (bs[1] == Feed24Op || bs[1] == Feed9Op) && bs[3] == LF then
      Some(Decoded([Feed(bs[1], bs[2])], 4))
    else None
  }

  /** Reads a command stream back into the values that produced it; `None`
      when the bytes are not such a stream. */
  function Parse(bs: seq<byte>): Option<seq<Blob>>
    decreases |bs|
  {
    if |bs| == 0 then Some([])
    else match Unit(bs)
      case None => None
      case Some(d) => Prepend(d.values, Parse(bs[d.used..]))
  }

  lemma {:induction false} SplitFlatten(cols: seq<Blob>, g: nat)
    requires AreColumns(cols, g)
    ensures |Flatten(cols)| == |cols| * g
    ensures SplitColumns(Flatten(cols), g, |cols|) == cols
    decreases |cols|
  {
    if |cols| > 0 {
      SplitFlatten(cols[1..], g);
      MulSucc(|cols| - 1, g);
      assert Flatten(cols) == cols[0].bytes + Flatten(cols[1..]);
      assert Flatten(cols)[..g] == cols[0].bytes;
      assert Flatten(cols)[g..] == Flatten(cols[1..]);
      assert cols == [Column(cols[0].bytes)] + cols[1..];
    }
  }

  /** The byte layout of a graphics command with its columns and `\r`. */
  lemma GraphicsLayout(head: Blob, cols: seq<Blob>, rest: seq<Blob>)
    requires head.Graphics?
    ensures Flatten([head] + cols + [Return] + rest)
      == [ESC, GraphicsOp, head.mode, head.count % 256, head.count / 256] + Flatten(cols) + [CR] + Flatten(rest)
  {
    FlattenAppend([head] + cols + [Return], rest);
    FlattenAppend([head] + cols, [Return]);
    FlattenAppend([head], cols);
  }

  /** Decoding proceeds one command at a time. */
  lemma ParseUnit(bs: seq<byte>, d: Decoded)
    requires |bs| > 0 && Unit(bs) == Some(d)
    ensures Parse(bs) == Prepend(d.values, Parse(bs[d.used..]))
  {
  }

  /** A graphics command, its columns and its `\r` decode as one unit. */
  lemma ParseGraphics(head: Blob, cols: seq<Blob>, rest: seq<Blob>)
    requires head.Graphics? && |cols| == head.count && AreColumns(cols, GroupWidth(head.mode))
    ensures Parse(Flatten([head] + cols + [Return] + rest)) == Prepend([head] + cols + [Return], Parse(Flatten(rest)))
  {
    var m, n := head.mode, head.count;
    var g := GroupWidth(m);
    var bs := Flatten([head] + cols + [Return] + rest);
    GraphicsLayout(head, cols, rest);
    SplitFlatten(cols, g);
    var used := UnitGraphics(bs, m, n, Flatten(cols), cols, Flatten(rest));
    ParseUnit(bs, Decoded([head] + cols + [Return], used));
  }

  /** The graphics branch of `Unit` on bytes laid out as a graphics command. */
  lemma UnitGraphics(bs: seq<byte>, m: byte, n: u16, payload: seq<byte>, cols: seq<Blob>, tail: seq<byte>)
      returns (used: nat)
    requires bs == [ESC, GraphicsOp, m, n % 256, n / 256] + payload + [CR] + tail
    requires |payload| == n * GroupWidth(m) && SplitColumns(payload, GroupWidth(m), n) == cols
    ensures used <= |bs| && bs[used..] == tail
    ensures Unit(bs) == Some(Decoded([Graphics(m, n)] + cols + [Return], used))
  {
    var g := GroupWidth(m);
    var end := 5 + n * g;
    assert bs[3] as int + 256 * bs[4] as int == n;
    assert bs[5..end] == payload;
    assert bs[end] == CR;
    used := end + 1;
    assert bs[used..] == tail;
  }

  /** Decoding the bytes of a well-framed stream gives back exactly the
      values that were yielded: the framing is unambiguous. */
  lemma {:induction false} ParseFlatten(blobs: seq<Blob>)
    requires WellFramed(blobs)
    ensures Parse(Flatten(blobs)) == Some(blobs)
    decreases |blobs|
  {
    if |blobs| > 0 {
      var k := ParseFirst(blobs);
      ParseFlatten(blobs[k..]);
      assert blobs[..k] + blobs[k..] == blobs;
    }
  }

  /** The first frame of a well-framed stream -- a select, a feed, or a
      graphics command with its columns and `\r` -- decodes as one unit and
      leaves a well-framed remainder. */
  lemma ParseFirst(blobs: seq<Blob>) returns (k: nat)
    requires WellFramed(blobs) && |blobs| > 0
    ensures 0 < k <= |blobs| && WellFramed(blobs[k..])
    ensures Parse(Flatten(blobs)) == Prepend(blobs[..k], Parse(Flatten(blobs[k..])))
  {
    match blobs[0]
    case Select(c) =>
      k := 1;
      assert blobs == [Select(c)] + blobs[1..];
      ParseSelect(c, blobs[1..]);
    case Feed(op, a) =>
      k := 1;
      assert blobs == [Feed(op, a)] + blobs[1..];
      ParseFeed(op, a, blobs[1..]);
    case Graphics(m, n) =>
      k := n + 2;
      var cols := blobs[1..n + 1];
      assert blobs[..k] == [blobs[0]] + cols + [Return];
      assert blobs == blobs[..k] + blobs[k..];
      ParseGraphics(blobs[0], cols, blobs[k..]);
  }

  /** A channel select decodes as one unit. */
  lemma ParseSelect(c: byte, rest: seq<Blob>)
    ensures Parse(Flatten([Select(c)] + rest)) == Prepend([Select(c)], Parse(Flatten(rest)))
  {
    var bs := Flatten([Select(c)] + rest);
    assert ([Select(c)] + rest)[1..] == rest;
    assert bs == [ESC, SelectOp, c] + Flatten(rest);
    assert bs[3..] == Flatten(rest);
    ParseUnit(bs, Decoded([Select(c)], 3));
  }

  /** A feed command decodes as one unit. */
  lemma ParseFeed(op: byte, a: byte, rest: seq<Blob>)
    requires op == Feed24Op || op == Feed9Op
    ensures Parse(Flatten([Feed(op, a)] + rest)) == Prepend([Feed(op, a)], Parse(Flatten(rest)))
  {
    var bs := Flatten([Feed(op, a)] + rest);
    assert ([Feed(op, a)] + rest)[1..] == rest;
    assert bs == [ESC, op, a, LF] + Flatten(rest);
    assert bs[4..] == Flatten(rest);
    ParseUnit(bs, Decoded([Feed(op, a)], 4));
  }
}
