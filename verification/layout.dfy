/** What a complete run of `_to_column_format` yields, written out by block
    index, pass and channel position rather than by the loops' cursor: block
    `b` starts at column `b * line_height * 8`, pass `i` of it slices every
    channel's plane from column `b * line_height * 8 + i`, and each pass is
    its channel segments in `colours` order followed by its line feed. */
module Layout {
  import opened Failures
  import opened Bits
  import opened BigEndian
  import opened Commands
  import opened Printers
  import opened Separation
  import opened ColumnFormat
  import opened EncoderProperties

  /** `ceil(width / step)`: how many times the `while left < width_pixels`
      loop turns when `left` advances by `step`. */
  function Blocks(width: nat, step: nat): nat
    requires step > 0
  {
    (width + step - 1) / step
  }

  /** The block loop's turns, counted, are the ceiling. */
  lemma BlockCountFromZero(width: nat, step: nat)
    requires step > 0
    ensures BlockCount(width, step, 0) == Blocks(width, step)
  {
    BlockCountIsCeiling(width, step, 0);
    if width == 0 {
      DivUnique(step - 1, step, 0);
    }
  }

  /** What a print is made from: the channels in order, the plane each one
      prints (`planes[n]` for `channels[n]`), the slicer and the numbers of
      the call. */
  datatype Plan = Plan(channels: seq<byte>, planes: seq<Plane>, slicer: Slicer,
                       overscan: nat, mode: int, printer: string, width: nat, height: nat)

  predicate WellPlanned(p: Plan)
  {
    && p.overscan >= 1 && |p.planes| == |p.channels|
    && KnownPrinter(p.printer) && p.overscan <= BlockFeed(p.printer) + 1
  }

  /** Pixel columns per block: `line_height * 8`. */
  function Stride(p: Plan): nat
  {
    LineHeight(p.overscan, p.mode) * 8
  }

  /** The segment of `channels[n]` in pass `i` of block `b`: its plane sliced
      from column `b * stride + i`, `stride` columns wide. The product is
      written `Times(b, stride)` (`TimesIsProduct`). */
  function SegmentAt(p: Plan, b: nat, i: nat, n: nat): seq<Blob>
    requires WellPlanned(p) && n < |p.channels|
  {
    Segment(p.channels[n], p.slicer(p.planes[n], Times(b, Stride(p)) + i, Stride(p), p.height),
            p.overscan, p.mode, p.height).blobs
  }

  /** The spacing and line feed that end pass `i`. */
  function FeedAt(p: Plan, i: nat): Blob
    requires WellPlanned(p) && i < p.overscan
  {
    Feed(FeedOpFor(p.printer), FeedAmount(p.printer, i, p.overscan))
  }

  /** Channels `n..` of pass `i` of block `b`. */
  function SegmentsFrom(p: Plan, b: nat, i: nat, n: nat): seq<Blob>
    requires WellPlanned(p) && n <= |p.channels|
    decreases |p.channels| - n
  {
    if n == |p.channels| then [] else SegmentAt(p, b, i, n) + SegmentsFrom(p, b, i, n + 1)
  }

  /** Passes `i..` of block `b`, each its channel segments and then its feed. */
  function PassesFrom(p: Plan, b: nat, i: nat): seq<Blob>
    requires WellPlanned(p) && i <= p.overscan
    decreases p.overscan - i
  {
    if i == p.overscan then [] else SegmentsFrom(p, b, i, 0) + [FeedAt(p, i)] + PassesFrom(p, b, i + 1)
  }

  /** Blocks `b..` of the `ceil(width / stride)` blocks. */
  function BlocksFrom(p: Plan, b: nat): seq<Blob>
    requires WellPlanned(p)
    decreases Blocks(p.width, Stride(p)) - b
  {
    if b >= Blocks(p.width, Stride(p)) then [] else PassesFrom(p, b, 0) + BlocksFrom(p, b + 1)
  }

  /** Everything a complete run prints. */
  function Printout(p: Plan): seq<Blob>
    requires WellPlanned(p)
  {
    BlocksFrom(p, 0)
  }

  /** Whether a pixel's inks include the one `ESC r` selects by colour code:
      0 black, 1 magenta, 2 cyan, 4 yellow. */
  function Ink(inks: Inks, channel: byte): bool
  {
    match channel
    case 0 => inks.k
    case 1 => inks.m
    case 2 => inks.c
    case 4 => inks.y
    case _ => false
  }

  /** In `cmyk` mode, the dots of `channel`: the pixels whose separation
      includes that channel's ink. */
  function InkPlane(im: seq<seq<Rgb>>, channel: byte): Plane
  {
    seq(|im|, y requires 0 <= y < |im| =>
      seq(|im[y]|, x requires 0 <= x < |im[y]| =>
        match Separate(im[y][x])
        case Ok(inks) => Ink(inks, channel)
        case Err(_) => false))
  }

  /** The plane each channel of a pass prints: the grey plane in `k` mode,
      the channel's ink in `cmyk` mode. */
  function PrintedPlanes(im: seq<seq<Rgb>>, grey: Plane, colour: string): (planes: seq<Plane>)
    ensures |planes| == |Channels(colour)|
  {
    var channels := Channels(colour);
    seq(|channels|, n requires 0 <= n < |channels| =>
      if colour == "cmyk" then InkPlane(im, channels[n]) else grey)
  }

  /** A job's plan: each channel's plane is looked up in the `switcher`
      dict. */
  function JobPlan(job: Job): (p: Plan)
    ensures Ready(job) ==> WellPlanned(p)
    ensures p.channels == job.channels && p.slicer == job.slicer && p.overscan == job.overscan
    ensures p.mode == job.mode && p.printer == job.printer && p.width == job.width && p.height == job.height
  {
    Plan(job.channels,
         seq(|job.channels|, n requires 0 <= n < |job.channels| => PlaneFor(job.planes, job.channels[n])),
         job.slicer, job.overscan, job.mode, job.printer, job.width, job.height)
  }

  /** What is left to print from channel `n` of pass `i` of block `b` on. */
  function RestAt(p: Plan, b: nat, i: nat, n: nat): seq<Blob>
    requires WellPlanned(p) && i < p.overscan && n <= |p.channels|
  {
    SegmentsFrom(p, b, i, n) + [FeedAt(p, i)] + PassesFrom(p, b, i + 1) + BlocksFrom(p, b + 1)
  }

  /** Regrouping a concatenation of five pieces. */
  lemma Regroup<T>(a: seq<T>, s: seq<T>, f: seq<T>, q: seq<T>, r: seq<T>)
    ensures a + s + f + q + r == a + (s + f + q + r)
  {
  }

  lemma RestSegment(p: Plan, b: nat, i: nat, n: nat)
    requires WellPlanned(p) && i < p.overscan && n < |p.channels|
    ensures RestAt(p, b, i, n) == SegmentAt(p, b, i, n) + RestAt(p, b, i, n + 1)
  {
    var seg, s := SegmentAt(p, b, i, n), SegmentsFrom(p, b, i, n + 1);
    var f, q, r := [FeedAt(p, i)], PassesFrom(p, b, i + 1), BlocksFrom(p, b + 1);
    assert SegmentsFrom(p, b, i, n) == seg + s;
    Regroup(seg, s, f, q, r);
  }

  lemma RestPass(p: Plan, b: nat, i: nat)
    requires WellPlanned(p) && i + 1 < p.overscan
    ensures RestAt(p, b, i, |p.channels|) == [FeedAt(p, i)] + RestAt(p, b, i + 1, 0)
  {
    var f, g := [FeedAt(p, i)], [FeedAt(p, i + 1)];
    var s, later, blocks := SegmentsFrom(p, b, i + 1, 0), PassesFrom(p, b, i + 2), BlocksFrom(p, b + 1);
    assert SegmentsFrom(p, b, i, |p.channels|) == [];
    assert PassesFrom(p, b, i + 1) == s + g + later;
    assert RestAt(p, b, i, |p.channels|) == [] + f + (s + g + later) + blocks;
    Regroup(f, s, g, later, blocks);
    assert [] + f + (s + g + later) + blocks == f + s + g + later + blocks;
  }

  lemma RestBlock(p: Plan, b: nat, i: nat)
    requires WellPlanned(p) && i + 1 == p.overscan
    ensures RestAt(p, b, i, |p.channels|) == [FeedAt(p, i)] + BlocksFrom(p, b + 1)
  {
    assert SegmentsFrom(p, b, i, |p.channels|) == [];
    assert PassesFrom(p, b, i + 1) == [];
  }

  lemma BlocksFromRest(p: Plan, b: nat)
    requires WellPlanned(p) && b < Blocks(p.width, Stride(p))
    ensures BlocksFrom(p, b) == RestAt(p, b, 0, 0)
  {
    assert PassesFrom(p, b, 0) == SegmentsFrom(p, b, 0, 0) + [FeedAt(p, 0)] + PassesFrom(p, b, 1);
  }

  /** A job whose every feed can be written: a known printer whose last
      spacing fits a byte. */
  predicate Ready(job: Job)
  {
    job.overscan >= 1 && KnownPrinter(job.printer) && job.overscan <= BlockFeed(job.printer) + 1
  }

  /** The loops' step at a channel position is the segment the layout puts
      there. */
  lemma StepSegment(job: Job, c: Cursor, b: nat)
    requires Ready(job) && Valid(job, c)
    requires c.channel < |job.channels| && c.left == Times(b, BlockStep(job))
    ensures Step(job, c).blobs == SegmentAt(JobPlan(job), b, c.pass, c.channel)
  {
    SliceAt(job, c, b);
  }

  /** The loops' slice at a channel position is the layout's slice there. */
  lemma SliceAt(job: Job, c: Cursor, b: nat)
    requires Ready(job) && Valid(job, c)
    requires c.channel < |job.channels| && c.left == Times(b, BlockStep(job))
    ensures var p := JobPlan(job);
      Slice(job, job.channels[c.channel], c.left, c.pass)
        == p.slicer(p.planes[c.channel], Times(b, Stride(p)) + c.pass, Stride(p), p.height)
  {
    var p := JobPlan(job);
    assert p.planes[c.channel] == PlaneFor(job.planes, job.channels[c.channel]);
    assert Stride(p) == BlockStep(job);
  }

  /** The loops' step after the channels is the pass's feed. */
  lemma StepFeed(job: Job, c: Cursor)
    requires Ready(job) && Valid(job, c) && c.channel == |job.channels|
    ensures Step(job, c).blobs == [FeedAt(JobPlan(job), c.pass)]
  {
  }

  /** From any point of the loops inside the image, a run that completes
      yields what the layout has left from that point: the rest of this
      pass's segments, its feed, the passes after it and the blocks after
      this one. */
  lemma {:induction false} EmitLayout(job: Job, c: Cursor, b: nat)
    requires Ready(job) && Valid(job, c) && c.left == Times(b, BlockStep(job))
    requires b + BlockCount(job.width, BlockStep(job), c.left) == Blocks(job.width, BlockStep(job))
    requires Emit(job, c).outcome.Finished?
    ensures c.left < job.width ==> Emit(job, c).blobs == RestAt(JobPlan(job), b, c.pass, c.channel)
    ensures c.left >= job.width ==> Emit(job, c).blobs == []
    decreases job.width - c.left, job.overscan - c.pass, |job.channels| - c.channel
  {
    if c.left < job.width {
      var nb := NextOrigin(job, c, b);
      Advance(job, c, b, nb);
      EmitLayout(job, Next(job, c), nb);
      Extend(job, c, b, nb);
    }
  }

  /** The block the loops are in after `c`: the next one after a block's last feed. */
  function NextOrigin(job: Job, c: Cursor, b: nat): (nb: nat)
    ensures nb == b || nb == b + 1
  {
    if c.channel == |job.channels| && c.pass + 1 == job.overscan then b + 1 else b
  }

  /** One turn of the loops keeps the cursor on its block's origin and the
      block count in step, and a run that completes from `c` completes from
      the next turn too. */
  lemma Advance(job: Job, c: Cursor, b: nat, nb: nat)
    requires Ready(job) && Valid(job, c) && c.left < job.width && c.left == Times(b, BlockStep(job))
    requires b + BlockCount(job.width, BlockStep(job), c.left) == Blocks(job.width, BlockStep(job))
    requires Emit(job, c).outcome.Finished? && nb == NextOrigin(job, c, b)
    ensures Emit(job, Next(job, c)).outcome.Finished?
    ensures Next(job, c).left == Times(nb, BlockStep(job))
    ensures nb + BlockCount(job.width, BlockStep(job), Next(job, c).left) == Blocks(job.width, BlockStep(job))
  {
    EmitSplit(job, c);
    BlockCountNext(job.width, BlockStep(job), c.left);
  }

  /** What one turn yields, put in front of what the layout has left after
      it, is what the layout has left at `c`. */
  lemma Extend(job: Job, c: Cursor, b: nat, nb: nat)
    requires Ready(job) && Valid(job, c) && c.left < job.width && c.left == Times(b, BlockStep(job))
    requires b + BlockCount(job.width, BlockStep(job), c.left) == Blocks(job.width, BlockStep(job))
    requires Emit(job, c).outcome.Finished? && nb == NextOrigin(job, c, b)
    requires Next(job, c).left < job.width ==>
      Emit(job, Next(job, c)).blobs == RestAt(JobPlan(job), nb, Next(job, c).pass, Next(job, c).channel)
    requires Next(job, c).left >= job.width ==> Emit(job, Next(job, c)).blobs == []
    ensures Emit(job, c).blobs == RestAt(JobPlan(job), b, c.pass, c.channel)
  {
    EmitSplit(job, c);
    var whole, here, rest := Emit(job, c).blobs, Step(job, c).blobs, Emit(job, Next(job, c)).blobs;
    if c.channel < |job.channels| {
      ChannelCase(job, c, b, nb, whole, here, rest);
    } else if c.pass + 1 < job.overscan {
      PassCase(job, c, b, nb, whole, here, rest);
    } else {
      BlockCase(job, c, b, nb, whole, here, rest);
    }
  }

  /** A segment, then the rest of the pass from the next channel on. */
  lemma ChannelCase(job: Job, c: Cursor, b: nat, nb: nat, whole: seq<Blob>, here: seq<Blob>, rest: seq<Blob>)
    requires Ready(job) && Valid(job, c) && c.left < job.width
    requires c.channel < |job.channels| && c.left == Times(b, BlockStep(job)) && nb == NextOrigin(job, c, b)
    requires here == Step(job, c).blobs && whole == here + rest
    requires Next(job, c).left < job.width ==>
      rest == RestAt(JobPlan(job), nb, Next(job, c).pass, Next(job, c).channel)
    ensures whole == RestAt(JobPlan(job), b, c.pass, c.channel)
  {
    var p := JobPlan(job);
    assert Next(job, c) == Cursor(c.left, c.pass, c.channel + 1) && nb == b;
    StepSegment(job, c, b);
    RestSegment(p, b, c.pass, c.channel);
    Glue(whole, here, rest, SegmentAt(p, b, c.pass, c.channel), RestAt(p, b, c.pass, c.channel + 1),
         RestAt(p, b, c.pass, c.channel));
  }

  /** A feed that is not a block's last, then the next pass. */
  lemma PassCase(job: Job, c: Cursor, b: nat, nb: nat, whole: seq<Blob>, here: seq<Blob>, rest: seq<Blob>)
    requires Ready(job) && Valid(job, c) && c.left < job.width
    requires c.channel == |job.channels| && c.pass + 1 < job.overscan && nb == NextOrigin(job, c, b)
    requires here == Step(job, c).blobs && whole == here + rest
    requires Next(job, c).left < job.width ==>
      rest == RestAt(JobPlan(job), nb, Next(job, c).pass, Next(job, c).channel)
    ensures whole == RestAt(JobPlan(job), b, c.pass, c.channel)
  {
    var p := JobPlan(job);
    assert Next(job, c) == Cursor(c.left, c.pass + 1, 0) && nb == b;
    StepFeed(job, c);
    RestPass(p, b, c.pass);
    Glue(whole, here, rest, [FeedAt(p, c.pass)], RestAt(p, b, c.pass + 1, 0), RestAt(p, b, c.pass, c.channel));
  }

  /** A block's last feed, then the blocks after it. */
  lemma BlockCase(job: Job, c: Cursor, b: nat, nb: nat, whole: seq<Blob>, here: seq<Blob>, rest: seq<Blob>)
    requires Ready(job) && Valid(job, c) && c.left < job.width
    requires c.channel == |job.channels| && c.pass + 1 == job.overscan && c.left == Times(b, BlockStep(job))
    requires b + BlockCount(job.width, BlockStep(job), c.left) == Blocks(job.width, BlockStep(job))
    requires here == Step(job, c).blobs && whole == here + rest && nb == NextOrigin(job, c, b)
    requires Next(job, c).left < job.width ==>
      rest == RestAt(JobPlan(job), nb, Next(job, c).pass, Next(job, c).channel)
    requires Next(job, c).left >= job.width ==> rest == []
    ensures whole == RestAt(JobPlan(job), b, c.pass, c.channel)
  {
    var p := JobPlan(job);
    assert Next(job, c) == Cursor(c.left + BlockStep(job), 0, 0) && nb == b + 1;
    BlockCountNext(job.width, BlockStep(job), c.left);
    StepFeed(job, c);
    RestBlock(p, b, c.pass);
    NextBlock(job, c, b, rest);
    Glue(whole, here, rest, [FeedAt(p, c.pass)], BlocksFrom(p, b + 1), RestAt(p, b, c.pass, c.channel));
  }

  /** What follows a block's last feed is the layout of the blocks after it. */
  lemma NextBlock(job: Job, c: Cursor, b: nat, rest: seq<Blob>)
    requires Ready(job) && Valid(job, c)
    requires c.channel == |job.channels| && c.pass + 1 == job.overscan && c.left == Times(b, BlockStep(job))
    requires b + 1 + BlockCount(job.width, BlockStep(job), c.left + BlockStep(job)) == Blocks(job.width, BlockStep(job))
    requires Next(job, c).left < job.width ==> rest == RestAt(JobPlan(job), b + 1, 0, 0)
    requires Next(job, c).left >= job.width ==> rest == []
    ensures rest == BlocksFrom(JobPlan(job), b + 1)
  {
    var p := JobPlan(job);
    assert Stride(p) == BlockStep(job);
    if Next(job, c).left < job.width {
      BlocksFromRest(p, b + 1);
    }
  }

  /** `whole == target` from a split of each into two equal halves. */
  lemma Glue(whole: seq<Blob>, here: seq<Blob>, rest: seq<Blob>, first: seq<Blob>, second: seq<Blob>, target: seq<Blob>)
    requires whole == here + rest && here == first && rest == second && target == first + second
    ensures whole == target
  {
  }

  /** A job that completes prints its layout: block by block, pass by pass,
      each channel's plane sliced at `b * line_height * 8 + i`, each pass
      closed by its feed. */
  lemma JobLayout(job: Job)
    requires job.overscan >= 1 && Emit(job, Start).outcome.Finished?
    ensures job.width > 0 ==> KnownPrinter(job.printer) && job.overscan <= BlockFeed(job.printer) + 1
    ensures Emit(job, Start).blobs == if job.width == 0 then [] else Printout(JobPlan(job))
  {
    if job.width > 0 {
      EmitChecks(job, Start);
      var step := BlockStep(job);
      assert Ready(job);
      BlockCountFromZero(job.width, step);
      BlockCountNext(job.width, step, 0);
      EmitLayout(job, Start, 0);
      BlocksFromRest(JobPlan(job), 0);
    }
  }

  /** In `cmyk` mode the `switcher` plane of each channel is that channel's
      ink plane. */
  lemma InkPlanesAgree(im: seq<seq<Rgb>>, grid: seq<seq<Inks>>, channel: byte)
    requires SeparateImage(im) == Ok(grid) && channel in [4, 2, 1, 0]
    ensures PlaneFor(InkPlanes(grid), channel) == InkPlane(im, channel)
  {
    var P, Q := PlaneFor(InkPlanes(grid), channel), InkPlane(im, channel);
    forall y | 0 <= y < |im|
      ensures P[y] == Q[y]
    {
      forall x | 0 <= x < |im[y]|
        ensures P[y][x] == Q[y][x]
      {
        assert Separate(im[y][x]) == Ok(grid[y][x]);
      }
    }
  }
}
