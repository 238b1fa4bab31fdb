/** What the column encoder's loops yield as a whole: the channel and feed
    sequence, the block count, the byte count, well-framed output, and when
    the loops complete or raise. */
module EncoderProperties {
  import opened Failures
  import opened Bits
  import opened BigEndian
  import opened Commands
  import opened Printers
  import opened ColumnFormat
  import opened Tallies

  /** Bytes of one channel segment: select 3, graphics 5, `height` groups of
      `GroupWidth(mode)` bytes, `\r` 1. */
  function SegmentBytes(mode: int, height: nat): int
  {
    Times(height, GroupWidth(mode)) + 9
  }

  /** Bytes of one pass: its `channels` segments and a 4-byte feed. */
  function PassBytes(channels: nat, mode: int, height: nat): int
  {
    Times(channels, SegmentBytes(mode, height)) + 4
  }

  /** Every slice the encoder can ask for has `height * line_height` bytes,
      as a PIL slice of that size does. */
  ghost predicate SlicesFit(slicer: Slicer, overscan: nat, mode: int, height: nat)
  {
    forall p: Plane, x: int :: |slicer(p, x, LineHeight(overscan, mode) * 8, height)| == height * LineHeight(overscan, mode)
  }

  /** The values checked after output has begun: the mode byte, the row
      count, the printer, and the last pass's spacing. */
  predicate Printable(overscan: nat, mode: int, height: nat, printer: string)
  {
    && 0 <= mode < 256
    && height < 0x1_0000
    && KnownPrinter(printer)
    && overscan <= BlockFeed(printer) + 1
  }

  /** The blobs of a channel segment with columns `cols`. */
  lemma FrameSummary(channel: byte, mode: byte, height: u16, cols: seq<Blob>)
    requires |cols| == height && AreColumns(cols, GroupWidth(mode))
    ensures var b := [Select(channel), Graphics(mode, height)] + cols + [Return];
      && WellFramed(b)
      && Count(b, mode, height) == Tally([channel], [], Times(height, GroupWidth(mode)) + 9, true)
  {
    var head := [Select(channel), Graphics(mode, height)];
    var b := head + cols + [Return];
    assert b[1..][1..height + 1] == cols;
    assert b[1..][height + 1] == Return;
    assert b[1..][height + 2..] == [];
    assert WellFramed(b[1..]);
    ColumnsCount(cols, GroupWidth(mode), mode, height);
    CountAppend(head + cols, [Return], mode, height);
    CountAppend(head, cols, mode, height);
  }

  /** A completed channel segment: one channel select, a graphics command for
      `height` rows, no feed, and well-framed bytes of the expected length. */
  lemma SegmentSummary(channel: byte, data: seq<byte>, overscan: nat, mode: int, height: nat)
    requires overscan >= 1 && Segment(channel, data, overscan, mode, height).outcome.Finished?
    ensures var b := Segment(channel, data, overscan, mode, height).blobs;
      && WellFramed(b)
      && Count(b, mode, height) == Tally([channel], [], Times(height, GroupWidth(mode)) + 9, true)
  {
    var b := Segment(channel, data, overscan, mode, height).blobs;
    var cols := b[2..height + 2];
    assert b == [Select(channel), Graphics(mode, height)] + cols + [Return];
    FrameSummary(channel, mode, height, cols);
  }

  /** A feed that is yielded names a known printer, has a spacing that fits a
      byte, and is the pass's spacing. */
  lemma FeedSummary(job: Job, i: nat)
    requires i < job.overscan && FeedRun(job, i).outcome.Finished?
    ensures KnownPrinter(job.printer)
    ensures i == job.overscan - 1 ==> job.overscan <= BlockFeed(job.printer) + 1
    ensures WellFramed(FeedRun(job, i).blobs)
    ensures Count(FeedRun(job, i).blobs, job.mode, job.height) == Tally([], [FeedAmount(job.printer, i, job.overscan)], 4, true)
  {
    var b := FeedRun(job, i).blobs;
    assert b[1..] == [];
  }

  /** One turn of the loops that completes: a channel segment that packed its
      mode and row count, or a feed for a known printer. */
  lemma StepSummary(job: Job, c: Cursor)
    requires job.overscan >= 1 && Valid(job, c) && Step(job, c).outcome.Finished?
    ensures WellFramed(Step(job, c).blobs)
    ensures c.channel < |job.channels| ==>
      && 0 <= job.mode < 256 && job.height < 0x1_0000
      && Count(Step(job, c).blobs, job.mode, job.height)
         == Tally([job.channels[c.channel]], [], SegmentBytes(job.mode, job.height), true)
    ensures c.channel == |job.channels| ==>
      && KnownPrinter(job.printer)
      && (c.pass == job.overscan - 1 ==> job.overscan <= BlockFeed(job.printer) + 1)
      && Count(Step(job, c).blobs, job.mode, job.height)
         == Tally([], [FeedAmount(job.printer, c.pass, job.overscan)], 4, true)
  {
    if c.channel < |job.channels| {
      var col := job.channels[c.channel];
      SegmentSummary(col, Slice(job, col, c.left, c.pass), job.overscan, job.mode, job.height);
    } else {
      FeedSummary(job, c.pass);
    }
  }

  /** Before the block loop has ended, the run from `c` is the turn at `c`
      and then the run from the next cursor. */
  lemma EmitSplit(job: Job, c: Cursor)
    requires job.overscan >= 1 && Valid(job, c) && c.left < job.width
    requires Emit(job, c).outcome.Finished?
    ensures Step(job, c).outcome.Finished? && Emit(job, Next(job, c)).outcome.Finished?
    ensures Emit(job, c).blobs == Step(job, c).blobs + Emit(job, Next(job, c)).blobs
  {
  }

  /** `ceil((width - left) / step)` by counting the loop's turns. */
  function BlockCount(width: nat, step: nat, left: nat): nat
    requires step > 0
    decreases width - left
  {
    if left >= width then 0 else 1 + BlockCount(width, step, left + step)
  }

  lemma BlockCountNext(width: nat, step: nat, left: nat)
    requires step > 0 && left < width
    ensures BlockCount(width, step, left) == BlockCount(width, step, left + step) + 1
  {
  }

  /** The while loop runs `ceil(width / step)` times. */
  lemma {:induction false} BlockCountIsCeiling(width: nat, step: nat, left: nat)
    requires step > 0
    ensures BlockCount(width, step, left) == if left >= width then 0 else (width - left + step - 1) / step
    decreases width - left
  {
    if left < width {
      BlockCountIsCeiling(width, step, left + step);
      var x := width - left - 1;
      if left + step >= width {
        DivUnique(x + step, step, 1);
      } else {
        DivUnique(x, step, x / step);
        DivUnique(x + step, step, x / step + 1);
        assert width - (left + step) + step - 1 == x;
      }
    }
  }

  /** What the loops still yield from `c` on, for a known printer. */
  function Expected(job: Job, c: Cursor): Tally
    requires job.overscan >= 1 && Valid(job, c) && KnownPrinter(job.printer)
  {
    if c.left >= job.width then Nothing
    else
      var step := BlockStep(job);
      Ahead(job.channels, PassFeeds(job.printer, job.overscan), c.channel, c.pass,
            BlockCount(job.width, step, c.left + step),
            SegmentBytes(job.mode, job.height), PassBytes(|job.channels|, job.mode, job.height))
  }

  lemma ExpectedAhead(job: Job, c: Cursor)
    requires job.overscan >= 1 && Valid(job, c) && KnownPrinter(job.printer) && c.left < job.width
    ensures Expected(job, c)
         == Ahead(job.channels, PassFeeds(job.printer, job.overscan), c.channel, c.pass,
                  BlockCount(job.width, BlockStep(job), c.left + BlockStep(job)),
                  SegmentBytes(job.mode, job.height), PassBytes(|job.channels|, job.mode, job.height))
  {
  }

  /** A run from `c` that completes yields exactly what is expected from
      there: the channels in `colours` order once per pass and block, one
      spacing per pass, and one header per segment for `height` rows. */
  lemma {:induction false} EmitCount(job: Job, c: Cursor)
    requires job.overscan >= 1 && Valid(job, c) && KnownPrinter(job.printer)
    requires Emit(job, c).outcome.Finished?
    ensures Count(Emit(job, c).blobs, job.mode, job.height) == Expected(job, c)
    decreases job.width - c.left, job.overscan - c.pass, |job.channels| - c.channel
  {
    if c.left < job.width {
      EmitSplit(job, c);
      EmitCount(job, Next(job, c));
      EmitCountStep(job, c);
    }
  }

  lemma EmitCountStep(job: Job, c: Cursor)
    requires job.overscan >= 1 && Valid(job, c) && KnownPrinter(job.printer) && c.left < job.width
    requires Emit(job, c).outcome.Finished?
    requires Count(Emit(job, Next(job, c)).blobs, job.mode, job.height) == Expected(job, Next(job, c))
    ensures Count(Emit(job, c).blobs, job.mode, job.height) == Expected(job, c)
  {
    EmitSplit(job, c);
    var here := Count(Step(job, c).blobs, job.mode, job.height);
    CountJoin(Emit(job, c).blobs, Step(job, c).blobs, Emit(job, Next(job, c)).blobs, job.mode, job.height,
              here, Expected(job, Next(job, c)));
    StepTally(job, c);
  }

  /** The turn at `c` and what is expected after it make up what is expected
      from `c`. */
  lemma StepTally(job: Job, c: Cursor)
    requires job.overscan >= 1 && Valid(job, c) && KnownPrinter(job.printer) && c.left < job.width
    requires Step(job, c).outcome.Finished?
    ensures Plus(Count(Step(job, c).blobs, job.mode, job.height), Expected(job, Next(job, c))) == Expected(job, c)
  {
    StepSummary(job, c);
    if c.channel < |job.channels| {
      ChannelTally(job, c);
    } else if c.pass + 1 < job.overscan {
      PassTally(job, c);
    } else {
      BlockTally(job, c);
    }
  }

  lemma ChannelTally(job: Job, c: Cursor)
    requires job.overscan >= 1 && Valid(job, c) && KnownPrinter(job.printer) && c.left < job.width
    requires c.channel < |job.channels|
    ensures Plus(Tally([job.channels[c.channel]], [], SegmentBytes(job.mode, job.height), true), Expected(job, Next(job, c)))
         == Expected(job, c)
  {
    var step := BlockStep(job);
    AheadChannel(job.channels, PassFeeds(job.printer, job.overscan), c.channel, c.pass,
                 BlockCount(job.width, step, c.left + step),
                 SegmentBytes(job.mode, job.height), PassBytes(|job.channels|, job.mode, job.height));
  }

  lemma PassTally(job: Job, c: Cursor)
    requires job.overscan >= 1 && Valid(job, c) && KnownPrinter(job.printer) && c.left < job.width
    requires c.channel == |job.channels| && c.pass + 1 < job.overscan
    ensures Plus(Tally([], [FeedAmount(job.printer, c.pass, job.overscan)], 4, true), Expected(job, Next(job, c)))
         == Expected(job, c)
  {
    var step := BlockStep(job);
    var feeds := PassFeeds(job.printer, job.overscan);
    assert feeds[c.pass] == FeedAmount(job.printer, c.pass, job.overscan);
    AheadPass(job.channels, feeds, c.pass, BlockCount(job.width, step, c.left + step),
              SegmentBytes(job.mode, job.height), PassBytes(|job.channels|, job.mode, job.height));
  }

  lemma BlockTally(job: Job, c: Cursor)
    requires job.overscan >= 1 && Valid(job, c) && KnownPrinter(job.printer) && c.left < job.width
    requires c.channel == |job.channels| && c.pass + 1 == job.overscan
    ensures Plus(Tally([], [FeedAmount(job.printer, c.pass, job.overscan)], 4, true), Expected(job, Next(job, c)))
         == Expected(job, c)
  {
    var step := BlockStep(job);
    var feeds := PassFeeds(job.printer, job.overscan);
    var blocks := BlockCount(job.width, step, c.left + step);
    assert feeds[c.pass] == FeedAmount(job.printer, c.pass, job.overscan);
    assert Next(job, c) == Cursor(c.left + step, 0, 0);
    AheadBlock(job.channels, feeds, blocks,
               SegmentBytes(job.mode, job.height), PassBytes(|job.channels|, job.mode, job.height));
    if c.left + step < job.width {
      BlockCountNext(job.width, step, c.left + step);
    } else {
      PlusNothing(Tally([], [feeds[c.pass]], 4, true));
    }
  }

  /** A whole run over an image with columns that completes met a known
      printer whose last spacing fits a byte, and packed its mode and row
      count. */
  lemma EmitOpens(job: Job)
    requires job.overscan >= 1 && 0 < job.width && 0 < |job.channels|
    requires Emit(job, Start).outcome.Finished?
    ensures KnownPrinter(job.printer) && job.overscan <= BlockFeed(job.printer) + 1
    ensures 0 <= job.mode < 256 && job.height < 0x1_0000
  {
    EmitChecks(job, Start);
    EmitSplit(job, Start);
    StepSummary(job, Start);
  }

  /** A whole run over an image with columns that completes yields every
      channel once per pass and every pass's spacing once per block,
      `BlockCount` blocks in all, well framed. */
  lemma EmitWhole(job: Job)
    requires job.overscan >= 1 && 0 < job.width
    requires Emit(job, Start).outcome.Finished?
    ensures KnownPrinter(job.printer)
    ensures var blocks := BlockCount(job.width, BlockStep(job), 0);
      Count(Emit(job, Start).blobs, job.mode, job.height)
      == Tally(Repeat(Repeat(job.channels, job.overscan), blocks),
               Repeat(PassFeeds(job.printer, job.overscan), blocks),
               Times(blocks, Times(job.overscan, PassBytes(|job.channels|, job.mode, job.height))), true)
    ensures WellFramed(Emit(job, Start).blobs)
  {
    EmitChecks(job, Start);
    EmitCount(job, Start);
    EmitFramed(job, Start);
    var step := BlockStep(job);
    var feeds, later := PassFeeds(job.printer, job.overscan), BlockCount(job.width, step, step);
    var sb, pb := SegmentBytes(job.mode, job.height), PassBytes(|job.channels|, job.mode, job.height);
    ExpectedAhead(job, Start);
    BlockCountNext(job.width, step, 0);
    WholeBlocksAhead(Expected(job, Start), job.channels, feeds, job.overscan,
                     BlockCount(job.width, step, 0), later, sb, pb);
  }

  lemma WholeBlocksAhead(t: Tally, channels: seq<byte>, feeds: seq<int>, o: nat, blocks: nat, later: nat, sb: int, pb: int)
    requires 0 < |feeds| == o && blocks == later + 1 && pb == Times(|channels|, sb) + 4
    requires t == Ahead(channels, feeds, 0, 0, later, sb, pb)
    ensures t == Tally(Repeat(Repeat(channels, o), blocks), Repeat(feeds, blocks), Times(blocks, Times(o, pb)), true)
  {
    AheadWhole(channels, feeds, later, sb, pb);
  }

  /** The run's output is well framed, however far it gets. */
  lemma {:induction false} EmitFramed(job: Job, c: Cursor)
    requires job.overscan >= 1 && Valid(job, c)
    requires Emit(job, c).outcome.Finished?
    ensures WellFramed(Emit(job, c).blobs)
    decreases job.width - c.left, job.overscan - c.pass, |job.channels| - c.channel
  {
    if c.left < job.width {
      EmitSplit(job, c);
      StepSummary(job, c);
      EmitFramed(job, Next(job, c));
      WellFramedAppend(Step(job, c).blobs, Emit(job, Next(job, c)).blobs);
    }
  }

  /** A block that completes has met a known printer whose last spacing fits
      a byte. */
  lemma {:induction false} EmitChecks(job: Job, c: Cursor)
    requires job.overscan >= 1 && Valid(job, c) && c.left < job.width
    requires Emit(job, c).outcome.Finished?
    ensures KnownPrinter(job.printer) && job.overscan <= BlockFeed(job.printer) + 1
    decreases job.width - c.left, job.overscan - c.pass, |job.channels| - c.channel
  {
    EmitSplit(job, c);
    StepSummary(job, c);
    if c.channel < |job.channels| || c.pass + 1 < job.overscan {
      EmitChecks(job, Next(job, c));
    }
  }

  /** A channel segment completes when its slice has the right length and
      the mode and row count can be packed. */
  lemma SegmentSucceeds(job: Job, c: Cursor)
    requires job.overscan >= 1 && Valid(job, c) && c.channel < |job.channels|
    requires SlicesFit(job.slicer, job.overscan, job.mode, job.height)
    requires 0 <= job.mode < 256 && job.height < 0x1_0000
    ensures Step(job, c).outcome.Finished?
  {
    var col := job.channels[c.channel];
    TimesIsProduct(job.height, LineHeight(job.overscan, job.mode));
    assert |Slice(job, col, c.left, c.pass)| == job.height * LineHeight(job.overscan, job.mode);
  }

  /** With slices of the right length and printable values, the run
      completes. */
  lemma {:induction false} EmitSucceeds(job: Job, c: Cursor)
    requires job.overscan >= 1 && Valid(job, c)
    requires SlicesFit(job.slicer, job.overscan, job.mode, job.height)
    requires Printable(job.overscan, job.mode, job.height, job.printer)
    ensures Emit(job, c).outcome.Finished?
    decreases job.width - c.left, job.overscan - c.pass, |job.channels| - c.channel
  {
    if c.left < job.width {
      if c.channel < |job.channels| {
        SegmentSucceeds(job, c);
      }
      EmitSucceeds(job, Next(job, c));
    }
  }

  /** `run` yielded one well-framed segment for each of `channels`, in
      order, and then raised `Unknown printer`. */
  predicate SegmentsThenUnknownPrinter(run: Run, channels: seq<byte>, sb: int, mode: int, height: nat)
  {
    && run.outcome == Raised(UnknownPrinter)
    && WellFramed(run.blobs)
    && Count(run.blobs, mode, height) == Tally(channels, [], Times(|channels|, sb), true)
  }

  /** With an unknown printer, the rest of the pass's channel segments are
      yielded before the printer is looked at, and then the run raises. */
  lemma {:induction false} EmitUnknownPrinter(job: Job, c: Cursor)
    requires job.overscan >= 1 && Valid(job, c) && c.left < job.width
    requires SlicesFit(job.slicer, job.overscan, job.mode, job.height)
    requires 0 <= job.mode < 256 && job.height < 0x1_0000 && !KnownPrinter(job.printer)
    ensures SegmentsThenUnknownPrinter(Emit(job, c), job.channels[c.channel..],
                                       SegmentBytes(job.mode, job.height), job.mode, job.height)
    decreases |job.channels| - c.channel
  {
    var ch := job.channels;
    if c.channel < |ch| {
      var next := Next(job, c);
      SegmentSucceeds(job, c);
      StepSummary(job, c);
      EmitUnknownPrinter(job, next);
      assert next.channel == c.channel + 1;
      var here, rest := Step(job, c), Emit(job, next);
      assert Emit(job, c) == Then(here, rest);
      assert Emit(job, c).blobs == here.blobs + rest.blobs;
      SegmentsStep(ch, c.channel, SegmentBytes(job.mode, job.height), job.mode, job.height,
                   here.blobs, rest.blobs, Emit(job, c).blobs);
    } else {
      assert Emit(job, c) == Run([], Raised(UnknownPrinter));
      assert ch[c.channel..] == [];
    }
  }

  /** One channel segment ahead of the rest of the pass's segments. */
  lemma SegmentsStep(channels: seq<byte>, n: nat, sb: int, mode: int, height: nat,
                     here: seq<Blob>, rest: seq<Blob>, whole: seq<Blob>)
    requires n < |channels| && whole == here + rest
    requires WellFramed(here) && Count(here, mode, height) == Tally([channels[n]], [], sb, true)
    requires WellFramed(rest) && Count(rest, mode, height) == Tally(channels[n + 1..], [], Times(|channels| - (n + 1), sb), true)
    ensures WellFramed(whole)
    ensures Count(whole, mode, height) == Tally(channels[n..], [], Times(|channels| - n, sb), true)
  {
    CountJoin(whole, here, rest, mode, height,
              Tally([channels[n]], [], sb, true), Tally(channels[n + 1..], [], Times(|channels| - (n + 1), sb), true));
    ChannelsFrom(channels, n, sb);
    WellFramedAppend(here, rest);
  }
}
