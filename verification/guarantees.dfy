/** What a caller of `_to_column_format` can rely on, stated on its
    arguments: when it raises and with which exception, what it yields
    before that, and what a complete run amounts to. */
module Guarantees {
  import opened Failures
  import opened Bits
  import opened BigEndian
  import opened Commands
  import opened Printers
  import opened Separation
  import opened ColumnFormat
  import opened Tallies
  import opened EncoderProperties
  import opened Layout

  /** The image rows all have `width` pixels. */
  predicate Rectangular(im: seq<seq<Rgb>>, width: nat)
  {
    forall y :: 0 <= y < |im| ==> |im[y]| == width
  }

  /** The colour mode is known and, in `cmyk` mode, every pixel separates. */
  predicate Separable(im: seq<seq<Rgb>>, colour: string)
  {
    colour == "k" || (colour == "cmyk" && SeparateImage(im).Ok?)
  }

  /** In `cmyk` mode the four planes mark, at every pixel, exactly the inks
      the separation picks for it: the `paste` calls of the case split. */
  lemma CmykPlanes(im: seq<seq<Rgb>>, width: nat, grey: Plane, slicer: Slicer,
                   overscan: nat, mode: int, printer: string)
    requires Rectangular(im, width) && SeparateImage(im).Ok?
    ensures Prepare(im, width, grey, slicer, "cmyk", overscan, mode, printer).Ok?
    ensures var p := Prepare(im, width, grey, slicer, "cmyk", overscan, mode, printer).value.planes;
      && |p.c| == |p.m| == |p.y| == |p.k| == |im|
      && forall y, x :: 0 <= y < |im| && 0 <= x < width ==>
        && x < |p.c[y]| && x < |p.m[y]| && x < |p.y[y]| && x < |p.k[y]|
        && Separate(im[y][x]) == Ok(Inks(p.c[y][x], p.m[y][x], p.y[y][x], p.k[y][x]))
  {
  }

  /** A run that completes prints, for each of the `ceil(width / (line_height
      * 8))` blocks `b` and each pass `i`, the segment of every channel in
      `colours` order, sliced from column `b * line_height * 8 + i` of the
      plane that channel's colour code selects, and then the pass's feed. */
  lemma RunLayout(im: seq<seq<Rgb>>, width: nat, grey: Plane, slicer: Slicer,
                  colour: string, overscan: nat, mode: int, printer: string)
    requires overscan >= 1 && Rectangular(im, width)
    requires ToColumnFormat(im, width, grey, slicer, colour, overscan, mode, printer).outcome.Finished?
    ensures width > 0 ==> KnownPrinter(printer) && overscan <= BlockFeed(printer) + 1
    ensures ToColumnFormat(im, width, grey, slicer, colour, overscan, mode, printer).blobs
         == if width == 0 then []
            else Printout(Plan(Channels(colour), PrintedPlanes(im, grey, colour), slicer,
                               overscan, mode, printer, width, |im|))
  {
    RunNeedsSeparable(im, width, grey, slicer, colour, overscan, mode, printer);
    var job := Prepare(im, width, grey, slicer, colour, overscan, mode, printer).value;
    JobLayout(job);
    if width > 0 {
      var channels := Channels(colour);
      var planes := PrintedPlanes(im, grey, colour);
      forall n | 0 <= n < |channels|
        ensures JobPlan(job).planes[n] == planes[n]
      {
        if colour == "cmyk" {
          InkPlanesAgree(im, SeparateImage(im).value, channels[n]);
        }
      }
      assert JobPlan(job).planes == planes;
    }
  }

  /** An unknown colour mode raises before anything is yielded. */
  lemma RunUnknownColourMode(im: seq<seq<Rgb>>, width: nat, grey: Plane, slicer: Slicer,
                             colour: string, overscan: nat, mode: int, printer: string)
    requires overscan >= 1 && Rectangular(im, width)
    requires colour != "cmyk" && colour != "k"
    ensures ToColumnFormat(im, width, grey, slicer, colour, overscan, mode, printer) == Run([], Raised(UnknownColourMode))
  {
  }

  /** In `cmyk` mode, a pixel that is not exactly a primary raises, naming
      the first such pixel in row-major order, before anything is yielded. */
  lemma RunUnknownColour(im: seq<seq<Rgb>>, width: nat, grey: Plane, slicer: Slicer,
                         colour: string, overscan: nat, mode: int, printer: string)
    requires overscan >= 1 && Rectangular(im, width)
    requires colour == "cmyk" && !Separable(im, colour)
    ensures var y := FirstUnknownRow(im);
      && y < |im| && FirstUnknown(im[y]) < width
      && var px := im[y][FirstUnknown(im[y])];
      && !IsPrimary(px)
      && ToColumnFormat(im, width, grey, slicer, colour, overscan, mode, printer)
         == Run([], Raised(UnknownColour(px.r, px.g, px.b)))
  {
  }

  /** An image without columns yields nothing and completes, whatever the
      printer. */
  lemma RunEmptyImage(im: seq<seq<Rgb>>, width: nat, grey: Plane, slicer: Slicer,
                      colour: string, overscan: nat, mode: int, printer: string)
    requires overscan >= 1 && Rectangular(im, width)
    requires width == 0 && Separable(im, colour)
    ensures ToColumnFormat(im, width, grey, slicer, colour, overscan, mode, printer) == Run([], Finished)
  {
  }

  /** A run that completes met a known colour mode whose pixels all
      separate. */
  lemma RunNeedsSeparable(im: seq<seq<Rgb>>, width: nat, grey: Plane, slicer: Slicer,
                          colour: string, overscan: nat, mode: int, printer: string)
    requires overscan >= 1 && Rectangular(im, width)
    requires ToColumnFormat(im, width, grey, slicer, colour, overscan, mode, printer).outcome.Finished?
    ensures Separable(im, colour)
  {
  }

  /** A complete run over an image with columns met a known printer whose
      last spacing fits a byte, and a mode and row count that pack. */
  lemma RunChecks(im: seq<seq<Rgb>>, width: nat, grey: Plane, slicer: Slicer,
                  colour: string, overscan: nat, mode: int, printer: string)
    requires overscan >= 1 && Rectangular(im, width) && 0 < width
    requires ToColumnFormat(im, width, grey, slicer, colour, overscan, mode, printer).outcome.Finished?
    ensures KnownPrinter(printer) && overscan <= BlockFeed(printer) + 1
    ensures 0 <= mode < 256 && |im| < 0x1_0000
  {
    var job := Prepare(im, width, grey, slicer, colour, overscan, mode, printer).value;
    EmitOpens(job);
  }

  /** A complete run over an image with columns selects the channels in
      order once per pass, feeds each pass's spacing once per block, writes
      one header per segment for all rows, has the byte length the framing
      gives, and decodes back to what was yielded. */
  lemma RunYields(im: seq<seq<Rgb>>, width: nat, grey: Plane, slicer: Slicer,
                  colour: string, overscan: nat, mode: int, printer: string)
    requires overscan >= 1 && Rectangular(im, width) && 0 < width
    requires ToColumnFormat(im, width, grey, slicer, colour, overscan, mode, printer).outcome.Finished?
    ensures KnownPrinter(printer)
    ensures WholeBlocks(ToColumnFormat(im, width, grey, slicer, colour, overscan, mode, printer).blobs,
                        Channels(colour), PassFeeds(printer, overscan), overscan,
                        Blocks(width, LineHeight(overscan, mode) * 8), mode, |im|)
  {
    var job := Prepare(im, width, grey, slicer, colour, overscan, mode, printer).value;
    JobYields(job);
  }

  /** `RunYields` for the job the colour mode prepared. */
  lemma JobYields(job: Job)
    requires job.overscan >= 1 && 0 < job.width
    requires Emit(job, Start).outcome.Finished?
    ensures KnownPrinter(job.printer)
    ensures WholeBlocks(Emit(job, Start).blobs, job.channels, PassFeeds(job.printer, job.overscan), job.overscan,
                        Blocks(job.width, BlockStep(job)), job.mode, job.height)
  {
    EmitWhole(job);
    BlockCountFromZero(job.width, BlockStep(job));
    Summary(Emit(job, Start).blobs, job.channels, PassFeeds(job.printer, job.overscan), job.overscan,
            Blocks(job.width, BlockStep(job)), job.mode, job.height);
  }

  /** `blobs` are `blocks` whole blocks of `o` passes: they select the
      channels in order once per pass, feed each pass's spacing once per
      block, carry one header per segment for `height` rows in `mode`, have
      the byte length the framing gives, and decode back to themselves. */
  predicate WholeBlocks(blobs: seq<Blob>, channels: seq<byte>, feeds: seq<int>, o: nat, blocks: nat, mode: int, height: nat)
  {
    && Count(blobs, mode, height).selected == Repeat(channels, blocks * o)
    && Count(blobs, mode, height).feeds == Repeat(feeds, blocks)
    && |Flatten(blobs)| == blocks * (o * (|channels| * (height * GroupWidth(mode) + 9) + 4))
    && HeadersAre(blobs, mode, height)
    && Parse(Flatten(blobs)) == Some(blobs)
  }

  /** A run's output whose tally is `blocks` whole blocks. */
  lemma Summary(blobs: seq<Blob>, channels: seq<byte>, feeds: seq<int>, o: nat, blocks: nat, mode: int, height: nat)
    requires WellFramed(blobs)
    requires Count(blobs, mode, height)
      == Tally(Repeat(Repeat(channels, o), blocks), Repeat(feeds, blocks),
               Times(blocks, Times(o, PassBytes(|channels|, mode, height))), true)
    ensures WholeBlocks(blobs, channels, feeds, o, blocks, mode, height)
  {
    RepeatRepeat(channels, o, blocks);
    CountMeans(blobs, mode, height);
    ParseFlatten(blobs);
    SizeIsProduct(blocks, o, |channels|, height, mode, Count(blobs, mode, height).size);
  }

  /** The byte count of `b` blocks of `o` passes of `n` segments of `h`
      groups of `g` bytes, as a product. */
  lemma SizeIsProduct(b: nat, o: nat, n: nat, h: nat, mode: int, size: int)
    requires size == Times(b, Times(o, PassBytes(n, mode, h)))
    ensures size == b * (o * (n * (h * GroupWidth(mode) + 9) + 4))
  {
    var g := GroupWidth(mode);
    var s := Times(h, g) + 9;
    TimesIsProduct(h, g);
    var p := Times(n, s) + 4;
    TimesIsProduct(n, s);
    var q := Times(o, p);
    TimesIsProduct(o, p);
    TimesIsProduct(b, q);
    assert s == h * g + 9 && p == n * s + 4 && q == o * p;
  }

  lemma SegmentsAreProduct(n: nat, h: nat, mode: int, size: int)
    requires size == Times(n, SegmentBytes(mode, h))
    ensures size == n * (h * GroupWidth(mode) + 9)
  {
    TimesIsProduct(h, GroupWidth(mode));
    TimesIsProduct(n, SegmentBytes(mode, h));
  }

  /** With slices of the right length, a known colour mode whose pixels
      separate and printable values, the run completes. */
  lemma RunSucceeds(im: seq<seq<Rgb>>, width: nat, grey: Plane, slicer: Slicer,
                    colour: string, overscan: nat, mode: int, printer: string)
    requires overscan >= 1 && Rectangular(im, width) && Separable(im, colour)
    requires SlicesFit(slicer, overscan, mode, |im|) && Printable(overscan, mode, |im|, printer)
    ensures ToColumnFormat(im, width, grey, slicer, colour, overscan, mode, printer).outcome.Finished?
  {
    var job := Prepare(im, width, grey, slicer, colour, overscan, mode, printer).value;
    EmitSucceeds(job, Start);
  }

  /** With an unknown printer the first pass's channel segments are yielded,
      well framed, before the line feed raises `Unknown printer`. */
  lemma RunUnknownPrinter(im: seq<seq<Rgb>>, width: nat, grey: Plane, slicer: Slicer,
                          colour: string, overscan: nat, mode: int, printer: string)
    requires overscan >= 1 && Rectangular(im, width) && 0 < width && Separable(im, colour)
    requires SlicesFit(slicer, overscan, mode, |im|)
    requires 0 <= mode < 256 && |im| < 0x1_0000 && !KnownPrinter(printer)
    ensures ToColumnFormat(im, width, grey, slicer, colour, overscan, mode, printer).outcome == Raised(UnknownPrinter)
    ensures OnePass(ToColumnFormat(im, width, grey, slicer, colour, overscan, mode, printer).blobs,
                    Channels(colour), mode, |im|)
  {
    var job := Prepare(im, width, grey, slicer, colour, overscan, mode, printer).value;
    EmitUnknownPrinter(job, Start);
    assert job.channels[0..] == Channels(colour);
    PassSummary(Emit(job, Start).blobs, Channels(colour), mode, |im|);
  }

  /** `blobs` are one segment per channel, in order, and no feed: they have
      the byte length of that many segments for `height` rows in `mode`,
      carry matching headers, and decode back to themselves. */
  predicate OnePass(blobs: seq<Blob>, channels: seq<byte>, mode: int, height: nat)
  {
    && Count(blobs, mode, height).selected == channels
    && Count(blobs, mode, height).feeds == []
    && |Flatten(blobs)| == |channels| * (height * GroupWidth(mode) + 9)
    && HeadersAre(blobs, mode, height)
    && Parse(Flatten(blobs)) == Some(blobs)
  }

  /** A run's output whose tally is one segment per channel. */
  lemma PassSummary(blobs: seq<Blob>, channels: seq<byte>, mode: int, height: nat)
    requires WellFramed(blobs)
    requires Count(blobs, mode, height) == Tally(channels, [], Times(|channels|, SegmentBytes(mode, height)), true)
    ensures OnePass(blobs, channels, mode, height)
  {
    CountMeans(blobs, mode, height);
    ParseFlatten(blobs);
    SegmentsAreProduct(|channels|, height, mode, Count(blobs, mode, height).size);
  }
}
