/** The generator `_to_column_format` (columnFormat.py:20-133). Its output is
    modelled as a `Run`: the values it yields, in order, and whether it then
    returns or raises. Image decoding, rotation, thresholding and slicing are
    done by PIL and enter as parameters: the `k`-mode plane and a `Slicer`. */
module ColumnFormat {
  import opened Failures
  import opened Bits
  import opened BigEndian
  import opened Interleaver
  import opened Commands
  import opened Printers
  import opened Separation

  /** A 1-bit image, `plane[y][x]`, true where a dot is printed. */
  type Plane = seq<seq<bool>>

  /** `plane.transform((w, h), Image.EXTENT, (x0, 0, x0 + w, h)).tobytes()`. */
  type Slicer = (Plane, int, nat, nat) -> seq<byte>

  datatype Outcome = Finished | Raised(error: Error)

  /** What the generator yields before it returns or raises. */
  datatype Run = Run(blobs: seq<Blob>, outcome: Outcome)

  const Done := Run([], Finished)

  /** Running `b` after `a`: nothing of `b` happens once `a` has raised. */
  function Then(a: Run, b: Run): (r: Run)
    ensures r.outcome.Finished? <==> a.outcome.Finished? && b.outcome.Finished?
    ensures a.outcome.Finished? ==> r.blobs == a.blobs + b.blobs && r.outcome == b.outcome
    ensures a.outcome.Raised? ==> r == a
  {
    if a.outcome.Raised? then a else Run(a.blobs + b.blobs, b.outcome)
  }

  /** Sequencing groups freely and `Done` changes nothing: a run of nested
      loops means the same however its steps are bracketed. */
  lemma ThenAssociates(a: Run, b: Run, c: Run)
    ensures Then(Then(a, b), c) == Then(a, Then(b, c))
    ensures Then(Done, a) == a && Then(a, Done) == a
  {
  }

  datatype Planes = Planes(c: Plane, m: Plane, y: Plane, k: Plane)

  /** The `switcher` dict: channel 4 prints yellow, 2 cyan, 1 magenta, 0 black. */
  function PlaneFor(planes: Planes, channel: byte): Plane
  {
    if channel == 4 then planes.y
    else if channel == 2 then planes.c
    else if channel == 1 then planes.m
    else planes.k
  }

  /** `Image.new("1", size, 0)`: a plane with no dots. */
  function Blank(width: nat, height: nat): Plane
  {
    seq(height, _ => seq(width, _ => false))
  }

  /** The four planes the `cmyk` separation paints. */
  function InkPlanes(grid: seq<seq<Inks>>): Planes
  {
    Planes(seq(|grid|, y requires 0 <= y < |grid| => seq(|grid[y]|, x requires 0 <= x < |grid[y]| => grid[y][x].c)),
           seq(|grid|, y requires 0 <= y < |grid| => seq(|grid[y]|, x requires 0 <= x < |grid[y]| => grid[y][x].m)),
           seq(|grid|, y requires 0 <= y < |grid| => seq(|grid[y]|, x requires 0 <= x < |grid[y]| => grid[y][x].y)),
           seq(|grid|, y requires 0 <= y < |grid| => seq(|grid[y]|, x requires 0 <= x < |grid[y]| => grid[y][x].k)))
  }

  /** The channels of one pass, in emission order. */
  function Channels(colour: string): seq<byte>
  {
    if colour == "cmyk" then [4, 2, 1, 0] else [0]
  }

  /** Slice bytes per pixel row: `overscan * (3 if mode & 32 else 1)`. */
  function LineHeight(overscan: nat, mode: int): nat
  {
    if WideMode(mode) then 3 * overscan else overscan
  }

  /** Everything the block loop works from. */
  datatype Job = Job(channels: seq<byte>, planes: Planes, slicer: Slicer,
                     overscan: nat, mode: int, printer: string, width: nat, height: nat)

  /** How far `left` advances per block: `line_height * 8` pixels. */
  function BlockStep(job: Job): nat
  {
    LineHeight(job.overscan, job.mode) * 8
  }

  /** The row loop `for j in range(0, len(data), line_height)` over a slice of
      `rows` rows of `lh` bytes: one interleaved group of `width` bytes per
      row. */
  function Columns(data: seq<byte>, lh: nat, overscan: nat, width: nat, rows: nat): (cols: seq<Blob>)
    requires overscan >= 1 && |data| == Times(rows, lh)
    ensures |cols| == rows && AreColumns(cols, width)
  {
    seq(rows, y requires 0 <= y < rows => Column(Interleave(RowBytes(data, lh, rows, y), overscan, width)))
  }

  /** `data[j:j + line_height]` for the `y`-th row, `j == y * line_height`. */
  function RowBytes(data: seq<byte>, lh: nat, rows: nat, y: nat): (w: seq<byte>)
    requires |data| == Times(rows, lh) && y < rows
    ensures |w| == lh
  {
    RowInside(lh, rows, y);
    data[y * lh..y * lh + lh]
  }

  lemma RowInside(lh: nat, rows: nat, y: nat)
    requires y < rows
    ensures y * lh + lh <= Times(rows, lh)
  {
    TimesIsProduct(rows, lh);
    assert rows * lh == (y + 1) * lh + (rows - y - 1) * lh;
  }

  /** `len(data) % line_height == 0 and len(data) == height * line_height`
      holds exactly when the second conjunct does, and then
      `len(data) // line_height == height`. */
  lemma SliceAssertions(length: nat, height: nat, lh: nat)
    requires lh > 0
    ensures (length % lh == 0 && length == height * lh) <==> length == height * lh
    ensures length == height * lh ==> length / lh == height
  {
    DivCancel(height, lh);
  }

  /** One channel of one pass (columnFormat.py:94-118) from its slice bytes:
      the assertions on the slice length come first, then the channel select,
      the graphics command whose count is the slice's pixel rows, one group per
      row and `\r`. The two assertions are checked here as the second alone,
      and the count `len(data) // line_height` as `height`, which
      `SliceAssertions` shows changes nothing; `Times(height, lh)` is
      `height * lh` (`TimesIsProduct`). */
  function Segment(channel: byte, data: seq<byte>, overscan: nat, mode: int, height: nat): (r: Run)
    requires overscan >= 1
    ensures r.outcome.Finished? <==>
      |data| == Times(height, LineHeight(overscan, mode)) && 0 <= mode < 256 && height < 0x1_0000
    ensures |data| != Times(height, LineHeight(overscan, mode)) ==> r == Run([], Raised(SliceLength))
    ensures |data| == Times(height, LineHeight(overscan, mode)) && r.outcome.Raised? ==>
      r == Run([Select(channel)], Raised(PackRange))
    ensures r.outcome.Finished? ==>
      && |r.blobs| == height + 3
      && r.blobs[0] == Select(channel)
      && r.blobs[1] == Graphics(mode, height)
      && AreColumns(r.blobs[2..height + 2], GroupWidth(mode))
      && r.blobs[height + 2] == Return
  {
    var lh := LineHeight(overscan, mode);
    if |data| != Times(height, lh) then Run([], Raised(SliceLength))
    else if !(0 <= mode < 256) || !(height < 0x1_0000) then Run([Select(channel)], Raised(PackRange))
    else Run([Select(channel), Graphics(mode, height)] + Columns(data, lh, overscan, GroupWidth(mode), height) + [Return], Finished)
  }

  /** The slice of `channel` for pass `i` of the block at `left`. */
  function Slice(job: Job, channel: byte, left: int, i: nat): seq<byte>
  {
    job.slicer(PlaneFor(job.planes, channel), left + i, BlockStep(job), job.height)
  }

  /** The feed command that ends pass `i`, or the exception it raises. */
  function FeedRun(job: Job, i: nat): Run
    requires i < job.overscan
  {
    match LineFeed(job.printer, i, job.overscan)
    case Ok(b) => Run([b], Finished)
    case Err(e) => Run([], Raised(e))
  }

  /** Where the three nested loops of columnFormat.py:76-133 stand: the block
      at `left` (`while left < width_pixels`), its pass `pass`
      (`for i in range(0, overscan)`) and the position `channel` in
      `colours` (`for col in colours`); `channel == |colours|` is the line
      feed that ends the pass. */
  datatype Cursor = Cursor(left: nat, pass: nat, channel: nat)

  const Start := Cursor(0, 0, 0)

  predicate Valid(job: Job, c: Cursor)
  {
    c.pass < job.overscan && c.channel <= |job.channels|
  }

  /** What the loops yield at `c`: the segment of channel `colours[channel]`
      for this pass, or the pass's line feed. */
  function Step(job: Job, c: Cursor): Run
    requires job.overscan >= 1 && Valid(job, c)
  {
    if c.channel < |job.channels| then
      var col := job.channels[c.channel];
      Segment(col, Slice(job, col, c.left, c.pass), job.overscan, job.mode, job.height)
    else FeedRun(job, c.pass)
  }

  /** The next turn of the loops: the next channel, else the next pass, else
      the next block, `line_height * 8` pixels further on. */
  function Next(job: Job, c: Cursor): (d: Cursor)
    requires Valid(job, c)
    ensures Valid(job, d)
  {
    if c.channel < |job.channels| then Cursor(c.left, c.pass, c.channel + 1)
    else if c.pass + 1 < job.overscan then Cursor(c.left, c.pass + 1, 0)
    else Cursor(c.left + BlockStep(job), 0, 0)
  }

  /** Everything the loops yield from `c` on, and how they end: the block
      loop stops once `left` reaches the width, and the first exception ends
      the run. */
  function Emit(job: Job, c: Cursor): Run
    requires job.overscan >= 1 && Valid(job, c)
    decreases job.width - c.left, job.overscan - c.pass, |job.channels| - c.channel
  {
    if c.left >= job.width then Done
    else Then(Step(job, c), Emit(job, Next(job, c)))
  }

  /** The colour-mode dispatch of columnFormat.py:40-71: the planes to print,
      or the exception raised before anything is yielded. */
  function Prepare(im: seq<seq<Rgb>>, width: nat, grey: Plane, slicer: Slicer,
                   colour: string, overscan: nat, mode: int, printer: string): (r: Result<Job>)
    ensures r.Ok? ==>
      && r.value.channels == Channels(colour) && r.value.overscan == overscan
      && r.value.mode == mode && r.value.printer == printer
      && r.value.width == width && r.value.height == |im| && r.value.slicer == slicer
    ensures colour != "cmyk" && colour != "k" ==> r == Err(UnknownColourMode)
    ensures colour == "k" ==> r.Ok? && r.value.planes.k == grey
    ensures colour == "cmyk" ==> (r.Ok? <==> SeparateImage(im).Ok?)
    ensures colour == "cmyk" && r.Err? ==> r.error == SeparateImage(im).error
  {
    if colour == "cmyk" then
      match SeparateImage(im)
      case Err(e) => Err(e)
      case Ok(grid) => Ok(Job(Channels(colour), InkPlanes(grid), slicer, overscan, mode, printer, width, |im|))
    else if colour == "k" then
      var blank := Blank(width, |im|);
      Ok(Job(Channels(colour), Planes(blank, blank, blank, grey), slicer, overscan, mode, printer, width, |im|))
    else Err(UnknownColourMode)
  }

  /** `_to_column_format(im, colour, overscan, mode, printer)`, for an image of
      `|im|` rows of `width` pixels already rotated for printing. */
  function ToColumnFormat(im: seq<seq<Rgb>>, width: nat, grey: Plane, slicer: Slicer,
                          colour: string, overscan: nat, mode: int, printer: string): (r: Run)
    requires overscan >= 1
    requires forall y :: 0 <= y < |im| ==> |im[y]| == width
  {
    match Prepare(im, width, grey, slicer, colour, overscan, mode, printer)
    case Err(e) => Run([], Raised(e))
    case Ok(job) => Emit(job, Start)
  }
}
