# png2escp column encoder, modelled in Dafny

png2escp prints PNG images on ESC/P dot-matrix printers. Its core is the
generator `_to_column_format(im, colour, overscan, mode, printer)` in
`columnFormat.py`. It turns an image into a stream of printer commands:

- for every block of `line_height * 8` pixel columns,
- for each of `overscan` passes, each shifted one pixel down,
- for each colour channel (4 yellow, 2 cyan, 1 magenta, 0 black in `cmyk`
  mode; only 0 in `k` mode), it yields
  - `ESC 'r' <channel>`,
  - `ESC '*' <mode> <rows as u16 little-endian>`,
  - one interleaved column group of 1 or 3 bytes per row,
  - and `\r`;
- and after each pass a line spacing and feed: `ESC '+' n \n` on the
  24-pin printer, `ESC '3' n \n` on the 9-pin one.

The interleaver keeps every `overscan`-th dot of a slice row. Bit `k` of the
output is bit `overscan*k + overscan - 1` of the row read as a big-endian
integer. In `cmyk` mode every pixel must be one of the eight exact primaries.
Each primary decides which of the C, M, Y and K planes print it.

The model is a set of pure functions over immutable values:

| file | module | what it holds |
|---|---|---|
| `failures.dfy` | `Failures` | the exceptions the generator raises, `Result` and `Option` |
| `bits.dfy` | `Bits` | Python's `<<`, `>>`, `&`, `|` on naturals; `Times` (repeated addition); facts about division |
| `big_endian.dfy` | `BigEndian` | bytes ↔ big-endian integers (`bitstring`'s `uintbe`); dots of a byte run |
| `interleave.dfy` | `Interleaver` | the bit interleaver of lines 105-114 |
| `separation.dfy` | `Separation` | the exact-primary colour separation of lines 40-65 |
| `commands.dfy` | `Commands` | the yielded commands, their bytes, and a decoder for the stream |
| `printers.dfy` | `Printers` | the line feed after each pass, lines 120-131 |
| `column_format.dfy` | `ColumnFormat` | the generator: colour-mode dispatch, channel segments, the three nested loops |
| `segment.dfy` | `SegmentProperties` | what one channel segment writes |
| `tally.dfy` | `Tallies` | what a stretch of output amounts to: channels, spacings, bytes, headers |
| `encoder_properties.dfy` | `EncoderProperties` | what the loops yield as a whole, and when they finish or raise |
| `layout.dfy` | `Layout` | the printout written out by block, pass and channel position, and the proof that the loops produce it |
| `guarantees.dfy` | `Guarantees` | the same facts stated on the generator's own arguments |

A run of the generator is a `Run`: the values yielded, in order, and an
`Outcome`. The outcome is `Finished`, or `Raised(e)` after the yields that
came before the exception. The three nested loops are one recursive function,
`Emit`, over a `Cursor(left, pass, channel)`. Here `channel == |colours|`
stands for the line feed that ends the pass.

The printer is looked at only when the first pass's line feed is due, after
that pass's channel segments have been yielded (columnFormat.py:120-131). An
unknown printer therefore raises after some output, and an image without
columns never looks at the printer at all.

PIL does the image work and enters the model as parameters:

- the image arrives already rotated, as rows of `Rgb` pixels;
- the `k`-mode plane is a `Plane` argument;
- `transform(..., EXTENT, box).tobytes()` is a `Slicer` function argument.

## Model

| member | source | states |
|---|---|---|
| `BigEndian.FromBytes` | columnFormat.py:107 | a window of `n` bytes read big-endian is below `2^(8n)` |
| `BigEndian.ToBytes` | columnFormat.py:114 | an integer that fits is written as exactly `len` bytes that read back as the same integer |
| `BigEndian.ToFromBytes` | columnFormat.py:107-114 | writing back the integer read from bytes gives the same bytes |
| `BigEndian.BitOfFromBytes` | columnFormat.py:107 | bit `p` of the integer is dot `8*len - 1 - p` of the bytes: the first byte's top bit is the first dot |
| `Interleaver.ShiftAmount` | columnFormat.py:112 | the right shift `overscan*k - k + overscan - 1` is never negative, and the shift plus `k` is the source bit |
| `Interleaver.GatherStep` | columnFormat.py:112 | one `byte \|= ((1 << src) & sparse) >> shift` appends source bit `overscan*k + overscan - 1` as bit `k` and keeps the earlier bits |
| `Interleaver.Gather` | columnFormat.py:109-112 | after `count` turns the accumulator is below `2^count`, and each bit `q` is sparse bit `overscan*q + overscan - 1` |
| `Interleaver.Interleave` | columnFormat.py:107-114 | each group has 1 or 3 bytes, as `Bits(uintbe=byte, length=…)` writes it |
| `Interleaver.InterleaveBits` | columnFormat.py:107-114 | bit `k` of the output group is bit `overscan*k + overscan - 1` of the window |
| `Interleaver.InterleaveIdentity` | columnFormat.py:107-114 | with `overscan == 1` the output group is the window, byte for byte |
| `Interleaver.ReadsInsideWindow` | columnFormat.py:106-112 | every bit read lies inside the `overscan * width`-byte window, and the last bit read is the window's most significant bit, its first dot |
| `Interleaver.InterleaveDots` | columnFormat.py:107-114 | dot `m` of the output group is dot `overscan*m` of the window |
| `Separation.Separate` | columnFormat.py:45-65 | a pixel separates iff each component is 0 or 255. Black marks only K and white marks nothing. Any other primary marks C iff `r==0`, M iff `g==0`, Y iff `b==0`, and never K. Other colours raise with the pixel's values. Printing the inks gives the pixel back |
| `Separation.SeparateRender` | columnFormat.py:45-63 | every ink set the separation can produce is recovered from the colour it prints |
| `Separation.FirstUnknown` | columnFormat.py:42-44 | the first pixel of a row the separation rejects: every pixel before it is a primary and it is not |
| `Separation.FirstUnknownRow` | columnFormat.py:41-44 | the first row holding a rejected pixel, every earlier row being all primaries |
| `Separation.SeparateRow` | columnFormat.py:42-65 | a row separates iff it has no rejected pixel. Each value is its pixel's separation. Otherwise the first rejected pixel is named |
| `Separation.SeparateImage` | columnFormat.py:40-65 | the image separates iff every pixel is a primary, pixel by pixel, and otherwise raises for the first rejected pixel in row-major order |
| `Commands.ParseFlatten` | columnFormat.py:101-129 | the bytes of any well-framed command stream decode back to the same commands |
| `Printers.LineFeed` | columnFormat.py:120-131 | an unknown printer raises. Otherwise the feed is `ESC '+'` (24-pin) or `ESC '3'` (9-pin) with spacing 1 between passes and `48 - overscan + 1` or `24 - overscan + 1` after the last. Packing raises exactly when that last spacing is negative |
| `Printers.PassFeeds` | columnFormat.py:79-129 | one spacing per pass |
| `Printers.FeedConservation` | columnFormat.py:120-129 | the spacings of one block add up to 48 (24-pin) or 24 (9-pin), whatever the overscan |
| `ColumnFormat.ThenAssociates` | columnFormat.py:76-133 | how the loops' yields are grouped into steps does not matter: sequencing runs is associative, and an empty run changes nothing on either side |
| `ColumnFormat.Columns` | columnFormat.py:106-114 | one column group of the mode's width per slice row |
| `ColumnFormat.SliceAssertions` | columnFormat.py:98-103 | the two slice assertions hold exactly when the second does, and then `len(data) // line_height` is the row count |
| `ColumnFormat.Segment` | columnFormat.py:94-118 | a channel segment completes iff the slice has `height * line_height` bytes, the mode fits a byte and the row count fits a u16. A wrong length raises before anything is yielded. A value that does not pack raises after the channel select. A completed segment is select, graphics header, `height` groups and `\r` |
| `ColumnFormat.Prepare` | columnFormat.py:40-71 | an unknown colour mode raises, and `cmyk` raises iff the separation does, with its exception. `k` prints the given plane. The channels are 4,2,1,0 for `cmyk` and 0 for `k` |
| `SegmentProperties.SegmentHeader` | columnFormat.py:101-103 | a completed segment starts with `ESC 'r' ch ESC '*' mode lo hi`, where `lo hi` is the row count `len(data) // line_height` as a little-endian u16 |
| `SegmentProperties.SegmentGroups` | columnFormat.py:105-118 | column group `y` is the interleaving of slice row `y`, and the groups hold `len(data) // overscan` bytes, which is the `ai` assertion |
| `SegmentProperties.SegmentPayloadIdentity` | columnFormat.py:105-116 | with `overscan == 1` the payload written between header and `\r` is the slice itself |
| `EncoderProperties.SegmentSummary` | columnFormat.py:101-116 | a completed segment selects its channel once and feeds nothing. It is well framed, has `height * group + 9` bytes, and its header carries the mode and row count |
| `EncoderProperties.FeedSummary` | columnFormat.py:120-131 | a yielded feed needs a known printer. It carries the pass's spacing, and after the last pass it needs `overscan <= 48 + 1` (or `24 + 1`) |
| `EncoderProperties.BlockCountIsCeiling` | columnFormat.py:76-133 | the `while left < width` loop, advancing by `line_height * 8`, turns `ceil((width - left) / step)` times |
| `EncoderProperties.EmitCount` | columnFormat.py:76-133 | from any point of the loops, a completed run yields the rest of this pass's channels, then one spacing per pass and `colours` once per pass for every block left, with the matching byte count |
| `EncoderProperties.EmitFramed` | columnFormat.py:76-133 | a completed run's output is well framed: every graphics header is followed by exactly its count of groups and `\r` |
| `EncoderProperties.EmitChecks` | columnFormat.py:120-131 | a block that completes has met a known printer whose last spacing packs |
| `EncoderProperties.EmitSucceeds` | columnFormat.py:76-133 | with slices of the right length and values that pack, the loops complete |
| `EncoderProperties.EmitUnknownPrinter` | columnFormat.py:79-131 | with an unknown printer, the rest of the pass's channel segments are yielded, well framed, and then the printer exception is raised |
| `EncoderProperties.EmitOpens` | columnFormat.py:101-131 | a completed run over an image with columns packed its mode and row count and met a known printer |
| `EncoderProperties.EmitWhole` | columnFormat.py:76-133 | a completed run yields `colours` once per pass and block, and each pass's spacing once per block, for `BlockCount` blocks |
| `Layout.BlockCountFromZero` | columnFormat.py:76-133 | the block loop turns `ceil(width / (line_height * 8))` times |
| `Layout.InkPlanesAgree` | columnFormat.py:40-92 | the plane the `switcher` dict hands to colour code 4, 2, 1 or 0 marks exactly the pixels whose separation uses yellow, cyan, magenta or black |
| `Layout.EmitLayout` | columnFormat.py:76-133 | from any point of the loops in block `b`, a completed run yields the rest of this pass's channel segments, this pass's feed, the later passes of the block and the later blocks, each laid out as below |
| `Layout.JobLayout` | columnFormat.py:76-133 | a completed run yields nothing for an image without columns. Otherwise it yields, for each of the `ceil(width / (line_height*8))` blocks `b` and each pass `i`, the segment of every channel in `colours` order sliced from column `b * line_height * 8 + i` of that channel's plane, followed by pass `i`'s feed |
| `Guarantees.CmykPlanes` | columnFormat.py:45-63 | in `cmyk` mode the four planes mark, at each pixel, exactly the inks the separation picks for it |
| `Guarantees.RunUnknownColourMode` | columnFormat.py:70-71 | a colour mode other than `cmyk` and `k` raises before anything is yielded |
| `Guarantees.RunUnknownColour` | columnFormat.py:40-65 | in `cmyk` mode a non-primary pixel raises before anything is yielded, naming the first such pixel in row-major order |
| `Guarantees.RunEmptyImage` | columnFormat.py:74-76 | an image without columns yields nothing and completes, whatever the printer |
| `Guarantees.RunNeedsSeparable` | columnFormat.py:40-71 | a completed run had a known colour mode and, in `cmyk` mode, only primary pixels |
| `Guarantees.RunChecks` | columnFormat.py:101-131 | a completed run over an image with columns had a known printer, a last spacing that packs, a mode byte and a u16 row count |
| `Guarantees.RunYields` | columnFormat.py:73-133 | a completed run selects channels 4,2,1,0 (or 0) once per pass and feeds each pass's spacing once per block, over `ceil(width / (line_height*8))` blocks. It writes `blocks * (overscan * (channels * (height * group + 9) + 4))` bytes. Every header has the mode and row count, and the bytes decode back to the yielded commands |
| `Guarantees.RunLayout` | columnFormat.py:73-133 | a completed run over an image with columns had a known printer whose last spacing packs. It yields, block by block and pass by pass, each channel's segment in `colours` order and then the pass's feed. Channel 4, 2, 1 or 0 prints the pixels whose separation uses yellow, cyan, magenta or black in `cmyk` mode, and the grey plane in `k` mode, sliced from column `b * line_height * 8 + i`. An image without columns yields nothing |
| `Guarantees.RunSucceeds` | columnFormat.py:73-133 | with a known colour mode, separable pixels, slices of the right length and values that pack, the run completes |
| `Guarantees.RunUnknownPrinter` | columnFormat.py:79-131 | with an unknown printer and an image with columns, the first pass's channel segments are yielded, well framed, and then the printer exception is raised |

## Left out

- PIL: `convert`, `transpose`, `Image.new`, `ImageOps.invert`, the `"1"`
  threshold, `transform(..., EXTENT, box)` and `tobytes` (columnFormat.py:31-36, 67-69, 94-96).
  - These are foreign library calls.
  - The rotated image, the `k`-mode plane and the slicer are parameters.
  - The model does not know PIL's slice length. `SlicesFit` states it as an
    assumption of the theorems that need it.
- `bitstring` (columnFormat.py:107, 114): replaced by `FromBytes` and `ToBytes`.
- The `__main__` block (columnFormat.py:135-153): argument parsing and
  writing to stdout.
- fontrenderer.py and topng9.py: file and PNG handling through PIL.
- Generator laziness: a `Run` is the whole sequence of yields. A consumer
  that stops early is not modelled.
- `overscan < 1` is excluded by a precondition of the loops. In the source
  an unknown colour mode or a non-primary pixel still raises first; `Prepare`
  models that for every overscan. After that, an image without columns
  finishes at once. With columns, `overscan == 0` makes `line_height` 0, so
  `left` never advances. A negative overscan makes `line_height` negative, so
  `left` moves backwards. Either way `range(0, overscan)` is empty and the
  generator loops forever without yielding. The model's overscan is a natural
  number, so only the zero case is excluded explicitly.
- Exception types:
  - `struct.error` is `PackRange`;
  - a failed slice assertion is `SliceLength`;
  - the three `Exception`s have one constructor each.
  - `struct.pack("<B", col)` cannot fail, because the channels are 0-4.
- `ColumnFormat.Segment` checks the assertions of lines 98-99 as one test, the
  second, and emits the count as `height`. `ColumnFormat.SliceAssertions`
  proves this is the same.
- The assertion of line 118 has no failure path. `SegmentProperties.SegmentGroups`
  proves it always holds.
- Sizes use `Times` (repeated addition) inside the recursive definitions.
  `TimesIsProduct` and the `Guarantees` theorems restate them as products.
