/** The line feed that ends every pass (columnFormat.py:120-131). Only the
    "24pin" and "9pin" printers are known. */
module Printers {
  import opened Failures
  import opened BigEndian
  import opened Commands

  predicate KnownPrinter(printer: string)
  {
    printer == "24pin" || printer == "9pin"
  }

  /** The spacing one whole block advances the paper: 48/360 inch on the
      24-pin printer, 24/216 inch on the 9-pin one: one print-head height. */
  function BlockFeed(printer: string): int
    requires KnownPrinter(printer)
  {
    if printer == "24pin" then 48 else 24
  }

  /** The spacing command: `ESC '+'` on the 24-pin printer, `ESC '3'` on the
      9-pin one. */
  function FeedOpFor(printer: string): byte
    requires KnownPrinter(printer)
  {
    if printer == "24pin" then Feed24Op else Feed9Op
  }

  /** The spacing after pass `i` of `overscan`: one unit between passes, and
      what is left of the block after the last pass. */
  function FeedAmount(printer: string, i: nat, overscan: nat): int
    requires KnownPrinter(printer) && i < overscan
  {
    if i < overscan - 1 then 1 else BlockFeed(printer) - overscan + 1
  }

  /** The feed command after pass `i`. The printer is checked here, after
      the pass's graphics; `struct.pack("<B", …)` raises once the last
      pass's spacing goes negative. */
  function LineFeed(printer: string, i: nat, overscan: nat): (r: Result<Blob>)
    requires i < overscan
    ensures !KnownPrinter(printer) ==> r == Err(UnknownPrinter)
    ensures KnownPrinter(printer) ==> (r.Ok? <==> i < overscan - 1 || overscan <= BlockFeed(printer) + 1)
    ensures KnownPrinter(printer) && r.Err? ==> r.error == PackRange
    ensures r.Ok? ==> KnownPrinter(printer) && r.value == Feed(FeedOpFor(printer), FeedAmount(printer, i, overscan))
  {
    if printer == "24pin" || printer == "9pin" then
      var n := FeedAmount(printer, i, overscan);
      if 0 <= n < 256 then Ok(Feed(FeedOpFor(printer), n)) else Err(PackRange)
    else Err(UnknownPrinter)
  }

  /** The spacing after each pass of one block, in pass order. */
  function PassFeeds(printer: string, overscan: nat): (s: seq<int>)
    requires KnownPrinter(printer)
    ensures |s| == overscan
  {
    seq(overscan, i requires 0 <= i < overscan => FeedAmount(printer, i, overscan))
  }

  function Sum(s: seq<int>): int
  {
    if |s| == 0 then 0 else Sum(s[..|s| - 1]) + s[|s| - 1]
  }

  lemma {:induction false} SumOfOnes(s: seq<int>)
    requires forall t :: 0 <= t < |s| ==> s[t] == 1
    ensures Sum(s) == |s|
    decreases |s|
  {
    if |s| > 0 {
      SumOfOnes(s[..|s| - 1]);
    }
  }

  /** However many passes a block is printed in, its feeds add up to the
      same block spacing, so successive blocks line up. */
  lemma FeedConservation(printer: string, overscan: nat)
    requires KnownPrinter(printer) && overscan >= 1
    ensures Sum(PassFeeds(printer, overscan)) == BlockFeed(printer)
  {
    var s := PassFeeds(printer, overscan);
    SumOfOnes(s[..overscan - 1]);
    assert s[overscan - 1] == BlockFeed(printer) - overscan + 1;
  }
}
