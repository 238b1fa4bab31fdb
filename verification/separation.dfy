/** The exact-primary colour separation of `cmyk` mode
    (columnFormat.py:40-65): each pixel must be one of the eight colours with
    every component 0 or 255, and selects which of the cyan, magenta, yellow
    and black planes mark it. */
module Separation {
  import opened Failures
  import opened BigEndian

  datatype Rgb = Rgb(r: byte, g: byte, b: byte)

  /** Which planes mark one pixel. */
  datatype Inks = Inks(c: bool, m: bool, y: bool, k: bool)

  const Black := Rgb(0, 0, 0)

  predicate IsExtreme(v: byte)
  {
    v == 0 || v == 255
  }

  /** One of the eight colours the separation accepts. */
  predicate IsPrimary(px: Rgb)
  {
    IsExtreme(px.r) && IsExtreme(px.g) && IsExtreme(px.b)
  }

  /** The ink sets the separation produces: black ink alone, or no black
      ink and not all three colour inks. */
  predicate Canonical(inks: Inks)
  {
    if inks.k then !inks.c && !inks.m && !inks.y else !(inks.c && inks.m && inks.y)
  }

  /** The colour the inks print on white paper: a light component survives
      only where neither black nor its complementary ink covers it. */
  function Render(inks: Inks): Rgb
  {
    Rgb(if inks.c || inks.k then 0 else 255,
        if inks.m || inks.k then 0 else 255,
        if inks.y || inks.k then 0 else 255)
  }

  /** The per-pixel case split of columnFormat.py:45-65. */
  function Separate(px: Rgb): (r: Result<Inks>)
    ensures r.Ok? <==> IsPrimary(px)
    ensures r.Err? ==> r.error == UnknownColour(px.r, px.g, px.b)
    ensures r.Ok? && px == Black ==> r.value == Inks(false, false, false, true)
    ensures r.Ok? && px != Black ==> r.value == Inks(px.r == 0, px.g == 0, px.b == 0, false)
    ensures r.Ok? ==> Canonical(r.value) && Render(r.value) == px
  {
    var (r, g, b) := (px.r, px.g, px.b);
    if r == 0 && g == 0 && b == 0 then Ok(Inks(false, false, false, true))
    else if r == 255 && g == 255 && b == 255 then Ok(Inks(false, false, false, false))
    else if r == 255 && g == 0 && b == 0 then Ok(Inks(false, true, true, false))
    else if r == 0 && g == 255 && b == 0 then Ok(Inks(true, false, true, false))
    else if r == 0 && g == 0 && b == 255 then Ok(Inks(true, true, false, false))
    else if r == 255 && g == 255 && b == 0 then Ok(Inks(false, false, true, false))
    else if r == 0 && g == 255 && b == 255 then Ok(Inks(true, false, false, false))
    else if r == 255 && g == 0 && b == 255 then Ok(Inks(false, true, false, false))
    else Err(UnknownColour(r, g, b))
  }

  /** Separation inverts printing: every ink set the separation can produce
      comes back from the colour it prints. */
  lemma SeparateRender(inks: Inks)
    requires Canonical(inks)
    ensures Separate(Render(inks)) == Ok(inks)
  {
  }

  /** Index of the first pixel of a row the separation rejects, or the row's
      length when there is none. */
  function FirstUnknown(row: seq<Rgb>): (x: nat)
    ensures x <= |row|
    ensures forall t :: 0 <= t < x ==> IsPrimary(row[t])
    ensures x < |row| ==> !IsPrimary(row[x])
  {
    if |row| == 0 then 0
    else if !IsPrimary(row[0]) then 0
    else 1 + FirstUnknown(row[1..])
  }

  /** Index of the first row holding a rejected pixel, or the number of rows. */
  function FirstUnknownRow(rows: seq<seq<Rgb>>): (y: nat)
    ensures y <= |rows|
    ensures forall t :: 0 <= t < y ==> FirstUnknown(rows[t]) == |rows[t]|
    ensures y < |rows| ==> FirstUnknown(rows[y]) < |rows[y]|
  {
    if |rows| == 0 then 0
    else if FirstUnknown(rows[0]) < |rows[0]| then 0
    else 1 + FirstUnknownRow(rows[1..])
  }

  /** The inner `for x` loop: one row, stopping at the first rejected pixel. */
  function SeparateRow(row: seq<Rgb>): (r: Result<seq<Inks>>)
    ensures r.Ok? <==> FirstUnknown(row) == |row|
    ensures r.Ok? ==> |r.value| == |row| && forall x :: 0 <= x < |row| ==> Separate(row[x]) == Ok(r.value[x])
    ensures r.Err? ==> var x := FirstUnknown(row);
      x < |row| && r.error == UnknownColour(row[x].r, row[x].g, row[x].b)
  {
    if |row| == 0 then Ok([])
    else
      match Separate(row[0])
      case Err(e) => Err(e)
      case Ok(inks) =>
        match SeparateRow(row[1..])
        case Err(e) => Err(e)
        case Ok(rest) => Ok([inks] + rest)
  }

  /** The whole `for y` / `for x` loop of `cmyk` mode: the ink grid, or the
      exception for the first rejected pixel in row-major order. */
  function SeparateImage(rows: seq<seq<Rgb>>): (r: Result<seq<seq<Inks>>>)
    ensures r.Ok? <==> forall y, x :: 0 <= y < |rows| && 0 <= x < |rows[y]| ==> IsPrimary(rows[y][x])
    ensures r.Ok? ==> |r.value| == |rows| && forall y :: 0 <= y < |rows| ==>
      |r.value[y]| == |rows[y]| && forall x :: 0 <= x < |rows[y]| ==> Separate(rows[y][x]) == Ok(r.value[y][x])
    ensures r.Err? ==> var y := FirstUnknownRow(rows);
      y < |rows| && var x := FirstUnknown(rows[y]);
      x < |rows[y]| && r.error == UnknownColour(rows[y][x].r, rows[y][x].g, rows[y][x].b)
  {
    if |rows| == 0 then Ok([])
    else
      match SeparateRow(rows[0])
      case Err(e) => Err(e)
      case Ok(inks) =>
        match SeparateImage(rows[1..])
        case Err(e) => Err(e)
        case Ok(rest) => Ok([inks] + rest)
  }
}
