/** The styled cell grid of frozen_term: a fixed-size, row-major buffer of
    symbols (a character plus its format) with bounds-checked writes, an
    in-place scroll, a row view and the per-cell span rendering. */
module Grid {
  import opened Wrappers

  /** An RGBA colour of the GUI toolkit; its components are carried, never computed. */
  datatype Color = Color(r: real, g: real, b: real, a: real)

  datatype Format = Format(
    foreground: Option<Color>,
    background: Option<Color>,
    bold: bool,
    faint: bool,
    italic: bool,
    underline: bool,
    blinking: bool,
    inverse: bool,
    hidden: bool,
    strikethrough: bool)

  /** No colours and every flag off. */
  function DefaultFormat(): Format {
    Format(None, None, false, false, false, false, false, false, false, false)
  }

  datatype Symbol = Symbol(c: char, format: Format)

  /** The symbol a fresh or cleared cell holds. */
  function Blank(): Symbol {
    Symbol(' ', DefaultFormat())
  }

  datatype OutOfBoundsError =
    | XOutOfBounds(x: nat, width: nat)
    | YOutOfBounds(y: nat, height: nat)
    | IndexOutOfBounds(index: nat, len: nat)

  /** `Result<(), OutOfBoundsError>` */
  datatype Outcome = Ok | Err(error: OutOfBoundsError)

  /** One end of a Rust range over the flat buffer. */
  datatype Bound = Included(n: nat) | Excluded(n: nat) | Unbounded

  datatype Range = Range(start: Bound, end: Bound)

  /** First index a range covers. */
  function StartIndex(b: Bound): nat {
    match b
    case Included(x) => x
    case Excluded(x) => x + 1
    case Unbounded => 0
  }

  /** One past the last index a range covers, on a buffer of `len` symbols. */
  function EndIndex(b: Bound, len: nat): nat {
    match b
    case Included(x) => x + 1
    case Excluded(x) => x
    case Unbounded => len
  }

  function Repeat<T>(v: T, n: nat): (r: seq<T>)
    ensures |r| == n && forall i :: 0 <= i < n ==> r[i] == v
  {
    seq(n, _ => v)
  }

  // ---------------------------------------------------------------------
  // Rows: the buffer cut into consecutive chunks

  /** The buffer cut into pieces of `w` symbols, the last one possibly
      shorter, as Rust's `chunks(w)`. */
  function Chunks<T>(s: seq<T>, w: nat): seq<seq<T>>
    requires w > 0
    decreases |s|
  {
    if |s| == 0 then []
    else if |s| <= w then [s]
    else [s[..w]] + Chunks(s[w..], w)
  }

  function Concat<T>(ss: seq<seq<T>>): seq<T> {
    if ss == [] then [] else ss[0] + Concat(ss[1..])
  }

  /** Joining the chunks back together gives the buffer again. */
  lemma {:induction false} ChunksConcat<T>(s: seq<T>, w: nat)
    requires w > 0
    ensures Concat(Chunks(s, w)) == s
    decreases |s|
  {
    if |s| == 0 {
    } else if |s| <= w {
      assert Concat([s]) == s + Concat([s][1..]);
    } else {
      ChunksConcat(s[w..], w);
      var cs := [s[..w]] + Chunks(s[w..], w);
      assert cs[1..] == Chunks(s[w..], w);
      assert s == s[..w] + s[w..];
    }
  }

  /** Flat index of the first symbol of row y when rows hold w symbols;
      a grid of h rows holds RowStart(h, w) symbols. */
  function RowStart(y: nat, w: nat): nat {
    if y == 0 then 0 else RowStart(y - 1, w) + w
  }

  /** RowStart is the row-major offset y*w. */
  lemma {:induction false} RowStartIsProduct(y: nat, w: nat)
    ensures RowStart(y, w) == y * w
  {
    if y > 0 {
      RowStartIsProduct(y - 1, w);
      assert (y - 1) * w + w == y * w;
    }
  }

  lemma {:induction false} RowStartMono(y: nat, y': nat, w: nat)
    requires y <= y'
    ensures RowStart(y, w) <= RowStart(y', w)
    decreases y'
  {
    if y < y' {
      RowStartMono(y, y' - 1, w);
    }
  }

  /** Cell (x, y) of a w-by-h grid lies inside row y, inside the buffer. */
  lemma CellIndex(x: nat, y: nat, w: nat, h: nat)
    requires x < w && y < h
    ensures RowStart(y, w) + x < RowStart(y + 1, w) <= RowStart(h, w)
  {
    RowStartMono(y + 1, h, w);
  }

  /** Dropping the first row shifts every row start down by one row. */
  lemma ShiftRowStart(y: nat, w: nat)
    ensures RowStart(y + 1, w) == w + RowStart(y, w)
  {
  }

  /** A buffer of exactly `h` rows of `w` symbols cuts into `h` chunks of
      `w` symbols each. */
  lemma {:induction false} ChunksShape<T>(s: seq<T>, w: nat, h: nat)
    requires w > 0 && |s| == RowStart(h, w)
    ensures |Chunks(s, w)| == h
    ensures forall y :: 0 <= y < h ==> |Chunks(s, w)[y]| == w
    decreases h
  {
    if h > 1 {
      ShiftRowStart(h - 1, w);
      ChunksShape(s[w..], w, h - 1);
      assert Chunks(s, w) == [s[..w]] + Chunks(s[w..], w);
    }
  }

  /** Pieces of `w` symbols each, joined and cut again, are the same pieces:
      the other half of the round trip with ChunksConcat. */
  lemma {:induction false} ConcatChunks<T>(ps: seq<seq<T>>, w: nat)
    requires w > 0 && forall i :: 0 <= i < |ps| ==> |ps[i]| == w
    ensures |Concat(ps)| == RowStart(|ps|, w)
    ensures Chunks(Concat(ps), w) == ps
    decreases |ps|
  {
    if ps != [] {
      ConcatChunks(ps[1..], w);
      ShiftRowStart(|ps| - 1, w);
      var c := Concat(ps);
      assert c == ps[0] + Concat(ps[1..]);
      assert c[..w] == ps[0];
      assert c[w..] == Concat(ps[1..]);
      if |ps| == 1 {
        assert ps[1..] == [];
        assert c == ps[0];
        assert ps == [c];
      } else {
        assert RowStart(|ps| - 1, w) >= w;
        assert ps == [ps[0]] + ps[1..];
      }
    }
  }

  lemma {:induction false} ConcatAppend<T>(ps: seq<seq<T>>, p: seq<T>)
    ensures Concat(ps + [p]) == Concat(ps) + p
    decreases |ps|
  {
    if ps == [] {
      assert [p][1..] == [];
    } else {
      ConcatAppend(ps[1..], p);
      assert (ps + [p])[1..] == ps[1..] + [p];
    }
  }

  /** Shifting the buffer left by one row and appending a blank row moves
      every row up by one and makes the last row blank. */
  lemma {:induction false} ChunksScroll<T>(s: seq<T>, blank: T, w: nat, h: nat)
    requires w > 0 && h > 0 && |s| == RowStart(h, w)
    ensures Chunks(s[w..] + Repeat(blank, w), w) == Chunks(s, w)[1..] + [Repeat(blank, w)]
  {
    var rows := Chunks(s, w);
    ChunksShape(s, w, h);
    ChunksConcat(s, w);
    var shifted := rows[1..] + [Repeat(blank, w)];
    ConcatAppend(rows[1..], Repeat(blank, w));
    assert Concat(rows) == rows[0] + Concat(rows[1..]);
    assert s[w..] == Concat(rows[1..]);
    ConcatChunks(shifted, w);
  }

  /** Writing column x of piece y of equal-length pieces writes flat index
      y*w+x of their concatenation. */
  lemma {:induction false} ConcatUpdate<T>(ps: seq<seq<T>>, w: nat, x: nat, y: nat, v: T)
    requires forall i :: 0 <= i < |ps| ==> |ps[i]| == w
    requires x < w && y < |ps|
    ensures RowStart(y, w) + x < |Concat(ps)|
    ensures Concat(ps[y := ps[y][x := v]]) == Concat(ps)[RowStart(y, w) + x := v]
    decreases y
  {
    var qs := ps[y := ps[y][x := v]];
    assert Concat(ps) == ps[0] + Concat(ps[1..]);
    assert Concat(qs) == qs[0] + Concat(qs[1..]);
    if y == 0 {
      assert qs[1..] == ps[1..];
    } else {
      ConcatUpdate(ps[1..], w, x, y - 1, v);
      ShiftRowStart(y - 1, w);
      assert qs[1..] == ps[1..][y - 1 := ps[1..][y - 1][x := v]];
    }
  }

  /** Writing cell (x, y) of the flat buffer changes exactly column x of row y. */
  lemma SetCellInRows<T>(s: seq<T>, w: nat, h: nat, x: nat, y: nat, v: T)
    requires w > 0 && |s| == RowStart(h, w) && x < w && y < h
    ensures RowStart(y, w) + x < |s|
    ensures |Chunks(s, w)| == h && |Chunks(s, w)[y]| == w
    ensures Chunks(s[RowStart(y, w) + x := v], w) == Chunks(s, w)[y := Chunks(s, w)[y][x := v]]
  {
    var rows := Chunks(s, w);
    ChunksShape(s, w, h);
    ChunksConcat(s, w);
    ConcatUpdate(rows, w, x, y, v);
    ConcatChunks(rows[y := rows[y][x := v]], w);
  }

  // ---------------------------------------------------------------------
  // Fonts and spans

  datatype Family = Serif | SansSerif | Cursive | Fantasy | Monospace
  datatype Weight = Thin | ExtraLight | Light | Normal | Medium | Semibold | Bold | ExtraBold | Black
  datatype FontStyle = Normal | Italic | Oblique

  /** A font request; the stretch, always the default here, is left out. */
  datatype Font = Font(family: Family, weight: Weight, style: FontStyle)

  /** The toolkit's monospace font with default weight and style. */
  function Monospace(): Font {
    Font(Family.Monospace, Weight.Normal, FontStyle.Normal)
  }

  /** The font a cell is drawn with: bold wins over faint, italic is independent. */
  function RetrieveFont(format: Format): (font: Font)
    ensures font.family == Family.Monospace
    ensures font.weight == Weight.Bold <==> format.bold
    ensures font.weight == Weight.Light <==> !format.bold && format.faint
    ensures font.weight == Weight.Normal <==> !format.bold && !format.faint
    ensures font.style == FontStyle.Italic <==> format.italic
    ensures font.style == FontStyle.Normal <==> !format.italic
    ensures !format.bold && !format.faint && !format.italic ==> font == Monospace()
  {
    var font := Monospace();
    var font := if format.bold then font.(weight := Weight.Bold)
                else if format.faint then font.(weight := Weight.Light)
                else font;
    if format.italic then font.(style := FontStyle.Italic) else font
  }

  /** A one-character span of rich text; `None` leaves the surrounding default. */
  datatype ViewSpan = ViewSpan(
    text: char,
    color: Option<Color>,
    background: Option<Color>,
    underline: bool,
    strikethrough: bool,
    font: Option<Font>)

  /** The span drawn for one cell: a hidden cell shows a space but keeps its styling. */
  function CellSpan(symbol: Symbol): ViewSpan {
    var f := symbol.format;
    ViewSpan(if f.hidden then ' ' else symbol.c,
             f.foreground, f.background, f.underline, f.strikethrough,
             Some(RetrieveFont(f)))
  }

  /** The unstyled span that ends a row. */
  function NewlineSpan(): ViewSpan {
    ViewSpan('\n', None, None, false, false, None)
  }

  function CellSpans(row: seq<Symbol>): (r: seq<ViewSpan>)
    ensures |r| == |row|
  {
    seq(|row|, i requires 0 <= i < |row| => CellSpan(row[i]))
  }

  /** One row as rich text: its cells' spans, then a newline span. */
  function RowView(row: seq<Symbol>): seq<ViewSpan> {
    CellSpans(row) + [NewlineSpan()]
  }

  function RowViews(rows: seq<seq<Symbol>>): (r: seq<seq<ViewSpan>>)
    ensures |r| == |rows|
  {
    seq(|rows|, y requires 0 <= y < |rows| => RowView(rows[y]))
  }

  lemma CellSpansStep(row: seq<Symbol>, x: nat)
    requires x < |row|
    ensures CellSpans(row[..x + 1]) == CellSpans(row[..x]) + [CellSpan(row[x])]
  {
  }

  lemma RowViewsStep(rows: seq<seq<Symbol>>, y: nat)
    requires y < |rows|
    ensures Concat(RowViews(rows[..y + 1])) == Concat(RowViews(rows[..y])) + RowView(rows[y])
  {
    assert RowViews(rows[..y + 1]) == RowViews(rows[..y]) + [RowView(rows[y])];
    ConcatAppend(RowViews(rows[..y]), RowView(rows[y]));
  }

  /** The view of `h` rows of `w` symbols has (w+1)*h spans, and cutting it
      every w+1 spans gives back each row's own spans. */
  lemma ViewShape(rows: seq<seq<Symbol>>, w: nat)
    requires forall y :: 0 <= y < |rows| ==> |rows[y]| == w
    ensures |Concat(RowViews(rows))| == RowStart(|rows|, w + 1)
    ensures Chunks(Concat(RowViews(rows)), w + 1) == RowViews(rows)
  {
    ConcatChunks(RowViews(rows), w + 1);
  }

  // ---------------------------------------------------------------------
  // The grid

  /** Fills `a[start..end]` with `symbol`, as a slice's `fill`. */
  method FillSlice(a: array<Symbol>, start: nat, end: nat, symbol: Symbol)
    requires start <= end <= a.Length
    modifies a
    ensures forall i :: 0 <= i < a.Length ==> a[i] == if start <= i < end then symbol else old(a[i])
  {
    for i := start to end
      invariant forall k :: 0 <= k < a.Length ==> a[k] == if start <= k < i then symbol else old(a[k])
    {
      a[i] := symbol;
    }
  }

  /** Copies row `y + 1` of the row-major array `a` over row `y`, one cell
      at a time; every other cell keeps its value. */
  method CopyRowUp(a: array<Symbol>, y: nat, w: nat)
    requires RowStart(y + 2, w) <= a.Length
    modifies a
    ensures forall i :: 0 <= i < a.Length ==>
      a[i] == if RowStart(y, w) <= i < RowStart(y + 1, w) then old(a[i + w]) else old(a[i])
  {
    ShiftRowStart(y, w);
    ShiftRowStart(y + 1, w);
    for x := 0 to w
      invariant forall i :: 0 <= i < a.Length ==>
        a[i] == if RowStart(y, w) <= i < RowStart(y, w) + x then old(a[i + w]) else old(a[i])
    {
      a[RowStart(y, w) + x] := a[RowStart(y + 1, w) + x];
    }
  }

  /** Copies every row of the `h`-row array `a` but the first over the row
      above it, top to bottom; the last row keeps its old contents. */
  method ScrollUp(a: array<Symbol>, w: nat, h: nat)
    requires a.Length == RowStart(h, w) && h > 0
    modifies a
    ensures forall i :: 0 <= i < a.Length ==>
      a[i] == if i < RowStart(h - 1, w) then old(a[i + w]) else old(a[i])
  {
    for y := 0 to h - 1
      invariant RowStart(y + 1, w) <= a.Length
      invariant forall i :: 0 <= i < a.Length ==>
        a[i] == if i < RowStart(y, w) then old(a[i + w]) else old(a[i])
    {
      RowStartMono(y + 2, h, w);
      ShiftRowStart(y, w);
      CopyRowUp(a, y, w);
    }
  }

  /** What the array holds after `ScrollUp` and a blank fill of the last
      row: the old contents one row further on, then a blank row. */
  lemma ScrolledRows<T>(a: seq<T>, scrolled: seq<T>, b: seq<T>, w: nat, blank: T)
    requires |a| == |scrolled| == |b| >= w
    requires forall i :: 0 <= i < |a| ==>
      a[i] == if |a| - w <= i then blank else scrolled[i]
    requires forall i :: 0 <= i < |a| - w ==> scrolled[i] == b[i + w]
    ensures a == b[w..] + Repeat(blank, w)
  {
  }

  class TextGrid {
    const width: nat
    const height: nat
    /** The cells, row by row: cell (x, y) is at index y*width+x. */
    const grid: array<Symbol>

    ghost predicate Valid() {
      grid.Length == RowStart(height, width)
    }

    constructor (width: nat, height: nat)
      ensures Valid() && fresh(grid)
      ensures this.width == width && this.height == height
      ensures grid[..] == Repeat(Blank(), width * height)
    {
      this.width := width;
      this.height := height;
      RowStartIsProduct(height, width);
      this.grid := new Symbol[width * height](_ => Blank());
    }

    function Width(): (w: nat)
      requires Valid()
      ensures w * height == grid.Length
    {
      RowStartIsProduct(height, width);
      width
    }

    function Height(): (h: nat)
      requires Valid()
      ensures width * h == grid.Length
    {
      RowStartIsProduct(height, width);
      height
    }

    /** Writes `symbol` at column x of row y, checking x before y. */
    method SetSymbol(x: nat, y: nat, symbol: Symbol) returns (r: Outcome)
      requires Valid()
      modifies grid
      ensures x >= width ==> r == Err(XOutOfBounds(x, width)) && grid[..] == old(grid[..])
      ensures x < width && y >= height ==> r == Err(YOutOfBounds(y, height)) && grid[..] == old(grid[..])
      ensures x < width && y < height ==>
                r == Ok && RowStart(y, width) + x < grid.Length &&
                grid[..] == old(grid[..])[RowStart(y, width) + x := symbol]
    {
      if x >= width {
        return Err(XOutOfBounds(x, width));
      }
      if y >= height {
        return Err(YOutOfBounds(y, height));
      }
      CellIndex(x, y, width, height);
      grid[RowStart(y, width) + x] := symbol;
      return Ok;
    }

    /** Fills the flat index range with `symbol`. The start is checked before
        the end is even computed; each error reports the offending index.
        The requires excludes only the range whose slice would panic. */
    method FillRange(range: Range, symbol: Symbol) returns (r: Outcome)
      requires StartIndex(range.start) < grid.Length && EndIndex(range.end, grid.Length) <= grid.Length
               ==> StartIndex(range.start) <= EndIndex(range.end, grid.Length)
      modifies grid
      ensures StartIndex(range.start) >= grid.Length ==>
                r == Err(IndexOutOfBounds(StartIndex(range.start), grid.Length)) && grid[..] == old(grid[..])
      ensures StartIndex(range.start) < grid.Length && EndIndex(range.end, grid.Length) > grid.Length ==>
                r == Err(IndexOutOfBounds(EndIndex(range.end, grid.Length), grid.Length)) && grid[..] == old(grid[..])
      ensures StartIndex(range.start) < grid.Length && EndIndex(range.end, grid.Length) <= grid.Length ==>
                r == Ok &&
                forall i :: 0 <= i < grid.Length ==>
                  grid[i] == if StartIndex(range.start) <= i < EndIndex(range.end, grid.Length) then symbol else old(grid[i])
    {
      var start := StartIndex(range.start);
      if start >= grid.Length {
        return Err(IndexOutOfBounds(start, grid.Length));
      }
      var end := EndIndex(range.end, grid.Length);
      if end > grid.Length {
        return Err(IndexOutOfBounds(end, grid.Length));
      }
      FillSlice(grid, start, end, symbol);
      return Ok;
    }

    /** Scrolls up one row in place: row y takes row y+1's symbols, top to
        bottom, and the last row is cleared to blanks. */
    method PushRow()
      requires Valid() && height > 0
      modifies grid
      ensures grid[..] == old(grid[..])[width..] + Repeat(Blank(), width)
    {
      ghost var before := grid[..];
      ScrollUp(grid, width, height);
      var last := RowStart(height - 1, width);
      ShiftRowStart(height - 1, width);
      ghost var scrolled := grid[..];
      FillSlice(grid, last, grid.Length, Blank());
      ScrolledRows(grid[..], scrolled, before, width, Blank());
    }

    /** The rows, top to bottom, each `width` symbols long. */
    function Rows(): (rows: seq<seq<Symbol>>)
      reads grid
      requires Valid() && width > 0
      ensures |rows| == height
      ensures forall y :: 0 <= y < height ==> |rows[y]| == width
      ensures Concat(rows) == grid[..]
    {
      ChunksShape(grid[..], width, height);
      ChunksConcat(grid[..], width);
      Chunks(grid[..], width)
    }

    /** The grid as rich text: one span per cell, in row-major order, and a
        newline span after each row. */
    method View() returns (spans: seq<ViewSpan>)
      requires Valid() && width > 0
      ensures spans == Concat(RowViews(Rows()))
    {
      var rows := Rows();
      spans := [];
      for y := 0 to |rows|
        invariant spans == Concat(RowViews(rows[..y]))
      {
        var row := rows[y];
        for x := 0 to |row|
          invariant spans == Concat(RowViews(rows[..y])) + CellSpans(row[..x])
        {
          CellSpansStep(row, x);
          spans := spans + [CellSpan(row[x])];
        }
        assert row[..|row|] == row;
        spans := spans + [NewlineSpan()];
        RowViewsStep(rows, y);
      }
      assert rows[..|rows|] == rows;
    }
  }
}
