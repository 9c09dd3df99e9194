/** The colour chooser widget: four colour tables laid out on one canvas, each
    a grid of swatches read row-major out of a palette, with white for any
    swatch the palette does not cover. */
module ColorChooser {
  import opened JavaLang

  /** Colour of a swatch with no palette entry. */
  const White: string := "#ffffff"
  /** Left margin of the leftmost table. */
  const MarginX: int := 5
  /** Gap between the left table and the main table. */
  const TableGap: int := 5

  /** Swatch size and padding, as the chooser is constructed with them. */
  datatype Metrics = Metrics(iconWidth: int, iconHeight: int, padding: int)

  /** One grid of swatches: where it starts on the canvas, its shape, its palette
      (possibly null) and its outer size. */
  datatype ColorTable = ColorTable(
    startX: int, startY: int,
    maxCol: nat, maxRow: nat,
    data: Nullable<seq<string>>,
    width: int, height: int)

  /** The `ColorTable` constructor: each column takes one swatch width plus padding,
      each row one swatch height plus padding. */
  function NewColorTable(m: Metrics, x: int, y: int, col: nat, row: nat, data: Nullable<seq<string>>): (t: ColorTable)
    ensures t.startX == x && t.startY == y && t.maxCol == col && t.maxRow == row && t.data == data
    ensures t.width == col * (m.iconWidth + m.padding)
    ensures t.height == row * (m.iconHeight + m.padding)
  {
    ColorTable(x, y, col, row, data, col * (m.iconWidth + m.padding), row * (m.iconHeight + m.padding))
  }

  /** Row-major position of swatch (col, row) in the palette. */
  function PaletteIndex(t: ColorTable, col: nat, row: nat): nat {
    row * t.maxCol + col
  }

  /** `getColorAt`: the palette entry at the swatch's row-major index when there
      is a palette and the index is inside it, white otherwise. */
  function GetColorAt(t: ColorTable, col: nat, row: nat): (color: string)
    ensures t.data.Ref? && PaletteIndex(t, col, row) < |t.data.value|
            ==> color == t.data.value[PaletteIndex(t, col, row)]
    ensures t.data.Null? || PaletteIndex(t, col, row) >= |t.data.value| ==> color == White
  {
    var idx := PaletteIndex(t, col, row);
    if t.data.Ref? && idx < |t.data.value| then t.data.value[idx] else White
  }

  /** A table without a palette shows nothing but white swatches. */
  lemma NullPaletteIsWhite(t: ColorTable, col: nat, row: nat)
    requires t.data.Null?
    ensures GetColorAt(t, col, row) == White
  {
  }

  lemma MulMonotone(a: int, b: int, k: int)
    requires a <= b && k >= 0
    ensures a * k <= b * k
  {
  }

  /** Inside the grid the row-major index stays below the grid's area ... */
  lemma PaletteIndexBelowArea(t: ColorTable, col: nat, row: nat)
    requires col < t.maxCol && row < t.maxRow
    ensures PaletteIndex(t, col, row) < t.maxCol * t.maxRow
  {
    MulMonotone(row + 1, t.maxRow, t.maxCol);
  }

  /** ... and no two swatches of the grid read the same palette entry. */
  lemma PaletteIndexInjective(t: ColorTable, c1: nat, r1: nat, c2: nat, r2: nat)
    requires c1 < t.maxCol && c2 < t.maxCol
    requires PaletteIndex(t, c1, r1) == PaletteIndex(t, c2, r2)
    ensures c1 == c2 && r1 == r2
  {
    if r1 < r2 {
      MulMonotone(r1 + 1, r2, t.maxCol);
    } else if r2 < r1 {
      MulMonotone(r2 + 1, r1, t.maxCol);
    }
  }

  /** One swatch as `draw` paints it: origin, size and fill colour, relative to the table origin. */
  datatype Swatch = Swatch(x: int, y: int, width: int, height: int, fill: string)

  /** `draw`: walks the grid row by row, advancing one swatch width per column and
      one swatch height per row; swatch (col, row) is inset by twice the padding
      and shrunk by the padding. */
  method Draw(m: Metrics, t: ColorTable) returns (swatches: seq<seq<Swatch>>)
    ensures |swatches| == t.maxRow
    ensures forall r :: 0 <= r < t.maxRow ==> |swatches[r]| == t.maxCol
    ensures forall r, c :: 0 <= r < t.maxRow && 0 <= c < t.maxCol ==>
              swatches[r][c] == Swatch(2 * m.padding + c * m.iconWidth, 2 * m.padding + r * m.iconHeight,
                                       m.iconWidth - m.padding, m.iconHeight - m.padding,
                                       GetColorAt(t, c, r))
  {
    var p := m.padding;
    var x := p;
    var y := p;
    var h := m.iconHeight;
    var w := m.iconWidth;
    swatches := [];
    var row := 0;
    while row < t.maxRow
      invariant 0 <= row <= t.maxRow
      invariant |swatches| == row
      invariant x == p
      invariant y == p + row * h
      invariant forall r :: 0 <= r < row ==> |swatches[r]| == t.maxCol
      invariant forall r, c :: 0 <= r < row && 0 <= c < t.maxCol ==>
                  swatches[r][c] == Swatch(2 * p + c * w, 2 * p + r * h, w - p, h - p, GetColorAt(t, c, r))
    {
      var line: seq<Swatch> := [];
      var col := 0;
      while col < t.maxCol
        invariant 0 <= col <= t.maxCol
        invariant |line| == col
        invariant x == p + col * w
        invariant y == p + row * h
        invariant forall c :: 0 <= c < col ==>
                    line[c] == Swatch(2 * p + c * w, 2 * p + row * h, w - p, h - p, GetColorAt(t, c, row))
      {
        line := line + [Swatch(x + p, y + p, w - p, h - p, GetColorAt(t, col, row))];
        x := x + w;
        col := col + 1;
      }
      swatches := swatches + [line];
      x := p;
      y := y + h;
      row := row + 1;
    }
  }

  /** Along one axis: swatch i of n, inset by twice the padding and shrunk by it,
      stays within n pitches of swatch size plus padding. */
  lemma SwatchSpanInside(p: int, size: int, i: nat, n: nat)
    requires 0 <= p <= size && i < n
    ensures 0 <= 2 * p + i * size
    ensures 2 * p + i * size + (size - p) <= n * (size + p)
  {
    MulMonotone(0, i, size);
    MulMonotone(i + 1, n, size);
    MulMonotone(1, n, p);
    assert (i + 1) * size == i * size + size;
    assert n * (size + p) == n * size + n * p;
  }

  /** With non-negative padding no larger than a swatch, every swatch a freshly
      constructed table paints lies inside the border `draw` strokes around
      (0, 0, width, height). */
  lemma SwatchesInsideBorder(m: Metrics, x: int, y: int, cols: nat, rows: nat,
                             data: Nullable<seq<string>>, c: nat, r: nat)
    requires 0 <= m.padding <= m.iconWidth && m.padding <= m.iconHeight
    requires c < cols && r < rows
    ensures var t := NewColorTable(m, x, y, cols, rows, data);
            && 0 <= 2 * m.padding + c * m.iconWidth
            && 2 * m.padding + c * m.iconWidth + (m.iconWidth - m.padding) <= t.width
            && 0 <= 2 * m.padding + r * m.iconHeight
            && 2 * m.padding + r * m.iconHeight + (m.iconHeight - m.padding) <= t.height
  {
    SwatchSpanInside(m.padding, m.iconWidth, c, cols);
    SwatchSpanInside(m.padding, m.iconHeight, r, rows);
  }

  // ---------------------------------------------------------------------------
  // The chooser

  const LeftPalette: seq<string> := [
    "#ffffff", "#ff0000",
    "#e0e0e0", "#ff7f00",
    "#c0c0c0", "#ffff00",
    "#a0a0a0", "#bfff00",
    "#808080", "#00ff00",
    "#606060", "#00ffff",
    "#404040", "#0000ff",
    "#202020", "#7f00ff",
    "#000000", "#ff00ff"
  ]

  const MainPalette: seq<string> := [
    "#ffc0cb", "#ff99cc", "#ff6699", "#ff3366", "#ff0033", "#cc0000", "#800000", "#330000",
    "#ffefd5", "#ffcc33", "#ff9900", "#ff9933", "#ff6600", "#cc6600", "#996600", "#333300",
    "#ffeacd", "#ffff99", "#ffff66", "#ffd700", "#ffcc66", "#cc9900", "#993300", "#663300",
    "#ccffcc", "#ccff66", "#99ff00", "#99cc00", "#66cc00", "#669900", "#339900", "#006633",
    "#d0f0c0", "#99ff99", "#66ff00", "#33ff00", "#00cc00", "#009900", "#006400", "#003300",
    "#afeeee", "#99ffff", "#33ffcc", "#0099ff", "#0099cc", "#006699", "#0033cc", "#003399",
    "#bcd4e6", "#99ccff", "#66ccff", "#6699ff", "#7d7dff", "#3333ff", "#0000cc", "#000033",
    "#ccccff", "#cc99ff", "#cc66ff", "#9966ff", "#6600cc", "#800080", "#4b0082", "#330033",
    "#e0b0ff", "#ff99ff", "#ff9999", "#ff33cc", "#dc143c", "#cc0066", "#990033", "#660099"
  ]

  /** The four tables of the chooser. */
  datatype Chooser = Chooser(leftTable: ColorTable, mainTable: ColorTable,
                             recentTable: ColorTable, otherTable: ColorTable)

  /** The `ColorChooserW` constructor: a 2 x 8 grey/hue table at the left margin, the
      8 x 8 main table just right of it, and two palette-less tables for recent and
      other colours. */
  function NewColorChooser(m: Metrics): (ch: Chooser)
    ensures ch.leftTable.startX == MarginX
    ensures ch.mainTable.startX == ch.leftTable.startX + ch.leftTable.width + TableGap
    ensures ch.leftTable.startY == ch.mainTable.startY
    ensures ch.recentTable.data.Null? && ch.otherTable.data.Null?
  {
    var left := NewColorTable(m, MarginX, 20, 2, 8, Ref(LeftPalette));
    var main := NewColorTable(m, MarginX + left.width + TableGap, 20, 8, 8, Ref(MainPalette));
    Chooser(left, main, NewColorTable(m, 300, 42, 6, 4, Null), NewColorTable(m, 300, 160, 6, 2, Null))
  }

  /** The left table shows the first 16 of its 18 palette entries, so black and
      magenta, the last pair, never appear. */
  lemma LeftTableShowsSixteen(m: Metrics, c: nat, r: nat)
    requires c < 2 && r < 8
    ensures var t := NewColorChooser(m).leftTable;
            && PaletteIndex(t, c, r) < 16
            && GetColorAt(t, c, r) == LeftPalette[PaletteIndex(t, c, r)]
            && GetColorAt(t, c, r) != "#000000"
            && GetColorAt(t, c, r) != "#ff00ff"
  {
    var t := NewColorChooser(m).leftTable;
    var i := PaletteIndex(t, c, r);
    assert i < 16;
    assert LeftPalette[..16] == [
      "#ffffff", "#ff0000", "#e0e0e0", "#ff7f00", "#c0c0c0", "#ffff00", "#a0a0a0", "#bfff00",
      "#808080", "#00ff00", "#606060", "#00ffff", "#404040", "#0000ff", "#202020", "#7f00ff"];
    assert LeftPalette[i] == LeftPalette[..16][i];
  }

  /** The main table shows the first 64 of its 72 palette entries: the last palette
      row is never painted. */
  lemma MainTableShowsSixtyFour(m: Metrics, c: nat, r: nat)
    requires c < 8 && r < 8
    ensures var t := NewColorChooser(m).mainTable;
            && PaletteIndex(t, c, r) < 64
            && GetColorAt(t, c, r) == MainPalette[PaletteIndex(t, c, r)]
  {
  }

  /** The recent-colour and other-colour tables are all white. */
  lemma PalettelessTablesAreWhite(m: Metrics, c: nat, r: nat)
    ensures GetColorAt(NewColorChooser(m).recentTable, c, r) == White
    ensures GetColorAt(NewColorChooser(m).otherTable, c, r) == White
  {
  }
}
