/** src/page_builder.py: one page of the sheet as a display list. A page is a
    white canvas of the paper's pixel size; the builder pastes each card of
    the page at its grid slot, draws a cut-mark cross at every corner of
    every slot that holds a card, and then the optional guide lines. Image
    decoding and drawing are not modelled as pixels: each paste and each
    line is recorded as an operation, in the order the source issues it. */
module PageBuilder {
  import opened Geometry

  datatype Op =
    | Paste(card: nat, x: int, y: int, width: int, height: int)
    | Line(x1: int, y1: int, x2: int, y2: int, fill: Rgb, width: int)

  const White := Rgb(255, 255, 255)

  /** A finished page: its size, background and display list. */
  datatype Page = Page(width: int, height: int, background: Rgb, ops: seq<Op>)

  /** The pixel grid shared by every page of a run: grid size, the grid's
      top-left pixel, and card and gap sizes in pixels. */
  datatype Layout = Layout(cols: nat, rows: nat, startX: int, startY: int,
                           cardW: int, cardH: int, gap: int)

  datatype MarkStyle = MarkStyle(length: int, color: Rgb, width: int)

  datatype GuideStyle = GuideStyle(enabled: bool, color: Rgb, width: int)

  /** The image being drawn on: fixed size and background, and the
      operations drawn so far. */
  class Canvas {
    const width: int
    const height: int
    const background: Rgb
    var ops: seq<Op>

    /** A blank white canvas. */
    constructor (width: int, height: int)
      ensures this.width == width && this.height == height
      ensures background == White && ops == []
    {
      this.width := width;
      this.height := height;
      background := White;
      ops := [];
    }

    method PasteImage(card: nat, x: int, y: int, w: int, h: int)
      modifies this
      ensures ops == old(ops) + [Paste(card, x, y, w, h)]
    {
      ops := ops + [Paste(card, x, y, w, h)];
    }

    method DrawLine(x1: int, y1: int, x2: int, y2: int, fill: Rgb, w: int)
      modifies this
      ensures ops == old(ops) + [Line(x1, y1, x2, y2, fill, w)]
    {
      ops := ops + [Line(x1, y1, x2, y2, fill, w)];
    }

    function Snapshot(): Page
      reads this
    {
      Page(width, height, background, ops)
    }
  }

  // ---------------------------------------------------------------------
  // Where things go

  function SlotX(L: Layout, col: int): int {
    L.startX + col * (L.cardW + L.gap)
  }

  function SlotY(L: Layout, row: int): int {
    L.startY + row * (L.cardH + L.gap)
  }

  /** Slots are filled row by row: card k sits in column k mod cols and
      row k div cols. */
  function CardX(L: Layout, k: nat): int
    requires L.cols > 0
  {
    SlotX(L, k % L.cols)
  }

  function CardY(L: Layout, k: nat): int
    requires L.cols > 0
  {
    SlotY(L, k / L.cols)
  }

  /** How many of n cards a page places: no more than the grid holds. */
  function Placed(n: nat, L: Layout): nat {
    if n <= L.cols * L.rows then n else L.cols * L.rows
  }

  function MarkStyleOf(cfg: PrintConfig, factor: real): MarkStyle {
    MarkStyle(Trunc(cfg.markLengthMm * factor), cfg.markColor, cfg.markWidthPx)
  }

  /** Guide lines are on unless the setting says otherwise. */
  function GuideStyleOf(cfg: PrintConfig): GuideStyle {
    GuideStyle(cfg.guideLineEnabled.GetOr(true), cfg.guideLineColor, cfg.guideLineWidthPx)
  }

  // ---------------------------------------------------------------------
  // What gets drawn

  /** The pastes for the first m cards: one per card whose image loads. */
  function Pastes(images: seq<string>, L: Layout, loads: string -> bool, m: nat): seq<Op>
    requires m <= |images| && m <= L.cols * L.rows
  {
    if m == 0 then []
    else
      var k := m - 1;
      Pastes(images, L, loads, k)
      + (if loads(images[k]) then [Paste(k, CardX(L, k), CardY(L, k), L.cardW, L.cardH)] else [])
  }

  /** A cut mark: a horizontal and a vertical segment of half-length
      s.length centred on the corner. */
  function Cross(cx: int, cy: int, s: MarkStyle): seq<Op> {
    [Line(cx - s.length, cy, cx + s.length, cy, s.color, s.width),
     Line(cx, cy - s.length, cx, cy + s.length, s.color, s.width)]
  }

  /** Top-left, top-right, bottom-left, bottom-right. */
  function Corners(x: int, y: int, w: int, h: int): seq<(int, int)> {
    [(x, y), (x + w, y), (x, y + h), (x + w, y + h)]
  }

  function Crosses(corners: seq<(int, int)>, s: MarkStyle): seq<Op> {
    if corners == [] then []
    else
      var c := corners[|corners| - 1];
      Crosses(corners[..|corners| - 1], s) + Cross(c.0, c.1, s)
  }

  function CardMarks(L: Layout, k: nat, s: MarkStyle): seq<Op>
    requires L.cols > 0
  {
    Crosses(Corners(CardX(L, k), CardY(L, k), L.cardW, L.cardH), s)
  }

  /** The marks of the first m slots, whether or not their image loaded. */
  function Marks(L: Layout, m: nat, s: MarkStyle): seq<Op>
    requires m <= L.cols * L.rows
  {
    if m == 0 then [] else Marks(L, m - 1, s) + CardMarks(L, m - 1, s)
  }

  function VerticalGuides(L: Layout, n: nat, s: GuideStyle): seq<Op> {
    if n == 0 then []
    else
      var x := SlotX(L, n - 1);
      VerticalGuides(L, n - 1, s)
      + [Line(x, L.startY, x, L.startY + GridPx(L.cardH, L.gap, L.rows), s.color, s.width)]
  }

  function HorizontalGuides(L: Layout, n: nat, s: GuideStyle): seq<Op> {
    if n == 0 then []
    else
      var y := SlotY(L, n - 1);
      HorizontalGuides(L, n - 1, s)
      + [Line(L.startX, y, L.startX + GridPx(L.cardW, L.gap, L.cols), y, s.color, s.width)]
  }

  function Guides(L: Layout, s: GuideStyle): seq<Op> {
    if !s.enabled then []
    else VerticalGuides(L, L.cols + 1, s) + HorizontalGuides(L, L.rows + 1, s)
  }

  /** A page's display list: the pastes, then the marks, then the guides. */
  function PageOps(images: seq<string>, L: Layout, loads: string -> bool,
                   mark: MarkStyle, guide: GuideStyle): seq<Op>
  {
    var m := Placed(|images|, L);
    Pastes(images, L, loads, m) + Marks(L, m, mark) + Guides(L, guide)
  }

  // ---------------------------------------------------------------------
  // The builder

  /** Row by row, column by column, with one running card index: each card
      whose image loads is pasted at its slot; a card that fails to load is
      skipped but still uses up its slot. */
  method PlaceCards(canvas: Canvas, images: seq<string>, L: Layout, loads: string -> bool)
    modifies canvas
    ensures canvas.ops == old(canvas.ops) + Pastes(images, L, loads, Placed(|images|, L))
  {
    var cardIndex := 0;
    var row := 0;
    while row < L.rows
      invariant 0 <= row <= L.rows
      invariant cardIndex == row * L.cols && cardIndex <= |images| && cardIndex <= L.cols * L.rows
      invariant canvas.ops == old(canvas.ops) + Pastes(images, L, loads, cardIndex)
    {
      RowEnd(row, 0, L.rows, L.cols);
      var col := 0;
      while col < L.cols
        invariant 0 <= col <= L.cols
        invariant cardIndex == row * L.cols + col && cardIndex <= |images| && cardIndex <= L.cols * L.rows
        invariant canvas.ops == old(canvas.ops) + Pastes(images, L, loads, cardIndex)
      {
        if cardIndex >= |images| {
          break;
        }
        PasteStep(images, L, loads, row, col);
        var x := L.startX + col * (L.cardW + L.gap);
        var y := L.startY + row * (L.cardH + L.gap);
        if loads(images[cardIndex]) {
          canvas.PasteImage(cardIndex, x, y, L.cardW, L.cardH);
        }
        cardIndex := cardIndex + 1;
        col := col + 1;
      }
      RowEnd(row, col, L.rows, L.cols);
      if cardIndex >= |images| {
        assert cardIndex == Placed(|images|, L);
        break;
      }
      row := row + 1;
    }
    RowEnd(row, 0, L.rows, L.cols);
    assert cardIndex == Placed(|images|, L);
  }

  /** For every slot that holds a card, a cross at each of its four corners. */
  method AddCornerMarks(canvas: Canvas, images: seq<string>, cfg: PrintConfig, L: Layout, factor: real)
    modifies canvas
    ensures canvas.ops == old(canvas.ops) + Marks(L, Placed(|images|, L), MarkStyleOf(cfg, factor))
  {
    var markLength := Trunc(cfg.markLengthMm * factor);
    var color := cfg.markColor;
    var markWidth := cfg.markWidthPx;
    ghost var style := MarkStyle(markLength, color, markWidth);
    assert style == MarkStyleOf(cfg, factor);

    var cardIndex := 0;
    var row := 0;
    while row < L.rows
      invariant 0 <= row <= L.rows
      invariant cardIndex == row * L.cols && cardIndex <= |images| && cardIndex <= L.cols * L.rows
      invariant canvas.ops == old(canvas.ops) + Marks(L, cardIndex, style)
    {
      RowEnd(row, 0, L.rows, L.cols);
      var col := 0;
      while col < L.cols
        invariant 0 <= col <= L.cols
        invariant cardIndex == row * L.cols + col && cardIndex <= |images| && cardIndex <= L.cols * L.rows
        invariant canvas.ops == old(canvas.ops) + Marks(L, cardIndex, style)
      {
        if cardIndex >= |images| {
          break;
        }
        var x := SlotX(L, col);
        var y := SlotY(L, row);
        var corners := [(x, y), (x + L.cardW, y), (x, y + L.cardH), (x + L.cardW, y + L.cardH)];
        MarkStep(L, style, row, col, corners);
        MarkCorners(canvas, corners, markLength, color, markWidth);
        AppendAssoc(old(canvas.ops), Marks(L, cardIndex, style), Crosses(corners, style));
        cardIndex := cardIndex + 1;
        col := col + 1;
      }
      RowEnd(row, col, L.rows, L.cols);
      if cardIndex >= |images| {
        assert cardIndex == Placed(|images|, L);
        break;
      }
      row := row + 1;
    }
    RowEnd(row, 0, L.rows, L.cols);
    assert cardIndex == Placed(|images|, L);
  }

  /** The inner loop over one card's corners: a horizontal then a vertical
      segment centred on each. */
  method MarkCorners(canvas: Canvas, corners: seq<(int, int)>, markLength: int, color: Rgb, markWidth: int)
    modifies canvas
    ensures canvas.ops == old(canvas.ops) + Crosses(corners, MarkStyle(markLength, color, markWidth))
  {
    ghost var style := MarkStyle(markLength, color, markWidth);
    var i := 0;
    while i < |corners|
      invariant 0 <= i <= |corners|
      invariant canvas.ops == old(canvas.ops) + Crosses(corners[..i], style)
    {
      var (cornerX, cornerY) := corners[i];
      canvas.DrawLine(cornerX - markLength, cornerY, cornerX + markLength, cornerY, color, markWidth);
      canvas.DrawLine(cornerX, cornerY - markLength, cornerX, cornerY + markLength, color, markWidth);
      assert corners[..i + 1][..i] == corners[..i];
      i := i + 1;
    }
    assert corners[..|corners|] == corners;
  }

  /** When enabled: a vertical line at each of the cols + 1 column starts,
      spanning the grid's height, then a horizontal line at each of the
      rows + 1 row starts, spanning the grid's width. */
  method AddGuideLines(canvas: Canvas, cfg: PrintConfig, L: Layout)
    modifies canvas
    ensures canvas.ops == old(canvas.ops) + Guides(L, GuideStyleOf(cfg))
  {
    if !cfg.guideLineEnabled.GetOr(true) {
      return;
    }
    var color := cfg.guideLineColor;
    var guideWidth := cfg.guideLineWidthPx;
    ghost var style := GuideStyleOf(cfg);

    var totalGridWidth := L.cardW * L.cols + L.gap * (L.cols - 1);
    var totalGridHeight := L.cardH * L.rows + L.gap * (L.rows - 1);
    assert totalGridWidth == GridPx(L.cardW, L.gap, L.cols);
    assert totalGridHeight == GridPx(L.cardH, L.gap, L.rows);

    var col := 0;
    while col < L.cols + 1
      invariant 0 <= col <= L.cols + 1
      invariant canvas.ops == old(canvas.ops) + VerticalGuides(L, col, style)
    {
      var x := L.startX + col * (L.cardW + L.gap);
      assert x == SlotX(L, col);
      canvas.DrawLine(x, L.startY, x, L.startY + totalGridHeight, color, guideWidth);
      col := col + 1;
    }
    ghost var vertical := canvas.ops;
    var row := 0;
    while row < L.rows + 1
      invariant 0 <= row <= L.rows + 1
      invariant canvas.ops == vertical + HorizontalGuides(L, row, style)
    {
      var y := L.startY + row * (L.cardH + L.gap);
      assert y == SlotY(L, row);
      canvas.DrawLine(L.startX, y, L.startX + totalGridWidth, y, color, guideWidth);
      row := row + 1;
    }
  }

  /** A fresh white canvas of the paper's size with the cards, then the cut
      marks, then the guide lines. */
  method CreateSinglePage(images: seq<string>, cfg: PrintConfig, L: Layout,
                          paperW: int, paperH: int, factor: real, loads: string -> bool)
    returns (canvas: Canvas)
    ensures fresh(canvas)
    ensures canvas.Snapshot()
            == Page(paperW, paperH, White,
                    PageOps(images, L, loads, MarkStyleOf(cfg, factor), GuideStyleOf(cfg)))
  {
    canvas := new Canvas(paperW, paperH);
    PlaceCards(canvas, images, L, loads);
    AddCornerMarks(canvas, images, cfg, L, factor);
    AddGuideLines(canvas, cfg, L);
  }

  // ---------------------------------------------------------------------
  // Slot arithmetic

  /** Slot (row, col) is index row * cols + col, and that index is inside
      the grid. */
  lemma SlotOfIndex(row: nat, col: nat, rows: nat, cols: nat)
    requires row < rows && col < cols
    ensures (row * cols + col) % cols == col && (row * cols + col) / cols == row
    ensures row * cols + col + 1 <= cols * rows
  {
    DivUnique(row * cols + col, cols, row, col);
    ModUnique(row * cols + col, cols, row, col);
    RowEnd(row, cols, rows, cols);
  }

  /** The index after column col of row row: at most the grid's size, and
      the first index of the next row when the row is complete. */
  lemma RowEnd(row: nat, col: nat, rows: nat, cols: nat)
    requires row <= rows && col <= cols
    ensures row < rows ==> row * cols + col <= cols * rows
    ensures row * cols + cols == (row + 1) * cols
    ensures rows * cols == cols * rows
  {
    if row < rows {
      assert (rows - row) * cols == rows * cols - row * cols;
      assert (rows - row) * cols >= cols by {
        if cols > 0 {
          MulAtLeast(rows - row, cols);
        }
      }
    }
  }

  /** Filling slot (row, col) pastes card row * cols + col there, if its
      image loads. */
  lemma PasteStep(images: seq<string>, L: Layout, loads: string -> bool, row: nat, col: nat)
    requires row < L.rows && col < L.cols && row * L.cols + col < |images|
    ensures row * L.cols + col + 1 <= L.cols * L.rows
    ensures var k := row * L.cols + col;
            Pastes(images, L, loads, k + 1)
            == Pastes(images, L, loads, k)
               + (if loads(images[k]) then [Paste(k, SlotX(L, col), SlotY(L, row), L.cardW, L.cardH)] else [])
  {
    SlotOfIndex(row, col, L.rows, L.cols);
  }

  /** Filling slot (row, col) marks the four corners of that slot. */
  lemma MarkStep(L: Layout, s: MarkStyle, row: nat, col: nat, corners: seq<(int, int)>)
    requires row < L.rows && col < L.cols
    requires corners == Corners(SlotX(L, col), SlotY(L, row), L.cardW, L.cardH)
    ensures row * L.cols + col + 1 <= L.cols * L.rows
    ensures var k := row * L.cols + col;
            Marks(L, k + 1, s) == Marks(L, k, s) + Crosses(corners, s)
  {
    SlotOfIndex(row, col, L.rows, L.cols);
  }

  lemma AppendAssoc<T>(a: seq<T>, b: seq<T>, c: seq<T>)
    ensures (a + b) + c == a + (b + c)
  {
  }

  lemma ModUnique(x: int, d: int, q: int, r: int)
    requires 0 < d && 0 <= r < d && x == q * d + r
    ensures x % d == r
  {
    DivUnique(x, d, q, r);
  }

  // ---------------------------------------------------------------------
  // Properties

  /** Every paste is a card among the first m whose image loaded, exactly
      card-sized, at its own slot; and every such card is pasted. A card
      that fails to load produces no paste, and no other card moves. */
  lemma {:induction false} PastesSpec(images: seq<string>, L: Layout, loads: string -> bool, m: nat)
    requires m <= |images| && m <= L.cols * L.rows
    ensures forall op :: op in Pastes(images, L, loads, m) ==>
              && op.Paste?
              && op.card < m
              && loads(images[op.card])
              && L.cols > 0
              && op.x == CardX(L, op.card) && op.y == CardY(L, op.card)
              && op.width == L.cardW && op.height == L.cardH
    ensures forall k :: 0 <= k < m && loads(images[k]) ==>
              L.cols > 0 && Paste(k, CardX(L, k), CardY(L, k), L.cardW, L.cardH) in Pastes(images, L, loads, m)
  {
    if m > 0 {
      PastesSpec(images, L, loads, m - 1);
      assert L.cols > 0;
    }
  }

  /** Card k + 1 sits one card-and-gap to the right of card k in the same
      row, unless k ends a row. */
  lemma NextInRow(L: Layout, k: nat)
    requires L.cols > 0 && (k + 1) % L.cols != 0
    ensures CardX(L, k + 1) == CardX(L, k) + L.cardW + L.gap
    ensures CardY(L, k + 1) == CardY(L, k)
  {
    var q, r := k / L.cols, k % L.cols;
    if r + 1 == L.cols {
      DivUnique(k + 1, L.cols, q + 1, 0);
      ModUnique(k + 1, L.cols, q + 1, 0);
      assert false;
    }
    DivUnique(k + 1, L.cols, q, r + 1);
    ModUnique(k + 1, L.cols, q, r + 1);
    assert (r + 1) * (L.cardW + L.gap) == r * (L.cardW + L.gap) + L.cardW + L.gap;
  }

  /** Card k + cols sits one card-and-gap below card k, in the same column. */
  lemma NextInColumn(L: Layout, k: nat)
    requires L.cols > 0
    ensures CardX(L, k + L.cols) == CardX(L, k)
    ensures CardY(L, k + L.cols) == CardY(L, k) + L.cardH + L.gap
  {
    var q, r := k / L.cols, k % L.cols;
    DivUnique(k + L.cols, L.cols, q + 1, r);
    ModUnique(k + L.cols, L.cols, q + 1, r);
    assert (q + 1) * (L.cardH + L.gap) == q * (L.cardH + L.gap) + L.cardH + L.gap;
  }

  /** With non-zero card-plus-gap steps, different cards get different slots. */
  lemma SlotsDistinct(L: Layout, j: nat, k: nat)
    requires L.cols > 0 && L.cardW + L.gap != 0 && L.cardH + L.gap != 0
    requires j != k
    ensures (CardX(L, j), CardY(L, j)) != (CardX(L, k), CardY(L, k))
  {
    if CardX(L, j) == CardX(L, k) && CardY(L, j) == CardY(L, k) {
      assert j == (j / L.cols) * L.cols + j % L.cols;
      assert k == (k / L.cols) * L.cols + k % L.cols;
      MulCancel(j % L.cols, k % L.cols, L.cardW + L.gap);
      MulCancel(j / L.cols, k / L.cols, L.cardH + L.gap);
    }
  }

  lemma MulCancel(a: int, b: int, s: int)
    requires s != 0 && a * s == b * s
    ensures a == b
  {
    assert (a - b) * s == 0;
  }

  /** A cross is two segments of length 2 * s.length centred on its corner. */
  lemma CrossShape(cx: int, cy: int, s: MarkStyle)
    ensures |Cross(cx, cy, s)| == 2
    ensures var h := Cross(cx, cy, s)[0];
            h.Line? && h.y1 == h.y2 == cy && h.x1 + h.x2 == 2 * cx && h.x2 - h.x1 == 2 * s.length
    ensures var v := Cross(cx, cy, s)[1];
            v.Line? && v.x1 == v.x2 == cx && v.y1 + v.y2 == 2 * cy && v.y2 - v.y1 == 2 * s.length
  {
  }

  /** The four crosses of a card, in the source's corner order. */
  lemma CardMarksAreFourCrosses(L: Layout, k: nat, s: MarkStyle)
    requires L.cols > 0
    ensures var x, y := CardX(L, k), CardY(L, k);
            CardMarks(L, k, s)
            == Cross(x, y, s) + Cross(x + L.cardW, y, s)
               + Cross(x, y + L.cardH, s) + Cross(x + L.cardW, y + L.cardH, s)
  {
    var x, y := CardX(L, k), CardY(L, k);
    var cs := Corners(x, y, L.cardW, L.cardH);
    assert cs[..3] == [(x, y), (x + L.cardW, y), (x, y + L.cardH)];
    assert cs[..3][..2] == [(x, y), (x + L.cardW, y)];
    assert cs[..3][..2][..1] == [(x, y)];
    assert Crosses([(x, y)], s) == Cross(x, y, s);
    assert Crosses(cs[..3][..2], s) == Cross(x, y, s) + Cross(x + L.cardW, y, s);
    assert Crosses(cs[..3], s) == Cross(x, y, s) + Cross(x + L.cardW, y, s) + Cross(x, y + L.cardH, s);
  }

  /** Eight segments per placed card, card by card in slot order: each
      card draws its own eight, even where they coincide with a
      neighbour's. */
  lemma {:induction false} MarksSpec(L: Layout, m: nat, s: MarkStyle)
    requires m <= L.cols * L.rows
    ensures |Marks(L, m, s)| == 8 * m
    ensures m == 0 || L.cols > 0
    ensures forall k :: 0 <= k < m ==>
              L.cols > 0 && Marks(L, m, s)[8 * k .. 8 * k + 8] == CardMarks(L, k, s)
  {
    if m > 0 {
      assert L.cols > 0;
      MarksSpec(L, m - 1, s);
      CardMarksAreFourCrosses(L, m - 1, s);
      var prev := Marks(L, m - 1, s);
      var all := Marks(L, m, s);
      assert all == prev + CardMarks(L, m - 1, s);
      forall k | 0 <= k < m
        ensures all[8 * k .. 8 * k + 8] == CardMarks(L, k, s)
      {
        if k < m - 1 {
          assert all[8 * k .. 8 * k + 8] == prev[8 * k .. 8 * k + 8];
        } else {
          assert all[8 * k ..] == CardMarks(L, m - 1, s);
        }
      }
    }
  }

  lemma {:induction false} VerticalGuidesSpec(L: Layout, n: nat, s: GuideStyle)
    ensures |VerticalGuides(L, n, s)| == n
    ensures forall c :: 0 <= c < n ==>
              VerticalGuides(L, n, s)[c]
              == Line(SlotX(L, c), L.startY, SlotX(L, c), L.startY + GridPx(L.cardH, L.gap, L.rows),
                      s.color, s.width)
  {
    if n > 0 {
      VerticalGuidesSpec(L, n - 1, s);
    }
  }

  lemma {:induction false} HorizontalGuidesSpec(L: Layout, n: nat, s: GuideStyle)
    ensures |HorizontalGuides(L, n, s)| == n
    ensures forall r :: 0 <= r < n ==>
              HorizontalGuides(L, n, s)[r]
              == Line(L.startX, SlotY(L, r), L.startX + GridPx(L.cardW, L.gap, L.cols), SlotY(L, r),
                      s.color, s.width)
  {
    if n > 0 {
      HorizontalGuidesSpec(L, n - 1, s);
    }
  }

  /** No guides when disabled; otherwise cols + 1 vertical lines at the
      column starts over the grid's height, then rows + 1 horizontal lines at
      the row starts over the grid's width. */
  lemma GuidesSpec(L: Layout, s: GuideStyle)
    ensures !s.enabled ==> Guides(L, s) == []
    ensures s.enabled ==> |Guides(L, s)| == L.cols + L.rows + 2
    ensures s.enabled ==> forall c :: 0 <= c <= L.cols ==>
              Guides(L, s)[c]
              == Line(SlotX(L, c), L.startY, SlotX(L, c), L.startY + GridPx(L.cardH, L.gap, L.rows),
                      s.color, s.width)
    ensures s.enabled ==> forall r :: 0 <= r <= L.rows ==>
              Guides(L, s)[L.cols + 1 + r]
              == Line(L.startX, SlotY(L, r), L.startX + GridPx(L.cardW, L.gap, L.cols), SlotY(L, r),
                      s.color, s.width)
  {
    VerticalGuidesSpec(L, L.cols + 1, s);
    HorizontalGuidesSpec(L, L.rows + 1, s);
  }

  /** The last vertical guide sits one gap beyond the right end of the
      horizontal guides, and the last horizontal guide one gap below the
      bottom end of the vertical guides. */
  lemma LastGuidesOverhang(L: Layout)
    ensures SlotX(L, L.cols) == L.startX + GridPx(L.cardW, L.gap, L.cols) + L.gap
    ensures SlotY(L, L.rows) == L.startY + GridPx(L.cardH, L.gap, L.rows) + L.gap
  {
  }

  /** A card at (100, 100) with 20-pixel marks: its top-left cross spans
      x from 80 to 120 at y = 100 and y from 80 to 120 at x = 100. */
  lemma TopLeftCrossExample(color: Rgb, w: int)
    ensures Cross(100, 100, MarkStyle(20, color, w))
            == [Line(80, 100, 120, 100, color, w), Line(100, 80, 100, 120, color, w)]
  {
  }
}
