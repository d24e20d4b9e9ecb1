/** The arithmetic of src/sheet_generator.py: the paper's orientation, the
    conversion of millimetres to pixels, the check that the grid of cards
    fits on the paper (with its suggestions), the centring of the grid and
    the split of the card list into pages. Millimetres are reals, pixels
    are integers. */
module Geometry {
  import opened Results
  import opened Text

  datatype Rgb = Rgb(r: int, g: int, b: int)

  datatype Orientation = Landscape | Portrait

  /** The settings a run reads from the configuration map, already typed.
      The two settings read with a default are optional. */
  datatype PrintConfig = PrintConfig(
    paperWidthMm: real,
    paperHeightMm: real,
    orientation: Option<string>,
    dpi: real,
    cardWidthMm: real,
    cardHeightMm: real,
    gapMm: real,
    gridCols: int,
    gridRows: int,
    markLengthMm: real,
    markColor: Rgb,
    markWidthPx: int,
    guideLineEnabled: Option<bool>,
    guideLineColor: Rgb,
    guideLineWidthPx: int,
    cardImagesFolder: string,
    outputFile: string)

  /** The orientation setting as the run uses it: lower-cased, "landscape"
      when absent. */
  function OrientationSetting(cfg: PrintConfig): string {
    Lower(cfg.orientation.GetOr("landscape"))
  }

  /** Only the word "portrait", in any case, selects portrait; every other
      value behaves as landscape. */
  function OrientationOf(setting: string): (o: Orientation)
    ensures o == Portrait <==> Lower(setting) == "portrait"
  {
    if Lower(setting) == "portrait" then Portrait else Landscape
  }

  function Opposite(o: Orientation): Orientation {
    if o == Portrait then Landscape else Portrait
  }

  /** The effective paper size: the configured pair, swapped when needed so
      that landscape is at least as wide as tall and portrait at least as
      tall as wide. */
  function Normalize(width: real, height: real, o: Orientation): (paper: (real, real))
    ensures paper == (width, height) || paper == (height, width)
    ensures o == Landscape ==> paper.0 >= paper.1
    ensures o == Portrait ==> paper.0 <= paper.1
  {
    match o
    case Portrait => if width > height then (height, width) else (width, height)
    case Landscape => if width < height then (height, width) else (width, height)
  }

  /** A pair that already has the requested orientation is kept as it is,
      so normalising twice is normalising once. */
  lemma NormalizeIdempotent(width: real, height: real, o: Orientation)
    ensures ((o == Landscape && width >= height) || (o == Portrait && width <= height))
            ==> Normalize(width, height, o) == (width, height)
    ensures var p := Normalize(width, height, o); Normalize(p.0, p.1, o) == p
  {
  }

  /** Python's int() on a float: truncation toward zero. */
  function Trunc(x: real): (n: int)
    ensures 0.0 <= x ==> 0 <= n && n as real <= x < n as real + 1.0
    ensures x < 0.0 ==> n <= 0 && x <= n as real && n as real < x + 1.0
  {
    if x >= 0.0 then x.Floor else -((-x).Floor)
  }

  /** Pixels per millimetre at a resolution in dots per inch. */
  function Factor(dpi: real): real {
    dpi / 25.4
  }

  /** A length in millimetres as whole pixels: the largest pixel count not
      beyond mm * factor. */
  function ToPx(mm: real, factor: real): (px: int)
    requires 0.0 <= mm && 0.0 <= factor
    ensures 0 <= px && px as real <= mm * factor < px as real + 1.0
  {
    Trunc(mm * factor)
  }

  /** No length gives no pixels, and a longer length never gives fewer. */
  lemma ToPxMonotone(a: real, b: real, factor: real)
    requires 0.0 <= a <= b && 0.0 <= factor
    ensures ToPx(0.0, factor) == 0
    ensures ToPx(a, factor) <= ToPx(b, factor)
  {
    MulLe(a, b, factor);
    assert ToPx(a, factor) as real <= b * factor < ToPx(b, factor) as real + 1.0;
  }

  lemma MulLe(a: real, b: real, c: real)
    requires a <= b && 0.0 <= c
    ensures a * c <= b * c
  {
    assert (b - a) * c >= 0.0;
  }

  lemma MulLt(a: real, b: real, c: real)
    requires a < b && 0.0 < c
    ensures a * c < b * c
  {
    assert (b - a) * c > 0.0;
  }

  /** Every pixel size of a run, all converted with the one shared factor. */
  datatype PixelGeometry = PixelGeometry(
    factor: real, paperW: int, paperH: int, cardW: int, cardH: int, gap: int)

  function PixelGeometryOf(paperWMm: real, paperHMm: real, cardWMm: real, cardHMm: real,
                           gapMm: real, dpi: real): (g: PixelGeometry)
    requires 0.0 <= dpi
    requires 0.0 <= paperWMm && 0.0 <= paperHMm && 0.0 <= cardWMm && 0.0 <= cardHMm && 0.0 <= gapMm
    ensures g.factor * 25.4 == dpi
    ensures 0 <= g.paperW && g.paperW as real <= paperWMm * g.factor < g.paperW as real + 1.0
    ensures 0 <= g.paperH && g.paperH as real <= paperHMm * g.factor < g.paperH as real + 1.0
    ensures 0 <= g.cardW && g.cardW as real <= cardWMm * g.factor < g.cardW as real + 1.0
    ensures 0 <= g.cardH && g.cardH as real <= cardHMm * g.factor < g.cardH as real + 1.0
    ensures 0 <= g.gap && g.gap as real <= gapMm * g.factor < g.gap as real + 1.0
  {
    var f := Factor(dpi);
    PixelGeometry(f, ToPx(paperWMm, f), ToPx(paperHMm, f), ToPx(cardWMm, f), ToPx(cardHMm, f),
                  ToPx(gapMm, f))
  }

  /** Space n cards take along one axis: n cards and the n - 1 gaps between. */
  function RequiredMm(card: real, gap: real, n: int): real {
    card * n as real + gap * (n - 1) as real
  }

  function GridPx(card: int, gap: int, n: int): int {
    card * n + gap * (n - 1)
  }

  /** The suggested largest card count along one axis. */
  function MaxFit(paper: real, card: real, gap: real): int
    requires card + gap != 0.0
  {
    Trunc((paper + gap) / (card + gap))
  }

  /** What the run reports before it stops on a grid that does not fit. */
  datatype FitReport = FitReport(
    widthNeeded: real,
    heightNeeded: real,
    widthFits: bool,
    heightFits: bool,
    maxCols: int,
    maxRows: int,
    alternative: Orientation,
    alternativeCols: int,
    alternativeRows: int,
    suggestAlternative: bool)

  datatype FitCheck = Fits | TooLarge(report: FitReport)

  /** The grid-fit check; TooLarge stands for the run's exit with status 1. */
  function ValidateGridFits(paperW: real, paperH: real, cardW: real, cardH: real, gap: real,
                            cols: int, rows: int, o: Orientation): (r: FitCheck)
    requires !(RequiredMm(cardW, gap, cols) <= paperW && RequiredMm(cardH, gap, rows) <= paperH) ==>
               cardW + gap != 0.0 && cardH + gap != 0.0
    ensures r == Fits <==> RequiredMm(cardW, gap, cols) <= paperW && RequiredMm(cardH, gap, rows) <= paperH
    ensures r.TooLarge? ==>
      && r.report.widthNeeded == RequiredMm(cardW, gap, cols)
      && r.report.heightNeeded == RequiredMm(cardH, gap, rows)
      && r.report.widthFits == (r.report.widthNeeded <= paperW)
      && r.report.heightFits == (r.report.heightNeeded <= paperH)
      && r.report.alternative == Opposite(o)
  {
    var widthNeeded := RequiredMm(cardW, gap, cols);
    var heightNeeded := RequiredMm(cardH, gap, rows);
    var widthFits := widthNeeded <= paperW;
    var heightFits := heightNeeded <= paperH;
    if widthFits && heightFits then Fits
    else
      // The swapped paper is measured the same way for either orientation.
      var altCols := MaxFit(paperH, cardW, gap);
      var altRows := MaxFit(paperW, cardH, gap);
      TooLarge(FitReport(widthNeeded, heightNeeded, widthFits, heightFits,
                         MaxFit(paperW, cardW, gap), MaxFit(paperH, cardH, gap),
                         Opposite(o), altCols, altRows, altCols >= cols && altRows >= rows))
  }

  /** The suggested maximum is exactly the largest count whose cards and
      gaps fit: n cards fit iff n is at most floor((paper + gap) / (card + gap)). */
  lemma MaxFitIsLargest(paper: real, card: real, gap: real, n: int)
    requires card + gap > 0.0 && paper + gap >= 0.0
    ensures RequiredMm(card, gap, n) <= paper <==> n <= MaxFit(paper, card, gap)
  {
    var s := card + gap;
    var q := (paper + gap) / s;
    var m := MaxFit(paper, card, gap);
    ScaledCompare(n as real, q, s, paper + gap);
    ScaledCompare(0.0, q, s, paper + gap);
    assert m as real <= q < m as real + 1.0;
    assert RequiredMm(card, gap, n) == n as real * s - gap;
  }

  /** Comparing with a quotient is comparing with the dividend scaled. */
  lemma ScaledCompare(x: real, q: real, s: real, p: real)
    requires 0.0 < s && q * s == p
    ensures x <= q <==> x * s <= p
  {
    if x <= q {
      MulLe(x, q, s);
    } else {
      MulLt(q, x, s);
    }
  }

  /** On failure the suggested maximum is below what was asked for in at
      least one axis, and the suggested grid does fit. */
  lemma TooLargeSuggestsSmaller(paperW: real, paperH: real, cardW: real, cardH: real, gap: real,
                                cols: int, rows: int, o: Orientation)
    requires cardW + gap > 0.0 && cardH + gap > 0.0 && paperW + gap >= 0.0 && paperH + gap >= 0.0
    requires ValidateGridFits(paperW, paperH, cardW, cardH, gap, cols, rows, o).TooLarge?
    ensures var rep := ValidateGridFits(paperW, paperH, cardW, cardH, gap, cols, rows, o).report;
      && (rep.maxCols < cols || rep.maxRows < rows)
      && RequiredMm(cardW, gap, rep.maxCols) <= paperW
      && RequiredMm(cardH, gap, rep.maxRows) <= paperH
  {
    var rep := ValidateGridFits(paperW, paperH, cardW, cardH, gap, cols, rows, o).report;
    MaxFitIsLargest(paperW, cardW, gap, cols);
    MaxFitIsLargest(paperH, cardH, gap, rows);
    MaxFitIsLargest(paperW, cardW, gap, rep.maxCols);
    MaxFitIsLargest(paperH, cardH, gap, rep.maxRows);
  }

  /** The other orientation is suggested exactly when the requested grid
      fits on the paper turned a quarter turn. */
  lemma AlternativeIffSwappedFits(paperW: real, paperH: real, cardW: real, cardH: real, gap: real,
                                  cols: int, rows: int, o: Orientation)
    requires cardW + gap > 0.0 && cardH + gap > 0.0 && paperW + gap >= 0.0 && paperH + gap >= 0.0
    requires ValidateGridFits(paperW, paperH, cardW, cardH, gap, cols, rows, o).TooLarge?
    ensures ValidateGridFits(paperW, paperH, cardW, cardH, gap, cols, rows, o).report.suggestAlternative
            <==> RequiredMm(cardW, gap, cols) <= paperH && RequiredMm(cardH, gap, rows) <= paperW
  {
    MaxFitIsLargest(paperH, cardW, gap, cols);
    MaxFitIsLargest(paperW, cardH, gap, rows);
  }

  /** The grid's left (or top) offset: the paper's spare pixels halved,
      rounded down, so the two margins differ by at most one pixel. */
  function Centre(paperPx: int, gridPx: int): (start: int)
    ensures paperPx - (start + gridPx) == start || paperPx - (start + gridPx) == start + 1
  {
    (paperPx - gridPx) / 2
  }

  /** A grid that fits in millimetres also fits in pixels: with one shared
      factor, the grid's pixel extent never exceeds the paper's, so the grid
      starts inside the page and ends inside it. */
  lemma GridWithinPage(paperMm: real, cardMm: real, gapMm: real, n: int, factor: real)
    requires 0.0 <= cardMm && 0.0 <= gapMm && 0.0 <= factor && 1 <= n
    requires RequiredMm(cardMm, gapMm, n) <= paperMm
    ensures var grid := GridPx(ToPx(cardMm, factor), ToPx(gapMm, factor), n);
            var paper := ToPx(paperMm, factor);
            grid <= paper && 0 <= Centre(paper, grid) && Centre(paper, grid) + grid <= paper
  {
    var c := ToPx(cardMm, factor);
    var g := ToPx(gapMm, factor);
    var p := ToPx(paperMm, factor);
    var grid := GridPx(c, g, n);
    PixelGridBelowScaled(cardMm, gapMm, n, factor);
    MulLe(RequiredMm(cardMm, gapMm, n), paperMm, factor);
    assert grid as real <= RequiredMm(cardMm, gapMm, n) * factor <= paperMm * factor;
    assert paperMm * factor < p as real + 1.0;
  }

  /** Truncating each card and gap separately never adds up to more than
      the whole grid scaled. */
  lemma PixelGridBelowScaled(cardMm: real, gapMm: real, n: int, factor: real)
    requires 0.0 <= cardMm && 0.0 <= gapMm && 0.0 <= factor && 1 <= n
    ensures GridPx(ToPx(cardMm, factor), ToPx(gapMm, factor), n) as real
            <= RequiredMm(cardMm, gapMm, n) * factor
  {
    var c := ToPx(cardMm, factor);
    var g := ToPx(gapMm, factor);
    MulLe(c as real, cardMm * factor, n as real);
    MulLe(g as real, gapMm * factor, (n - 1) as real);
    assert GridPx(c, g, n) as real == c as real * n as real + g as real * (n - 1) as real;
    assert RequiredMm(cardMm, gapMm, n) * factor
        == cardMm * factor * n as real + gapMm * factor * (n - 1) as real;
  }

  /** Pages needed for n cards at perPage cards a page. */
  function TotalPages(n: nat, perPage: nat): nat
    requires perPage > 0
  {
    (n + perPage - 1) / perPage
  }

  /** The page count is the ceiling of n / perPage. */
  lemma TotalPagesIsCeiling(n: nat, perPage: nat)
    requires perPage > 0
    ensures TotalPages(n, perPage) * perPage >= n
    ensures (TotalPages(n, perPage) - 1) * perPage < n
  {
    var t := TotalPages(n, perPage);
    var r := (n + perPage - 1) % perPage;
    assert t * perPage + r == n + perPage - 1;
  }

  /** The cards of each page, in order: full pages of perPage cards and a
      last page with the rest. */
  function Paginate<T>(items: seq<T>, perPage: nat): seq<seq<T>>
    requires perPage > 0
    decreases |items|
  {
    if items == [] then []
    else if |items| <= perPage then [items]
    else [items[..perPage]] + Paginate(items[perPage..], perPage)
  }

  function Concat<T>(pages: seq<seq<T>>): seq<T> {
    if pages == [] then [] else pages[0] + Concat(pages[1..])
  }

  /** The pages, put back together, are the card list in its order. */
  lemma {:induction false} PaginateConcat<T>(items: seq<T>, perPage: nat)
    requires perPage > 0
    ensures Concat(Paginate(items, perPage)) == items
    decreases |items|
  {
    if items == [] {
    } else if |items| <= perPage {
      assert Concat(Paginate(items, perPage)) == items + Concat<T>([]);
    } else {
      var rest := Paginate(items[perPage..], perPage);
      PaginateConcat(items[perPage..], perPage);
      assert ([items[..perPage]] + rest)[1..] == rest;
      assert items == items[..perPage] + items[perPage..];
    }
  }

  /** Page k holds the cards k * perPage up to (k + 1) * perPage (the last
      page up to the end), there are ceil(n / perPage) pages, none empty,
      and every page but the last is full. */
  lemma {:induction false} PaginateShape<T>(items: seq<T>, perPage: nat)
    requires perPage > 0
    ensures var pages := Paginate(items, perPage);
      && |pages| == TotalPages(|items|, perPage)
      && forall k :: 0 <= k < |pages| ==>
           && k * perPage < |items|
           && pages[k] == items[k * perPage .. Min(k * perPage + perPage, |items|)]
           && pages[k] != []
           && (k < |pages| - 1 ==> |pages[k]| == perPage)
    decreases |items|
  {
    var pages := Paginate(items, perPage);
    if items == [] {
    } else if |items| <= perPage {
      assert TotalPages(|items|, perPage) == 1 by {
        assert (|items| + perPage - 1) / perPage == 1 by {
          assert perPage <= |items| + perPage - 1 < 2 * perPage;
          DivIsOne(|items| + perPage - 1, perPage);
        }
      }
    } else {
      var tail := items[perPage..];
      var rest := Paginate(tail, perPage);
      PaginateShape(tail, perPage);
      assert TotalPages(|items|, perPage) == TotalPages(|tail|, perPage) + 1 by {
        assert |items| + perPage - 1 == (|tail| + perPage - 1) + perPage;
        DivShift(|tail| + perPage - 1, perPage);
      }
      forall k | 0 <= k < |pages|
        ensures k * perPage < |items|
        ensures pages[k] == items[k * perPage .. Min(k * perPage + perPage, |items|)]
        ensures pages[k] != []
        ensures k < |pages| - 1 ==> |pages[k]| == perPage
      {
        if k > 0 {
          assert pages[k] == rest[k - 1];
          assert (k - 1) * perPage == k * perPage - perPage;
          assert tail[(k - 1) * perPage .. Min((k - 1) * perPage + perPage, |tail|)]
              == items[k * perPage .. Min(k * perPage + perPage, |items|)];
        }
      }
    }
  }

  function Min(a: int, b: int): int {
    if a <= b then a else b
  }

  lemma DivIsOne(a: nat, d: nat)
    requires 0 < d <= a < 2 * d
    ensures a / d == 1
  {
    DivUnique(a, d, 1, a - d);
  }

  lemma DivShift(a: nat, d: nat)
    requires d > 0
    ensures (a + d) / d == a / d + 1
  {
    DivUnique(a + d, d, a / d + 1, a % d);
  }

  /** Division is determined by quotient and remainder. */
  lemma DivUnique(x: int, d: int, q: int, r: int)
    requires 0 < d && 0 <= r < d && x == q * d + r
    ensures x / d == q
  {
    var q0, r0 := x / d, x % d;
    assert x == q0 * d + r0;
    if q0 > q {
      assert (q0 - q) * d == q0 * d - q * d;
      MulAtLeast(q0 - q, d);
    } else if q0 < q {
      assert (q - q0) * d == q * d - q0 * d;
      MulAtLeast(q - q0, d);
    }
  }

  lemma MulAtLeast(k: int, d: int)
    requires k >= 1 && d > 0
    ensures k * d >= d
  {
    assert (k - 1) * d >= 0;
  }

  /** A sheet of A4 paper in landscape, at 300 dpi, holds a 4 x 2 grid of
      63 x 88 mm cards with 3 mm gaps: 8 cards a page. */
  lemma ScenarioA4Landscape()
    ensures Normalize(210.0, 297.0, OrientationOf("landscape")) == (297.0, 210.0)
    ensures RequiredMm(63.0, 3.0, 4) == 261.0 && RequiredMm(88.0, 3.0, 2) == 179.0
    ensures ValidateGridFits(297.0, 210.0, 63.0, 88.0, 3.0, 4, 2, Landscape) == Fits
  {
    assert Lower("landscape") == "landscape";
  }

  /** A 10 x 10 grid of the same cards on portrait A4 does not fit, and at
      most 3 columns would. */
  lemma ScenarioGridTooLarge()
    ensures var r := ValidateGridFits(210.0, 297.0, 63.0, 88.0, 3.0, 10, 10, Portrait);
            r.TooLarge? && r.report.widthNeeded == 657.0 && r.report.maxCols == 3
  {
    var q := (210.0 + 3.0) / (63.0 + 3.0);
    assert 3.0 <= q < 4.0;
    assert q.Floor == 3;
  }

  /** Nine cards at eight a page make two pages, of eight cards and one. */
  lemma ScenarioNineCards<T>(items: seq<T>)
    requires |items| == 9
    ensures var pages := Paginate(items, 8);
            |pages| == 2 && |pages[0]| == 8 && |pages[1]| == 1
  {
  }
}
