/** src/sheet_generator.py: one run of the card-sheet printer. The run
    settles the paper's orientation, converts every size to pixels with one
    shared factor, collects the image files of the card folder, stops when
    there are none or when the grid does not fit, lays out every page with
    the grid centred, and saves the pages: one PDF holding them all, or one
    PNG per page. The clock, the folder listing and image loading are
    parameters; the files are the values that would be written. */
module SheetGenerator {
  import opened Text
  import opened Geometry
  import opened PageBuilder

  /** Every output goes to this directory. */
  const OutputDir := "outputs"

  /** The file endings the card folder is filtered on, compared in lower
      case. */
  const ImageExtensions: seq<string> := [".png", ".jpg", ".jpeg", ".webp", ".bmp"]

  // ---------------------------------------------------------------------
  // The card images

  /** str.endswith with a tuple of suffixes. */
  function EndsWithAny(s: string, suffixes: seq<string>): (r: bool)
    ensures r <==> exists i :: 0 <= i < |suffixes| && EndsWith(s, suffixes[i])
  {
    if suffixes == [] then false
    else EndsWith(s, suffixes[0]) || EndsWithAny(s, suffixes[1..])
  }

  predicate IsImageName(name: string) {
    EndsWithAny(Lower(name), ImageExtensions)
  }

  /** The paths of the image files among the folder's entries, in the
      order the entries are listed. */
  function ImagePaths(folder: string, names: seq<string>): seq<string> {
    if names == [] then []
    else
      var last := names[|names| - 1];
      ImagePaths(folder, names[..|names| - 1]) + (if IsImageName(last) then [Join(folder, last)] else [])
  }

  /** The listing is taken as given, already sorted by name. */
  method GetImageFiles(folder: string, listing: seq<string>) returns (files: seq<string>)
    ensures files == ImagePaths(folder, listing)
  {
    files := [];
    var i := 0;
    while i < |listing|
      invariant 0 <= i <= |listing|
      invariant files == ImagePaths(folder, listing[..i])
    {
      assert listing[..i + 1][..i] == listing[..i];
      if IsImageName(listing[i]) {
        files := files + [Join(folder, listing[i])];
      }
      i := i + 1;
    }
    assert listing[..i] == listing;
  }

  /** Filtering distributes over concatenation: the image files keep the
      listing's order. */
  lemma {:induction false} ImagePathsAppend(folder: string, a: seq<string>, b: seq<string>)
    ensures ImagePaths(folder, a + b) == ImagePaths(folder, a) + ImagePaths(folder, b)
    decreases |b|
  {
    if b == [] {
      assert a + b == a;
    } else {
      var b' := b[..|b| - 1];
      assert (a + b)[..|a + b| - 1] == a + b';
      assert (a + b)[|a + b| - 1] == b[|b| - 1];
      ImagePathsAppend(folder, a, b');
    }
  }

  /** Exactly the entries with an image ending become paths, joined to the
      folder. */
  lemma {:induction false} ImagePathsMembers(folder: string, names: seq<string>)
    ensures |ImagePaths(folder, names)| <= |names|
    ensures forall n :: n in names && IsImageName(n) ==> Join(folder, n) in ImagePaths(folder, names)
    ensures forall p :: p in ImagePaths(folder, names) ==>
              exists n :: n in names && IsImageName(n) && p == Join(folder, n)
  {
    if names != [] {
      var init := names[..|names| - 1];
      var last := names[|names| - 1];
      assert names == init + [last];
      ImagePathsMembers(folder, init);
    }
  }

  /** The run finds no images exactly when no entry has an image ending. */
  lemma NoImagePathsIff(folder: string, names: seq<string>)
    ensures ImagePaths(folder, names) == [] <==> forall n :: n in names ==> !IsImageName(n)
  {
    ImagePathsMembers(folder, names);
    if ImagePaths(folder, names) != [] {
      var p := ImagePaths(folder, names)[0];
      assert p in ImagePaths(folder, names);
    }
  }

  // ---------------------------------------------------------------------
  // Output names

  /** outputs/<timestamp>_<output file>. */
  function OutputPath(timestamp: nat, outputFile: string): string {
    Join(OutputDir, NatToString(timestamp) + "_" + outputFile)
  }

  function Prefix(timestamp: nat): string {
    OutputDir + "/" + NatToString(timestamp) + "_"
  }

  /** The output path lies in the output directory and starts with the
      timestamp and an underscore. */
  lemma OutputPathPrefix(timestamp: nat, outputFile: string)
    ensures OutputPath(timestamp, outputFile) == Prefix(timestamp) + outputFile
  {
    var name := NatToString(timestamp) + "_" + outputFile;
    assert name[0] == NatToString(timestamp)[0];
    assert !StartsWith(name, "/") by {
      assert name[..1] != "/";
    }
    assert !EndsWith(OutputDir, "/");
  }

  predicate IsPdf(path: string) {
    EndsWith(Lower(path), ".pdf")
  }

  /** Page n of a multi-page PNG run: the path's root, "_n", then its
      extension. */
  function PageFileName(path: string, n: nat): string {
    var parts := SplitExt(path);
    parts.0 + "_" + NatToString(n) + parts.1
  }

  /** A file the run writes: one PDF with every page, or a PNG per page. */
  datatype OutputFile = PdfFile(path: string, pages: seq<Page>) | PngFile(path: string, page: Page)

  /** The files for the pages: a ".pdf" path (in any case) gives one
      document; otherwise a single page keeps the path and several pages
      are numbered from 1. */
  function OutputFiles(pages: seq<Page>, path: string): seq<OutputFile> {
    if IsPdf(path) then [PdfFile(path, pages)]
    else if |pages| == 1 then [PngFile(path, pages[0])]
    else seq(|pages|, i requires 0 <= i < |pages| => PngFile(PageFileName(path, i + 1), pages[i]))
  }

  /** Writes the pages; a PDF of no pages is refused, as the first page is
      the one saved. */
  method SavePages(pages: seq<Page>, outputPath: string) returns (files: seq<OutputFile>)
    requires IsPdf(outputPath) ==> pages != []
    ensures files == OutputFiles(pages, outputPath)
  {
    if IsPdf(outputPath) {
      // One page, or the first page with the rest appended: one document.
      files := [PdfFile(outputPath, pages)];
    } else if |pages| == 1 {
      files := [PngFile(outputPath, pages[0])];
    } else {
      var parts := SplitExt(outputPath);
      var baseName, ext := parts.0, parts.1;
      files := [];
      var i := 0;
      while i < |pages|
        invariant 0 <= i <= |pages|
        invariant |files| == i
        invariant forall k :: 0 <= k < i ==> files[k] == PngFile(PageFileName(outputPath, k + 1), pages[k])
      {
        var filename := baseName + "_" + NatToString(i + 1) + ext;
        files := files + [PngFile(filename, pages[i])];
        i := i + 1;
      }
    }
  }

  /** What is saved: a PDF is one file holding every page in order; PNGs
      are one file per page, in page order, the single one under the path
      itself. */
  lemma OutputFilesShape(pages: seq<Page>, path: string)
    ensures var files := OutputFiles(pages, path);
      && (IsPdf(path) ==> files == [PdfFile(path, pages)])
      && (!IsPdf(path) ==>
            && |files| == |pages|
            && (forall i :: 0 <= i < |files| ==> files[i].PngFile? && files[i].page == pages[i])
            && (|pages| == 1 ==> files[0].path == path))
  {
  }

  /** For a name "stem.ext" (a stem ending in neither '.' nor '/', an
      extension free of both), page n is "stem_n.ext". */
  lemma PageFileNameOfName(stem: string, ext: string, n: nat)
    requires stem != [] && stem[|stem| - 1] != '.' && stem[|stem| - 1] != '/'
    requires '.' !in ext && '/' !in ext
    ensures PageFileName(stem + "." + ext, n) == stem + "_" + NatToString(n) + "." + ext
  {
    SplitExtOfName(stem, ext);
  }

  /** The second page of outputs/1_sheet.png is outputs/1_sheet_2.png. */
  lemma SecondPageName()
    ensures PageFileName("outputs/1_sheet.png", 2) == "outputs/1_sheet_2.png"
  {
    PageFileNameOfName("outputs/1_sheet", "png", 2);
    assert NatToString(2) == "2";
    assert "outputs/1_sheet" + "." + "png" == "outputs/1_sheet.png";
    assert "outputs/1_sheet" + "_" + "2" + "." + "png" == "outputs/1_sheet_2.png";
  }

  /** Distinct page numbers give distinct file names. */
  lemma PageFileNamesDistinct(path: string, i: nat, j: nat)
    requires i != j
    ensures PageFileName(path, i) != PageFileName(path, j)
  {
    var parts := SplitExt(path);
    var head := parts.0 + "_";
    var a, b := NatToString(i), NatToString(j);
    assert a != b by {
      assert DigitsValue(a) != DigitsValue(b);
    }
    if |a| == |b| {
      var x, y := head + a + parts.1, head + b + parts.1;
      assert x[|head|..|head| + |a|] == a;
      assert y[|head|..|head| + |b|] == b;
    }
  }

  /** The PNG files of a multi-page run have pairwise distinct names. */
  lemma PngNamesDistinct(pages: seq<Page>, path: string, i: nat, j: nat)
    requires !IsPdf(path) && |pages| > 1
    requires i < |pages| && j < |pages| && i != j
    ensures OutputFiles(pages, path)[i].path != OutputFiles(pages, path)[j].path
  {
    var files := OutputFiles(pages, path);
    assert files[i].path == PageFileName(path, i + 1);
    assert files[j].path == PageFileName(path, j + 1);
    PageFileNamesDistinct(path, i + 1, j + 1);
  }

  /** Numbering a page keeps the "<timestamp>_" prefix in the output
      directory: the extension is cut after it. */
  lemma PageFileNameKeepsPrefix(timestamp: nat, outputFile: string, n: nat)
    ensures StartsWith(PageFileName(OutputPath(timestamp, outputFile), n), Prefix(timestamp))
  {
    OutputPathPrefix(timestamp, outputFile);
    var pre := Prefix(timestamp);
    var root := SplitExt(pre + outputFile).0;
    assert StartsWith(root, pre) by {
      PrefixHasNoDot(timestamp);
      SplitExtKeepsPrefix(pre, outputFile);
    }
    var name := root + "_" + NatToString(n) + SplitExt(pre + outputFile).1;
    assert name[..|pre|] == root[..|pre|];
  }

  /** The prefix holds no '.', so no extension can be cut inside it. */
  lemma PrefixHasNoDot(timestamp: nat)
    ensures '.' !in Prefix(timestamp)
  {
    var pre := Prefix(timestamp);
    var digits := NatToString(timestamp);
    assert forall k :: 0 <= k < |pre| ==> pre[k] != '.' by {
      forall k | 0 <= k < |pre|
        ensures pre[k] != '.'
      {
        if 8 <= k < |pre| - 1 {
          assert pre[k] == digits[k - 8];
        }
      }
    }
  }

  // ---------------------------------------------------------------------
  // The run

  /** The settings the model covers: sizes and resolution that are not
      negative, at least one row and one column, and card plus gap not zero
      on either axis. The source needs the last only when the grid does not
      fit, where its suggestions divide by it; ValidateGridFits asks for it
      on that path alone. */
  predicate ValidConfig(cfg: PrintConfig) {
    && 0.0 <= cfg.dpi
    && 0.0 <= cfg.paperWidthMm && 0.0 <= cfg.paperHeightMm
    && 0.0 <= cfg.cardWidthMm && 0.0 <= cfg.cardHeightMm && 0.0 <= cfg.gapMm
    && cfg.cardWidthMm + cfg.gapMm != 0.0 && cfg.cardHeightMm + cfg.gapMm != 0.0
    && 1 <= cfg.gridCols && 1 <= cfg.gridRows
  }

  function OrientationOfConfig(cfg: PrintConfig): Orientation {
    OrientationOf(OrientationSetting(cfg))
  }

  /** The paper as the run uses it, in millimetres. */
  function PaperOf(cfg: PrintConfig): (real, real) {
    Normalize(cfg.paperWidthMm, cfg.paperHeightMm, OrientationOfConfig(cfg))
  }

  function PixelsOf(cfg: PrintConfig): PixelGeometry
    requires ValidConfig(cfg)
  {
    var paper := PaperOf(cfg);
    PixelGeometryOf(paper.0, paper.1, cfg.cardWidthMm, cfg.cardHeightMm, cfg.gapMm, cfg.dpi)
  }

  function FitOf(cfg: PrintConfig): FitCheck
    requires ValidConfig(cfg)
  {
    var paper := PaperOf(cfg);
    ValidateGridFits(paper.0, paper.1, cfg.cardWidthMm, cfg.cardHeightMm, cfg.gapMm,
                     cfg.gridCols, cfg.gridRows, OrientationOfConfig(cfg))
  }

  /** The grid in pixels, centred on the page. */
  function LayoutOf(cfg: PrintConfig, g: PixelGeometry): Layout
    requires ValidConfig(cfg)
  {
    var gridWidth := GridPx(g.cardW, g.gap, cfg.gridCols);
    var gridHeight := GridPx(g.cardH, g.gap, cfg.gridRows);
    Layout(cfg.gridCols, cfg.gridRows, Centre(g.paperW, gridWidth), Centre(g.paperH, gridHeight),
           g.cardW, g.cardH, g.gap)
  }

  /** One page as created for its cards. */
  function SheetPage(cards: seq<string>, cfg: PrintConfig, L: Layout, g: PixelGeometry,
                     loads: string -> bool): Page
  {
    Page(g.paperW, g.paperH, White,
         PageOps(cards, L, loads, MarkStyleOf(cfg, g.factor), GuideStyleOf(cfg)))
  }

  /** The pages for the chunks of the card list, one each, in order. */
  function SheetPages(chunks: seq<seq<string>>, cfg: PrintConfig, L: Layout, g: PixelGeometry,
                      loads: string -> bool): seq<Page>
  {
    seq(|chunks|, k requires 0 <= k < |chunks| => SheetPage(chunks[k], cfg, L, g, loads))
  }

  /** How a run ends: no images (a message, nothing written), the grid does
      not fit (the report printed before exit status 1), or the files
      saved. */
  datatype RunOutcome = NoImages | GridTooLarge(report: FitReport) | Saved(files: seq<OutputFile>)

  /** The whole run as one value. */
  function Run(cfg: PrintConfig, timestamp: nat, listing: seq<string>, loads: string -> bool): RunOutcome
    requires ValidConfig(cfg)
  {
    var images := ImagePaths(cfg.cardImagesFolder, listing);
    if images == [] then NoImages
    else
      match FitOf(cfg)
      case TooLarge(report) => GridTooLarge(report)
      case Fits =>
        var g := PixelsOf(cfg);
        var pages := SheetPages(Paginate(images, cfg.gridCols * cfg.gridRows), cfg, LayoutOf(cfg, g), g, loads);
        Saved(OutputFiles(pages, OutputPath(timestamp, cfg.outputFile)))
  }

  /** The pages loop of generate_sheets: page after page, the next
      cards-per-page cards (fewer on the last page) laid out on a new page. */
  method BuildPages(images: seq<string>, cardsPerPage: nat, cfg: PrintConfig, L: Layout,
                    g: PixelGeometry, loads: string -> bool)
    returns (pages: seq<Page>)
    requires cardsPerPage > 0
    ensures pages == SheetPages(Paginate(images, cardsPerPage), cfg, L, g, loads)
  {
    var totalPages := TotalPages(|images|, cardsPerPage);
    ghost var chunks := Paginate(images, cardsPerPage);
    PaginateShape(images, cardsPerPage);
    pages := [];
    var pageNum := 0;
    while pageNum < totalPages
      invariant 0 <= pageNum <= totalPages
      invariant |pages| == pageNum
      invariant forall k :: 0 <= k < pageNum ==> pages[k] == SheetPage(chunks[k], cfg, L, g, loads)
    {
      var startIdx := pageNum * cardsPerPage;
      var endIdx := Min(startIdx + cardsPerPage, |images|);
      assert startIdx < |images| && chunks[pageNum] == images[startIdx..endIdx];
      var canvas := CreateSinglePage(images[startIdx..endIdx], cfg, L, g.paperW, g.paperH, g.factor, loads);
      assert canvas.Snapshot() == SheetPage(chunks[pageNum], cfg, L, g, loads);
      pages := pages + [canvas.Snapshot()];
      pageNum := pageNum + 1;
    }
    assert |pages| == |chunks|;
  }

  /** generate_sheets, with the clock's reading, the sorted entries of the
      card folder and the image loader given. */
  method GenerateSheets(cfg: PrintConfig, timestamp: nat, listing: seq<string>, loads: string -> bool)
    returns (outcome: RunOutcome)
    requires ValidConfig(cfg)
    ensures outcome == Run(cfg, timestamp, listing, loads)
  {
    var orientation := OrientationOf(OrientationSetting(cfg));
    var paper := Normalize(cfg.paperWidthMm, cfg.paperHeightMm, orientation);
    var g := PixelGeometryOf(paper.0, paper.1, cfg.cardWidthMm, cfg.cardHeightMm, cfg.gapMm, cfg.dpi);
    var outputPath := OutputPath(timestamp, cfg.outputFile);
    var images := GetImageFiles(cfg.cardImagesFolder, listing);
    if |images| == 0 {
      return NoImages;
    }
    var cardsPerPage := cfg.gridCols * cfg.gridRows;
    var check := ValidateGridFits(paper.0, paper.1, cfg.cardWidthMm, cfg.cardHeightMm, cfg.gapMm,
                                  cfg.gridCols, cfg.gridRows, orientation);
    if check.TooLarge? {
      return GridTooLarge(check.report);
    }
    var L := LayoutOf(cfg, g);
    var pages := BuildPages(images, cardsPerPage, cfg, L, g, loads);
    var files := SavePages(pages, outputPath);
    outcome := Saved(files);
  }

  // ---------------------------------------------------------------------
  // Properties of a run

  /** A run with no image in the folder writes nothing, whatever the grid. */
  lemma RunNoImagesIff(cfg: PrintConfig, timestamp: nat, listing: seq<string>, loads: string -> bool)
    requires ValidConfig(cfg)
    ensures Run(cfg, timestamp, listing, loads) == NoImages
            <==> forall n :: n in listing ==> !IsImageName(n)
  {
    NoImagePathsIff(cfg.cardImagesFolder, listing);
  }

  /** With images present, the run stops exactly when the cards and gaps
      need more room than the paper has across or down. */
  lemma RunStopsIffTooLarge(cfg: PrintConfig, timestamp: nat, listing: seq<string>, loads: string -> bool)
    requires ValidConfig(cfg)
    requires ImagePaths(cfg.cardImagesFolder, listing) != []
    ensures var paper := PaperOf(cfg);
            Run(cfg, timestamp, listing, loads).GridTooLarge?
            <==> (RequiredMm(cfg.cardWidthMm, cfg.gapMm, cfg.gridCols) > paper.0
                  || RequiredMm(cfg.cardHeightMm, cfg.gapMm, cfg.gridRows) > paper.1)
  {
  }

  /** There are ceil(n / perPage) pages, and page k lays out the cards
      k * perPage up to (k + 1) * perPage, the last page up to the end. */
  lemma SheetPagesShape(images: seq<string>, perPage: nat, cfg: PrintConfig, L: Layout,
                        g: PixelGeometry, loads: string -> bool)
    requires perPage > 0
    ensures var pages := SheetPages(Paginate(images, perPage), cfg, L, g, loads);
            && |pages| == TotalPages(|images|, perPage)
            && forall k :: 0 <= k < |pages| ==>
                 && k * perPage < |images|
                 && pages[k] == SheetPage(images[k * perPage .. Min(k * perPage + perPage, |images|)],
                                          cfg, L, g, loads)
  {
    PaginateShape(images, perPage);
  }

  /** A run that saves has made one page per cards-per-page cards (rounded
      up) and saved those pages. */
  lemma RunSavesEveryPage(cfg: PrintConfig, timestamp: nat, listing: seq<string>, loads: string -> bool)
    requires ValidConfig(cfg)
    requires Run(cfg, timestamp, listing, loads).Saved?
    ensures var images := ImagePaths(cfg.cardImagesFolder, listing);
            var perPage := cfg.gridCols * cfg.gridRows;
            var g := PixelsOf(cfg);
            var pages := SheetPages(Paginate(images, perPage), cfg, LayoutOf(cfg, g), g, loads);
            && images != [] && FitOf(cfg) == Fits
            && |pages| == TotalPages(|images|, perPage)
            && Run(cfg, timestamp, listing, loads).files
               == OutputFiles(pages, OutputPath(timestamp, cfg.outputFile))
  {
    var images := ImagePaths(cfg.cardImagesFolder, listing);
    var perPage := cfg.gridCols * cfg.gridRows;
    var g := PixelsOf(cfg);
    var pages := SheetPages(Paginate(images, perPage), cfg, LayoutOf(cfg, g), g, loads);
    assert images != [] && FitOf(cfg) == Fits;
    assert Run(cfg, timestamp, listing, loads) == Saved(OutputFiles(pages, OutputPath(timestamp, cfg.outputFile)));
    SheetPagesShape(images, perPage, cfg, LayoutOf(cfg, g), g, loads);
  }

  /** A run that saves has its grid inside the page: the centred grid
      starts at or after the top-left corner and ends within the paper. */
  lemma RunGridInsidePage(cfg: PrintConfig, timestamp: nat, listing: seq<string>, loads: string -> bool)
    requires ValidConfig(cfg)
    requires Run(cfg, timestamp, listing, loads).Saved?
    ensures var g := PixelsOf(cfg);
            var L := LayoutOf(cfg, g);
            && 0 <= L.startX && L.startX + GridPx(g.cardW, g.gap, cfg.gridCols) <= g.paperW
            && 0 <= L.startY && L.startY + GridPx(g.cardH, g.gap, cfg.gridRows) <= g.paperH
  {
    var paper := PaperOf(cfg);
    var f := Factor(cfg.dpi);
    assert f * 25.4 == cfg.dpi;
    assert 0.0 <= f;
    GridWithinPage(paper.0, cfg.cardWidthMm, cfg.gapMm, cfg.gridCols, f);
    GridWithinPage(paper.1, cfg.cardHeightMm, cfg.gapMm, cfg.gridRows, f);
  }
}
