# card_print in Dafny

A model of the layout engine of card_print, a program that prints sheets of
playing cards with cut marks. A run does the following:

- Reads a `key=value` settings file, falling back to `default.conf` beside it.
- Turns the paper to the configured orientation.
- Converts every millimetre size to pixels with the one factor `dpi / 25.4`.
- Collects the image files of the card folder.
- Stops if there are none. Stops with a report and suggestions if the grid of cards does not fit on the paper.
- Splits the cards into pages of `cols x rows`.
- Lays out each page on a white canvas with the grid centred:
  - the card images;
  - a cut-mark cross at each corner of every occupied slot;
  - the optional guide lines.
- Saves the pages, either as one PDF or as one PNG per page, named with the run's timestamp.

The files are:

- `results.dfy` (module `Results`): `Option` and `Result`.
- `text.dfy` (module `Text`): the Python string and `posixpath` operations the program relies on, over ASCII text. These are `lower`, `strip`, `find`/`rfind`, `split(c, 1)`, `replace(c, "", 1)`, `isdigit`, `str(n)`, `splitext`, `join` and `dirname`.
- `config_loader.dfy` (module `ConfigLoader`): `load_config`.
  - A line is classified by `ParseLine`.
  - A value is typed by `Convert`.
  - The whole file is specified as a fold (`ParseLines`), which the parsing loop `ParseConfigLines` is proved to compute.
  - The file system is a map from path to lines.
- `geometry.dfy` (module `Geometry`): the pure arithmetic of `generate_sheets` and `_validate_grid_fits`. It covers orientation, pixel conversion, the fit check and its suggestions, centring and pagination. Millimetres are `real`, pixels are `int`, and Python's `int()` on a float is truncation toward zero.
- `page_builder.dfy` (module `PageBuilder`): a `Canvas` class whose display list of `Paste` and `Line` operations grows as the source draws.
  - `PlaceCards`, `AddCornerMarks` and `AddGuideLines` keep the source's nested loops, its running card index and its early exits.
  - Each is proved to append exactly the operations a specification function describes.
  - Whether an image loads is a parameter (`loads`).
- `sheet_generator.dfy` (module `SheetGenerator`): `generate_sheets`, `_get_image_files` and `_save_pages`.
  - The clock reading, the sorted folder listing and the image loader are parameters.
  - The saved files are values (`OutputFile`).
  - The whole run is also a function (`Run`), and the method `GenerateSheets` is proved to compute it.

Both `sys.exit(1)` and the `ValueError` from a bad number become error values:

- a run that stops is `NoImages` or `GridTooLarge(report)`;
- a settings file that cannot be read is `Err(ConfigMissing(..))` or `Err(BadNumber(..))`.

## Model

| member | source | states |
|---|---|---|
| Text.Lower | src/sheet_generator.py:30 | `lower()` keeps the length and lower-cases each ASCII letter in place |
| Text.Strip | src/config_loader.py:50 | `strip()` returns a slice `s[a:b]` of its input where everything before `a` and from `b` on is whitespace, and the result neither starts nor ends with whitespace |
| Text.StripTrimmed | src/config_loader.py:57-58 | stripping text that is already trimmed changes nothing, so stripping twice is stripping once |
| Text.StripAddsNothing | src/config_loader.py:56-57 | stripping never introduces a character, so a key cut before the first `=` still holds no `=` |
| Text.SplitFirst | src/config_loader.py:56 | `split("=", 1)` gives the text before the first `=` and the rest, which put back together with the `=` are the line |
| Text.RemoveFirst | src/config_loader.py:63 | `replace(c, "", 1)` is the identity when `c` is absent and one character shorter otherwise |
| Text.RemoveFirstDropsFirst | src/config_loader.py:63 | when `c` is present, `replace(c, "", 1)` is `s[:i] + s[i+1:]` for the first index `i` holding `c` |
| Text.RemoveFirstKeepsOthers | src/config_loader.py:63 | removing the first `c` keeps every other character present or absent as it was |
| Text.NatToString | src/sheet_generator.py:76-77 | the decimal rendering of the timestamp or page number is a non-empty digit string that reads back as the number, with one digit exactly below 10 and no leading zero otherwise |
| Text.NatToStringInjective | src/sheet_generator.py:333 | different numbers render differently |
| Text.SplitExt | src/sheet_generator.py:321-322 | `splitext` gives root + ext == path, with ext empty or a single `.` followed by neither `/` nor `.` |
| Text.SplitExtOfName | src/sheet_generator.py:321-322 | `splitext("stem.ext")` is `("stem", ".ext")` when the stem ends in neither `.` nor `/` and the extension holds neither |
| Text.SplitExtKeepsPrefix | src/sheet_generator.py:321 | `splitext` never cuts inside a leading part that holds no `.` |
| Text.Join | src/config_loader.py:29 | `os.path.join(a, b)` ends with `b`; it is `b` when `b` is absolute; otherwise it is `a + b` or `a/b`, and `a + b` when `a` is empty or already ends in `/` (`JoinRelative` gives the `a/b` case) |
| Text.JoinRelative | src/sheet_generator.py:78 | a relative name joined to a directory without a trailing `/` is `dir/name` |
| Text.Dirname | src/config_loader.py:28 | `os.path.dirname(p)` is a prefix of `p`; it is empty exactly when `p` holds no `/` |
| Text.DirnameOfChild | src/config_loader.py:28 | the directory of `dir/name`, for a name without `/`, is `dir` |
| Geometry.OrientationOf | src/sheet_generator.py:30-33 | the paper is portrait exactly when the setting lower-cases to `portrait`; any other value behaves as landscape |
| Geometry.Normalize | src/sheet_generator.py:32-48 | the effective size is the configured pair or the pair swapped; landscape is at least as wide as tall and portrait at least as tall as wide |
| Geometry.NormalizeIdempotent | src/sheet_generator.py:32-48 | a pair that already has the orientation is kept, so normalising twice equals normalising once |
| Geometry.Trunc | src/sheet_generator.py:54-55 | `int()` on a float truncates toward zero: the floor for non-negative values, the ceiling for negative ones |
| Geometry.ToPx | src/sheet_generator.py:53-65 | a pixel size is a non-negative integer `px` with `px <= mm * factor < px + 1` |
| Geometry.ToPxMonotone | src/sheet_generator.py:53-65 | 0 mm gives 0 px, and a longer length never gives fewer pixels |
| Geometry.PixelGeometryOf | src/sheet_generator.py:50-65 | paper, card and gap pixels all use the one factor with `factor * 25.4 == dpi`, each the truncation of mm times that factor |
| Geometry.ValidateGridFits | src/sheet_generator.py:206-257 | card plus gap must be non-zero only when the grid does not fit, where the suggestions divide by it; the check passes exactly when `card*n + gap*(n-1)` fits both across and down; a failure reports both needs, which axis fits, and the opposite orientation as the alternative |
| Geometry.MaxFit | src/sheet_generator.py:231-232 | the suggested count `int((paper + gap) / (card + gap))`, defined for a non-zero divisor; its meaning is the next row |
| Geometry.MaxFitIsLargest | src/sheet_generator.py:231-232 | `n` cards fit along an axis exactly when `n <= int((paper + gap) / (card + gap))`, so the suggested maximum is the largest count that fits |
| Geometry.TooLargeSuggestsSmaller | src/sheet_generator.py:230-235 | on failure the suggested maximum is below the request on at least one axis, and the suggested grid fits |
| Geometry.AlternativeIffSwappedFits | src/sheet_generator.py:237-250 | the other orientation is suggested exactly when the requested grid fits on the paper turned a quarter turn |
| Geometry.Centre | src/sheet_generator.py:128-129 | the offset is the spare pixels halved and rounded down, so the far margin equals the near one or exceeds it by one pixel |
| Geometry.GridWithinPage | src/sheet_generator.py:124-129 | a grid that fits in millimetres also fits in pixels: the centred grid starts at or after 0 and ends within the paper |
| Geometry.PixelGridBelowScaled | src/sheet_generator.py:125-126 | the grid's pixel extent never exceeds its millimetre extent times the factor |
| Geometry.TotalPages | src/sheet_generator.py:106 | the page count `(n + per - 1) // per` for a positive `per`; its meaning is the next row |
| Geometry.TotalPagesIsCeiling | src/sheet_generator.py:106 | `total_pages` is the ceiling of `n / cards_per_page` |
| Geometry.Paginate | src/sheet_generator.py:132-136 | the cards of each page, `per` at a time; its shape is stated by `PaginateShape` and `PaginateConcat` |
| Geometry.PaginateConcat | src/sheet_generator.py:133-136 | the pages put back together are the image list in its order |
| Geometry.PaginateShape | src/sheet_generator.py:133-136 | there are `total_pages` pages; page k is `images[k*per : min(k*per + per, n)]`, non-empty, and full unless it is the last |
| Geometry.ScenarioA4Landscape | src/sheet_generator.py:28-48 | A4 set to landscape becomes 297 x 210 mm, and a 4 x 2 grid of 63 x 88 mm cards with 3 mm gaps fits |
| Geometry.ScenarioGridTooLarge | src/sheet_generator.py:207-232 | a 10 x 10 grid of those cards on portrait A4 needs 657 mm across and stops, suggesting 3 columns |
| Geometry.ScenarioNineCards | src/sheet_generator.py:106 | nine cards at eight a page make two pages, of eight cards and one |
| PageBuilder.Canvas.constructor | src/page_builder.py:46-47 | a new canvas has the paper's size, a white background and nothing drawn |
| PageBuilder.Canvas.PasteImage | src/page_builder.py:133 | a paste appends one paste operation and changes nothing else |
| PageBuilder.Canvas.DrawLine | src/page_builder.py:196-203 | a line appends one line operation and changes nothing else |
| PageBuilder.PlaceCards | src/page_builder.py:100-147 | the nested loops with their running card index append exactly `Pastes` for the first `min(len, cols*rows)` cards |
| PageBuilder.PastesSpec | src/page_builder.py:113-144 | every paste is a loaded card among those placed, card-sized, at column `k mod cols` and row `k div cols`; every loaded card is pasted; a failed load adds nothing and moves no other card |
| PageBuilder.NextInRow | src/page_builder.py:120-121 | the next card in a row sits one card-and-gap to the right, on the same row |
| PageBuilder.NextInColumn | src/page_builder.py:120-121 | card k + cols sits one card-and-gap below card k, in the same column |
| PageBuilder.SlotsDistinct | src/page_builder.py:120-121 | with non-zero steps, different card indices get different slots |
| PageBuilder.AddCornerMarks | src/page_builder.py:150-218 | the nested loops append exactly the marks of the first `min(len, cols*rows)` slots, with length `int(MARK_LENGTH_MM * factor)` |
| PageBuilder.MarkCorners | src/page_builder.py:193-213 | the loop over one card's corners appends a cross per corner, in corner order |
| PageBuilder.CrossShape | src/page_builder.py:196-213 | a cross is a horizontal then a vertical segment, each of length 2L and centred on the corner |
| PageBuilder.CardMarksAreFourCrosses | src/page_builder.py:186-213 | a card's marks are crosses at (x,y), (x+w,y), (x,y+h), (x+w,y+h), in that order |
| PageBuilder.MarksSpec | src/page_builder.py:175-218 | the marks are 8 segments per occupied slot, in slot order, whether or not the image loaded; segments shared between neighbours are drawn again |
| PageBuilder.AddGuideLines | src/page_builder.py:221-262 | appends nothing when guides are disabled; otherwise appends exactly the vertical guides, then the horizontal guides |
| PageBuilder.VerticalGuidesSpec | src/page_builder.py:246-253 | vertical guide c is at `start_x + c*(card_w+gap)`, from `start_y` to `start_y + grid_h` |
| PageBuilder.HorizontalGuidesSpec | src/page_builder.py:255-262 | horizontal guide r is at `start_y + r*(card_h+gap)`, from `start_x` to `start_x + grid_w` |
| PageBuilder.GuidesSpec | src/page_builder.py:233-262 | disabled guides draw nothing; enabled ones are `cols+1` vertical lines then `rows+1` horizontal lines at the positions above |
| PageBuilder.LastGuidesOverhang | src/page_builder.py:243-262 | the last vertical guide sits one gap beyond the right end of the horizontal guides, and likewise downwards |
| PageBuilder.TopLeftCrossExample | src/page_builder.py:196-213 | a cross of length 20 at (100, 100) spans 80..120 in both directions |
| PageBuilder.CreateSinglePage | src/page_builder.py:11-97 | the page is a fresh white canvas of the paper's pixel size holding the pastes, then the marks, then the guides |
| ConfigLoader.ParseLine | src/config_loader.py:50-58 | a stripped line is skipped exactly when it is empty, starts with `#` or has no `=`; an assignment's key holds no `=` |
| ConfigLoader.AssignmentSplit | src/config_loader.py:55-58 | an assignment is the stripped text before the first `=` and the stripped text after it, and the value may itself hold `=` |
| ConfigLoader.AssignmentRoundTrip | src/config_loader.py:50-58 | a trimmed key without `=` and a trimmed value, written `key=value`, parse back as that key and value |
| ConfigLoader.Convert | src/config_loader.py:60-68 | `true`/`false` in any case become that boolean; an error only arises for a value passing the number test; a value stays text exactly when it is neither boolean nor numeric-looking, and then unchanged |
| ConfigLoader.LooksNumeric | src/config_loader.py:63 | the number test: with the first `.` and then the first `-` removed, a non-empty run of digits remains; `NumericChars` and `NumericConvertsIff` state what passes |
| ConfigLoader.PyInt | src/config_loader.py:65 | `int()` on text the number test passes: an optional leading `-`, then digits; `IntRoundTrip` and `NumericConvertsIff` state its results |
| ConfigLoader.PyFloat | src/config_loader.py:65 | `float()` on text the number test passes: an optional leading `-`, then digits around one point, with digits on at least one side; `PointedConverts` and `NegativePointedFloat` state its results |
| ConfigLoader.NumericChars | src/config_loader.py:63 | a value passing the number test holds only digits, `.` and `-`, and is never boolean text |
| ConfigLoader.NumericConvertsIff | src/config_loader.py:63-65 | a value passing the number test converts exactly when it has no `-` or starts with it, to a decimal when it holds a `.` and to an integer otherwise |
| ConfigLoader.InnerMinusRejected | src/config_loader.py:63-65 | digits, a `-` and digits (as in `1-2`) pass the test and are then rejected with an error |
| ConfigLoader.OtherCharStaysText | src/config_loader.py:66-68 | a non-boolean value holding a character other than a digit, `.` or `-` stays text |
| ConfigLoader.IntRoundTrip | src/config_loader.py:65 | every integer written in decimal reads back as that integer |
| ConfigLoader.DigitsConvert | src/config_loader.py:65 | a run of digits reads back as the number it denotes |
| ConfigLoader.NegativeDigitsConvert | src/config_loader.py:65 | a `-` followed by digits reads back as the negated number |
| ConfigLoader.PointedConverts | src/config_loader.py:65 | digits, a point and digits, with either side possibly empty but not both (as in `.5` or `5.`), read back as the decimal they denote |
| ConfigLoader.NegativePointedConverts | src/config_loader.py:65 | a `-`, digits, a point and digits, with either side possibly empty but not both, read back as the negated decimal |
| ConfigLoader.NegativePointedFloat | src/config_loader.py:65 | `float()` of `-w.f` is minus the value of `w.f`, for digit runs `w` and `f` not both empty |
| ConfigLoader.FractionValue | src/config_loader.py:65 | fraction digits after a point denote a value in [0, 1) |
| ConfigLoader.BoolExample | src/config_loader.py:61-62 | `False` types as the boolean false |
| ConfigLoader.LeadingPointExample | src/config_loader.py:63-65 | `.5` types as the decimal 0.5 |
| ConfigLoader.NegativeLeadingPointExample | src/config_loader.py:63-65 | `-.5` types as the decimal -0.5 |
| ConfigLoader.IntExample | src/config_loader.py:63-65 | `300` types as the integer 300 |
| ConfigLoader.ParseConfigLines | src/config_loader.py:47-68 | the loop over the lines, filling the dictionary in place, returns exactly what the fold `ParseLines` specifies |
| ConfigLoader.ErrorSticks | src/config_loader.py:63-65 | once a line has failed, no later line changes the outcome |
| ConfigLoader.OkIffAllEntriesOk | src/config_loader.py:47-68 | the file parses exactly when every line is skipped or converts |
| ConfigLoader.ErrorIsFirstBadEntry | src/config_loader.py:47-68 | a failed parse reports the error of the first line that fails |
| ConfigLoader.KeysFromEntries | src/config_loader.py:55-68 | a key is set exactly when some line assigns it |
| ConfigLoader.LastAssignmentWins | src/config_loader.py:62-68 | a key holds the value its last assigning line gives it |
| ConfigLoader.SkippedLineAddsNothing | src/config_loader.py:50-55 | adding a blank line, a comment or a line without `=` leaves the settings unchanged |
| ConfigLoader.LoadConfig | src/config_loader.py:26-45 | an existing settings file is parsed; a missing one is replaced by a copy of the `default.conf` beside it, which is then parsed; with neither, the result names both paths and the files are unchanged |
| Text.SiblingPath | src/config_loader.py:28-29 | joining the directory of `dir/name` with a relative name gives `dir/` followed by that name |
| ConfigLoader.DefaultConfigBeside | src/config_loader.py:28-29 | the fallback for `dir/name` is `dir/default.conf` |
| ConfigLoader.DefaultConfigBare | src/config_loader.py:28-29 | the fallback for a bare file name is `default.conf` |
| SheetGenerator.EndsWithAny | src/sheet_generator.py:186 | `endswith` with a tuple holds exactly when some suffix ends the name |
| SheetGenerator.GetImageFiles | src/sheet_generator.py:182-188 | the loop keeps, in listing order, the folder path joined to each name whose lower-cased form has an image ending |
| SheetGenerator.ImagePathsAppend | src/sheet_generator.py:185-187 | filtering distributes over concatenation, so the image files keep the listing's order |
| SheetGenerator.ImagePathsMembers | src/sheet_generator.py:185-187 | exactly the image-named entries become paths, and there are no more paths than entries |
| SheetGenerator.NoImagePathsIff | src/sheet_generator.py:83 | no image files are found exactly when no entry has an image ending |
| SheetGenerator.OutputPathPrefix | src/sheet_generator.py:72-78 | the output path is `outputs/<timestamp>_` followed by the configured name |
| SheetGenerator.PageFileNameKeepsPrefix | src/sheet_generator.py:321-333 | numbered page names keep the `outputs/<timestamp>_` prefix |
| SheetGenerator.SavePages | src/sheet_generator.py:297-337 | saving gives exactly `OutputFiles`: one PDF for a `.pdf` path in any case; otherwise one PNG under the path itself for one page, or `root_1ext` … `root_kext` for k pages |
| SheetGenerator.OutputFilesShape | src/sheet_generator.py:303-337 | a PDF is one file holding every page in order; PNGs are one file per page, in page order, and a single page keeps the path |
| SheetGenerator.PageFileName | src/sheet_generator.py:333 | page `n`'s name is the root, `_`, `n` in decimal, then the extension; its meaning is the next rows |
| SheetGenerator.PageFileNameOfName | src/sheet_generator.py:321-333 | page `n` of `stem.ext` is `stem_n.ext` |
| SheetGenerator.SecondPageName | src/sheet_generator.py:321-333 | page 2 of `outputs/1_sheet.png` is `outputs/1_sheet_2.png` |
| SheetGenerator.PageFileNamesDistinct | src/sheet_generator.py:333 | different page numbers give different file names |
| SheetGenerator.PngNamesDistinct | src/sheet_generator.py:330-337 | the PNG files of a multi-page run have pairwise distinct names |
| SheetGenerator.BuildPages | src/sheet_generator.py:131-152 | the pages loop lays out page k from cards `k*per` up to `min(k*per + per, n)`, giving exactly one page per chunk of `Paginate` |
| SheetGenerator.GenerateSheets | src/sheet_generator.py:14-155 | the run computes exactly `Run`: no images, the grid too large, or the files saved |
| SheetGenerator.RunNoImagesIff | src/sheet_generator.py:80-86 | a run ends with no images, writing nothing, exactly when no listed name has an image ending |
| SheetGenerator.RunStopsIffTooLarge | src/sheet_generator.py:93-103 | with images present, a run stops exactly when the cards and gaps need more than the paper across or down |
| SheetGenerator.SheetPagesShape | src/sheet_generator.py:105-136 | there are `ceil(n / per)` pages, and page k lays out cards `k*per` up to `min(k*per + per, n)` |
| SheetGenerator.RunSavesEveryPage | src/sheet_generator.py:105-155 | a run that saves found images and passed the fit check, made `ceil(n / per)` pages and saved exactly those pages |
| SheetGenerator.RunGridInsidePage | src/sheet_generator.py:124-129 | a run that saves has its centred grid inside the page on both axes |

## Left out

- Pillow is not modelled. Opening, resizing (LANCZOS), pasting and line rasterisation are recorded as `Paste` and `Line` operations, never as pixels. Whether an image opens is the parameter `loads`.
- PNG and PDF encoding in `save` is not modelled: `OutputFile` values stand for the files written, and the `dpi`, `quality` and `compress_level` arguments are not recorded.
- The following are parameters of the model:
  - `time.time()` is the `timestamp` parameter;
  - `sorted(os.listdir(...))` is the `listing` parameter, taken as already sorted;
  - the files `load_config` reads are the `files` map.
- `os.makedirs` is not modelled, and neither is the copy done by `shutil.copy` beyond the new map entry.
- `_print_summary`, `_print_final_summary` and every `print` are left out. This includes the page number and page count passed to `create_single_page`, which are only printed.
- Floating point is not modelled: millimetres and the factor `dpi / 25.4` are exact reals. Near an exact integer boundary, truncation may differ from the source's rounded products.
- String handling is ASCII only. `isdigit` accepts only `0`-`9`, and `lower`/`strip` act only on ASCII letters and whitespace.
- `ConfigLoader.PyInt`, `ConfigLoader.PyFloat`: modelled only on text the number test lets through (digits, one optional `.` and one optional `-`), which is the only text the source passes to them.
- The mapping from the settings dictionary to typed settings is not modelled. `PrintConfig` holds the settings already typed, so a missing key (`KeyError`) or a setting of the wrong type is not modelled. `PAPER_ORIENTATION` and `GUIDE_LINE_ENABLED` are optional fields that take the source's defaults; `GUIDE_LINE_ENABLED` is taken as a boolean rather than by Python truthiness.
- `SheetGenerator.GenerateSheets`, `SheetGenerator.Run`: only settings satisfying `ValidConfig` are covered. It asks for non-negative sizes and resolution, at least one column and one row, and card plus gap non-zero on both axes. Other settings are not covered, even on paths that never use them:
  - With no images, the source returns before it uses any of these values.
  - With zero columns or rows and a grid that fits, the source divides by zero when it counts pages (`src/sheet_generator.py:106`).
  - Negative counts give the source empty `range`s and, for a negative product, a floor-divided page count; these runs are not modelled.
  - The source divides by card plus gap only in its suggestions, after the grid has failed to fit (`src/sheet_generator.py:231-247`). `ValidateGridFits` asks for a non-zero divisor on that path alone. `ValidConfig` asks for it always, so a zero card with a zero gap is not covered by `Run`.
  - Negative sizes are not covered: pixel conversion (`ToPx`) is stated for non-negative lengths.
- `generate.py` calls `generate_sheets` with `config/current.config`, not the documented default `config/current.conf`. The model takes the settings path as the parameter of `LoadConfig`, so the entry point is not modelled.
