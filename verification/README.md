# Gobo Spinner core, modelled in Dafny

Gobo Spinner lets a user browse a catalogue of lighting gobos (stencils),
build an ordered stack of them and watch the stack spin as layered images.
This project models the parts of it where the logic lives:

- **The import command** (`app:load-data`) turns CSV rows into Gobo entities:
  - modules `Raster`, `Grayscale`, `Punchout` and `Import`;
  - the rows it skips;
  - how it unpacks GD pixels;
  - its grayscale test;
  - the "punch-out" that turns a grayscale steel gobo's light parts
    transparent;
  - the `adjustOpacity` flag it records for each gobo.
- **The front end's stack editor** (module `GoboStack`): add, reverse, change
  speed, move and remove, plus the speed slider.
- **The renderer** (module `Spinner`): it sorts the stack so that punched-out
  gobos are drawn on top, splits the opacity among the others, and sets each
  layer's z-index, direction and duration.
- **The permalink** (module `Permalink`): the stack is written into the page
  URL as three parallel query lists (`gobo`, `reverse`, `speed`) and read back
  from it.
- **The browser** (module `Browser`):
  - the API query each list sends (sort parameters `order[field]`, the 1-based
    page, the page count);
  - which list it shows.
- **`getAssetUrl`** (module `AssetUrl`).
- **Supporting modules:**
  - `Wrappers`: `Option` and `Result`.
  - `Numerals`: JavaScript's `String(n)` and `Number(s)` on integers.
  - `Entities`: the Gobo record the front end receives.

Everything is a pure function over immutable data, except for four methods:
- the import's pixel loops, `Grayscale.IsGrayscale` and `Punchout.PunchOut`;
- the import's per-row image step, `Import.ExtractImageFromRow`;
- `Spinner.CountAdjusted`.

Each method is proved equal to a functional or quantified definition.

Import behaviour worth knowing, proved as `Import.RepeatedImageAdjustsOpacity`:
- A row whose image file already exists is not punched out.
- Its gobo therefore gets `adjustOpacity = true`.
- This holds even when the row is a grayscale steel gobo that shares its image
  with an earlier row that was punched out.

## Model

| member | source | states |
|---|---|---|
| Raster.ImageRgba | app/src/Command/LoadDataCommand.php:305-315 | the four fields read from a packed colour are in range (8, 8, 8 and 7 bits) and reassemble exactly the low 31 bits of the packed value, for negative values too |
| Raster.ImageRgbaInvertsPacked | app/src/Command/LoadDataCommand.php:305-315 | unpacking a packed pixel gives the pixel back, whatever is stored in bit 31 and above |
| Grayscale.Spread | app/src/Command/LoadDataCommand.php:285 | `max - min` of the channels bounds every pairwise channel difference and equals one of them |
| Grayscale.IsGrayscale | app/src/Command/LoadDataCommand.php:268-294 | the column-by-column scan with its early return answers true exactly when no pixel with alpha below 120 has a channel spread above 3; an image without pixels is grayscale |
| Grayscale.GrayDependsOnlyOnColours | app/src/Command/LoadDataCommand.php:274-291 | the verdict depends only on the set of pixel values, not on their positions or the order of the scan |
| Grayscale.Thresholds | app/src/Command/LoadDataCommand.php:270-289 | a spread of 3 passes and 4 fails; alpha 119 is checked and alpha 120 skipped, whatever the colour |
| Punchout.AverageIntensity | app/src/Command/LoadDataCommand.php:242 | the rounded mean is within 1/3 of the channels' true mean and at most 255 |
| Punchout.AverageIsRoundedMean | app/src/Command/LoadDataCommand.php:242 | the integer formula equals PHP's `round` (halves away from zero) of the exact real mean |
| Punchout.Opening | app/src/Command/LoadDataCommand.php:242 | shifting right by one halves the intensity, rounding down, into the 7-bit alpha range |
| Punchout.NewAlpha | app/src/Command/LoadDataCommand.php:244 | the new alpha is a valid 7-bit alpha and never below the old one |
| Punchout.PunchPixel | app/src/Command/LoadDataCommand.php:244-247 | a rewritten pixel keeps its colour channels, under the names the command gives them; GD itself sees red and blue exchanged (see Findings) |
| Punchout.PunchOutImage | app/src/Command/LoadDataCommand.php:236-250 | the punched-out image has the same shape and each pixel is its own punched-out pixel |
| Punchout.PunchOut | app/src/Command/LoadDataCommand.php:236-250 | the nested loop, which writes a pixel only when its alpha changes, produces exactly the punched-out image |
| Punchout.WriteBackSwapsRedAndBlue | app/src/Command/LoadDataCommand.php:238-246 | as written, every rewritten pixel reads back with GD's red and blue exchanged and the new alpha |
| Punchout.WriteBackCounterexample | app/src/Command/LoadDataCommand.php:238-246 | a grayscale pixel with red 103 and green and blue 100 is written back with red 100 and blue 103; the intended write keeps red 103 |
| Punchout.WriteBack | app/src/Command/LoadDataCommand.php:238-247 | the colour handed back in GD's order reads back as exactly the punched-out pixel |
| Raster.GdColor | app/src/Command/LoadDataCommand.php:246 | the command's `imageRgba` reads GD's `imagecolorallocatealpha(red, green, blue, alpha)` colour back as r = GD's blue, g = green, b = GD's red and the same alpha |
| Punchout.UnchangedIff | app/src/Command/LoadDataCommand.php:242-248 | a pixel is left alone exactly when its channel sum is at most 4 or it is already fully transparent |
| Punchout.Monotone | app/src/Command/LoadDataCommand.php:244 | more original transparency never gives less transparency afterwards |
| Punchout.WhiteAndBlack | app/src/Command/LoadDataCommand.php:242-244 | white becomes fully transparent and black keeps its alpha |
| Punchout.SecondPassIff | app/src/Command/LoadDataCommand.php:242-248 | punching out twice equals once exactly for nearly black pixels and for pixels the first pass made fully transparent |
| Punchout.NotIdempotent | app/src/Command/LoadDataCommand.php:242-248 | an opaque (200,200,200) pixel opens to alpha 100 on the first pass and to 127 on a second |
| Punchout.PunchOutKeepsGray | app/src/Command/LoadDataCommand.php:233-250 | a punched-out grayscale image is still grayscale |
| Import.LoadedIds | app/src/Command/LoadDataCommand.php:104-139 | manufacturers are keyed 1, 2, 3 and materials 1, 2, 4; slides (3) are not loaded |
| Import.Substr | app/src/Command/LoadDataCommand.php:166 | `substr` is at most `length` long, exactly that long when the string is long enough, and its characters are the string's from `start` on |
| Import.SkipRowIff | app/src/Command/LoadDataCommand.php:163-170 | a row is skipped exactly when its image is empty (`""` or `"0"`), its series is not 1-3, its material is not 1, 2 or 4, or it is an Apollo row whose code starts with "MS" |
| Import.GoboFromRow | app/src/Command/LoadDataCommand.php:193-203 | building a gobo fails exactly when the weight cannot be coerced to an integer; otherwise the gobo has the manufacturer and material its ids select, and the row's name, code and weight |
| Import.ExtractImageFromRow | app/src/Command/LoadDataCommand.php:215-259 | an existing file short-circuits with the flag false; otherwise the import fails exactly when the image does not decode, and the image is punched out exactly when it is steel and grayscale, else saved unchanged |
| Import.LoadGobosSpec | app/src/Command/LoadDataCommand.php:162-184 | a completed import persists one gobo per kept row, in row order, and records every written image; a gobo keeps its opacity unadjusted exactly when its row is steel, is grayscale and is the first to write its image |
| Import.LoadGobosFailsIff | app/src/Command/LoadDataCommand.php:162-184 | the import stops exactly when some kept row has a weight that cannot be coerced, or must write a new image file whose image does not decode |
| Import.RepeatedImageAdjustsOpacity | app/src/Command/LoadDataCommand.php:217-222 | a kept row whose image an earlier kept row already wrote always gets `adjustOpacity` true |
| Import.ExtractScenarios | app/src/Command/LoadDataCommand.php:233-253 | a gray steel image is punched out: its gray pixel opens to alpha 100 and its black pixel stays opaque. A pure red steel image is saved unchanged and not flagged |
| Numerals.NatToString | web/src/Permalink.tsx:20-22 | `String(n)` of a natural number is a non-empty digit string that starts with '0' only for 0 |
| Numerals.IntToString | web/src/Permalink.tsx:20-22 | `String(n)` starts with '-' exactly for negative numbers and is all digits otherwise |
| Numerals.ToNumber | web/src/Permalink.tsx:50-51 | `Number(s)` of a digit string is its decimal value, and a string starting with a character other than a digit or sign is NaN |
| Numerals.NumberOfString | web/src/Permalink.tsx:20-51 | `Number(String(n))` is `n` for every integer |
| Numerals.IntToStringInjective | web/src/Permalink.tsx:20-22 | distinct integers give distinct strings |
| AssetUrl.GetAssetUrl | web/src/common/getAssetUrl.ts:20-26 | a URL comes back exactly for the gobo package and is the images base followed by the path; any other package number throws an error whose message starts with `Package "` |
| AssetUrl.GetAssetUrlInjective | web/src/common/getAssetUrl.ts:20-26 | distinct paths give distinct gobo URLs |
| Spinner.SortForDisplay | web/src/Spinner.tsx:15-18 | the sorted copy has the stack's length, and no gobo that keeps full opacity comes before one whose opacity is adjusted |
| Spinner.SortIsPermutation | web/src/Spinner.tsx:15-18 | the sorted copy holds exactly the stack's entries, duplicates included |
| Spinner.SortIsStable | web/src/Spinner.tsx:18 | within each group the sort keeps the stack's order |
| Spinner.CountAdjusted | web/src/Spinner.tsx:41-49 | the count is the number of opacity-adjusted entries, and is zero exactly when there are none |
| Spinner.LayersSpec | web/src/Spinner.tsx:14-39 | the layers have z-index 1..n in drawing order, and every shared-opacity layer lies below every full-opacity one. The shared opacity is split among exactly the stack's adjusted gobos. Each layer takes its entry's direction, its duration and the image URL from `getAssetUrl` |
| GoboStack.SpliceStart | web/src/GoboStack.tsx:36-38 | `splice` clamps its start index into the array and takes an in-range start as it is |
| GoboStack.Add | web/src/GoboStack.tsx:19-27 | the chosen gobo is appended, spinning clockwise with a 9500 ms rotation, and the earlier entries are kept |
| GoboStack.SetDirection | web/src/GoboStack.tsx:28-31 | only the chosen entry's direction changes |
| GoboStack.SetSpeed | web/src/GoboStack.tsx:32-35 | only the chosen entry's duration changes, to the requested value when that is at least 1 and to 1 otherwise |
| GoboStack.Move | web/src/GoboStack.tsx:36-40 | moving keeps the stack's length and entries and puts the moved entry at the clamped target index |
| GoboStack.Remove | web/src/GoboStack.tsx:41-44 | removing takes out exactly the chosen entry |
| GoboStack.SliderIsInvolution | web/src/GoboStack.tsx:146-148 | converting between duration and slider value twice gives the value back, and maps the slider range onto itself |
| GoboStack.SliderRoundTrip | web/src/GoboStack.tsx:113-117 | leaving the slider at the value it shows stores the duration it came from |
| GoboStack.RemoveUndoesAdd | web/src/GoboStack.tsx:19-44 | removing the entry just added gives back the stack |
| GoboStack.RemoveKeepsOrder | web/src/GoboStack.tsx:41-44 | the entries before the removed one stay in place and the later ones move up by one |
| GoboStack.MoveKeepsOthersInOrder | web/src/GoboStack.tsx:36-40 | after a move, the other entries are in their original relative order |
| GoboStack.MoveElements | web/src/GoboStack.tsx:36-40 | each entry of a moved stack is identified by index: the moved one at the target, the rest shifted around it |
| GoboStack.MoveBack | web/src/GoboStack.tsx:36-40 | moving an entry back to where it came from restores the stack |
| GoboStack.MoveUpSwaps | web/src/GoboStack.tsx:77-82 | the enabled "Move up" button swaps an entry with the one above it |
| GoboStack.MoveDownSwaps | web/src/GoboStack.tsx:83-88 | the enabled "Move down" button swaps an entry with the one below it |
| GoboStack.EditsKeepDurationsPositive | web/src/GoboStack.tsx:19-44 | every edit keeps all stored rotation times at 1 ms or more |
| Permalink.Delete | web/src/Permalink.tsx:16-18 | `searchParams.delete` keeps exactly the pairs with other keys |
| Permalink.DeleteStackKeysIsOthers | web/src/Permalink.tsx:16-18 | deleting the three enum keys one after another leaves exactly the non-stack parameters, in order |
| Permalink.StackParamsLists | web/src/Permalink.tsx:19-23 | the appended `gobo`, `reverse` and `speed` lists hold each entry's id, flag and duration, in stack order |
| Permalink.EncodeKeepsOthers | web/src/Permalink.tsx:15-23 | the permalink keeps every other parameter of the page URL, in order |
| Permalink.EncodedLists | web/src/Permalink.tsx:15-23 | in the permalink, each stack list holds exactly the stack's values, whatever the URL held before |
| Permalink.EncodeIdempotent | web/src/Permalink.tsx:15-23 | building the permalink of a permalink with the same stack changes nothing |
| Permalink.FlagRoundTrip | web/src/Permalink.tsx:21-51 | `Boolean(Number(String(Number(b))))` is `b` |
| Permalink.Decode | web/src/Permalink.tsx:33-57 | a URL is malformed (nothing is fetched) exactly when the three lists differ in length; otherwise there is one entry per gobo id |
| Permalink.DecodeEncode | web/src/Permalink.tsx:12-57 | reading back a permalink gives every entry's id, duration and direction, in stack order |
| Permalink.DecodeWithoutStack | web/src/Permalink.tsx:33-45 | a URL without stack parameters gives the empty stack |
| Browser.Put | web/src/Browser.tsx:494 | assigning a property sets it and no other, keeps an existing property in its place, appends a new one, and keeps keys distinct |
| Browser.AssignGet | web/src/Browser.tsx:207-212 | after `Object.assign`, a property holds the source's value if the source has it, else the target's |
| Browser.SortMapSpec | web/src/Browser.tsx:346-352 | the sort map gives each column the direction of its last sort rule, descending exactly when that rule says so |
| Browser.OrderParamsSpec | web/src/Browser.tsx:490-498 | the order parameters have distinct keys, are no more than the sorts, and under each key hold the direction of the last sort that maps to it |
| Browser.OrderKeysNameColumns | web/src/Browser.tsx:490-498 | every order parameter is named `param[field]` after a sorted column's mapped field |
| Browser.ColumnOrderFields | web/src/Browser.tsx:246-249 | sorting by code asks for `order[sortWeight]`, by name for `order[name]`, and any other column by its own id |
| Browser.PageCount | web/src/Browser.tsx:221 | the page count is the fewest pages that hold every item |
| Browser.NameFilterQuerySpec | web/src/Browser.tsx:206-212 | the search query always carries the code and name filters, page `pageIndex + 1` and the page size, and sorting never overrides them; every `order[...]` property of the query is the order parameter of that name |
| Browser.SeriesQuerySpec | web/src/Browser.tsx:259-265 | the manufacturer/material query always carries both ids, page `pageIndex + 1` and the page size, and sorting never overrides them; every `order[...]` property of the query is the order parameter of that name |
| Browser.OneViewAtATime | web/src/Browser.tsx:91-106 | the search results and the manufacturer tabs are never both shown, and once manufacturers are loaded one of them is |

## Left out

- Reading the CSV file, the command's options, the progress bar, Doctrine persistence and the flush every 100 rows: all I/O. The model is the sequence of rows and the list of gobos persisted in order.
- The `(int)` casts of the series and material ids: a row carries its ids as integers already.
- Which texts PHP coerces to an integer. `setSortWeight(int)` (app/src/Entity/Gobo.php:144) coerces the weight column, and the file does not declare strict types. A row therefore carries the coerced weight, or `None` for a text PHP rejects, such as an empty one. `None` stands for the uncaught `TypeError` that stops the import.
- `sha1` of the image text: the file name is the image text itself. This stands in for a hash assumed free of collisions.
- `is_file`: the set of file names written before and during the run.
- `base64_decode`, `imagecreatefromstring`, `imagecreatetruecolor`/`imagecopy` and `imagepng`: a row carries its decoded image, or `None` where GD cannot decode it.
- `Import.ExtractImageFromRow`: the source has no check on a failed decode, so PHP stops with a type error. The model stops the import with `UndecodableImage`.
- `Punchout.PunchPixel`: a pixel's fields carry the names the command gives them after `imageRgba`. GD stores blue in bits 0-7 and red in bits 16-23. So the field the command calls `$r` is GD's blue, and `$b` is GD's red. The write-back at app/src/Command/LoadDataCommand.php:246 passes the fields on in that order, so GD receives red and blue exchanged. "Keeps its colour channels" therefore holds under the command's names only. `Punchout.PunchOut` and the rest of the import model the intended write-back, `Punchout.WriteBack`; the as-written one is logged under Findings.
- `Punchout.AverageIsRoundedMean`: it compares against an exact real mean. The floating-point error of `/ 3.0` is not modelled; it cannot move a sum of three channels across a rounding boundary.
- React state, effects, debouncing, the modal, blur and CSS: presentation only. `Spinner.LayersSpec` leaves out the `blur` filter.
- The opacity percentage `100 / count` is a floating-point division. `Spinner.Opacity` keeps the count it divides by.
- `makeQuery`, the HTTP fetches of `gobos/<id>` and `Promise.all`: `Permalink.Decode` stops at the id text each fetch would use.
- The never-settling promise of a malformed URL is modelled as `None`.
- How `URL` serialises and parses a query (percent-encoding, `+`): a query is the list of its decoded key/value pairs.
- `Numerals.ToNumber`: covers the empty string, an optional sign and decimal digits. Whitespace, exponents, hexadecimal, `Infinity` and fractions are not modelled; they read as NaN here.
- `Numerals.IntToString`: integers only. Exponent forms, which `String(n)` uses from 1e21 up, are not modelled.
- `GoboStack.SetSpeed`: integers only. `Math.max(1, NaN)` is NaN in JavaScript, but the slider only delivers numbers, so the NaN case is not modelled.
- `Browser.PageCount`: requires a positive page size. The table's page size is always 10; a zero size would divide by zero.
- `Browser.SortField`: inherited `Object.prototype` properties (a column named `toString`) are not modelled. Object key order for integer-like column ids is not modelled either; the table has none.
- The API side: filtering, paging and ordering by the backend, and the REST resources themselves.

## Findings

| source | as written | input that shows it | evidently intended | confidence | as-written member | corrected member |
|---|---|---|---|---|---|---|
| app/src/Command/LoadDataCommand.php:246 | the fields read by `imageRgba` are handed to `imagecolorallocatealpha` as red, green and blue, but the first of them came from bits 0-7, which hold GD's blue | a steel pixel with GD red 103, green 100, blue 100 and alpha 0 is written back as red 100, blue 103, alpha 50 | the pixel keeps its colours and only its alpha changes: red 103, blue 100, alpha 50 | not executed; holds for GD's documented colour layout. With a spread of at most 3 the change is barely visible | Punchout.WriteBackAsWritten, shown by Punchout.WriteBackCounterexample | Punchout.WriteBack |
