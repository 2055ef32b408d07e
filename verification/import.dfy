/**
 * The row loop of the `app:load-data` command: which CSV rows become gobos,
 * when a gobo's image is punched out, and the `adjustOpacity` flag that
 * records it for the front end.
 */
module Import {
  import opened Wrappers
  import opened Raster
  import opened Grayscale
  import opened Punchout

  const ManuApollo := 1
  const ManuGam := 2
  const ManuRosco := 3

  const MaterialSteel := 1
  const MaterialGlass := 2
  const MaterialSlides := 3
  const MaterialEffects := 4

  /** `loadManufacturers`: series ids and the manufacturer each one names. */
  const Manufacturers: map<int, string> :=
    map[ManuApollo := "Apollo", ManuGam := "GAM", ManuRosco := "Rosco"]

  /** `loadMaterials`: slides are deliberately not loaded. */
  const Materials: map<int, string> :=
    map[MaterialSteel := "Steel", MaterialGlass := "Glass", MaterialEffects := "Effects"]

  /** The ids the two maps are keyed by: three series and every material but slides. */
  lemma LoadedIds()
    ensures Manufacturers.Keys == {1, 2, 3}
    ensures Materials.Keys == {1, 2, 4} && MaterialSlides !in Materials
    ensures Manufacturers[ManuApollo] == "Apollo" && Materials[MaterialSteel] == "Steel"
  {
  }

  /**
   * One CSV row: its id columns after the `(int)` casts, its weight as PHP
   * coerces it for the `int` parameter of `setSortWeight` (`None` when it cannot,
   * as for empty or non-numeric text), and its image column also available
   * decoded (`None` when GD cannot decode it).
   */
  datatype CsvRow = CsvRow(
    seriesId: int,
    materialId: int,
    name: string,
    code: string,
    weightCode: Option<int>,
    image: string,
    decoded: Option<GdImage>)

  /** The Gobo entity as the import fills it in. */
  datatype ImportedGobo = ImportedGobo(
    manufacturer: string,
    material: string,
    name: string,
    code: string,
    sortWeight: int,
    imageId: string,
    adjustOpacity: bool)

  /** What `extractImageFromRow` did with a row's image. */
  datatype Extraction = Extraction(punchout: bool, saved: Option<Image>)

  /** Why the command stops: a weight `setSortWeight` rejects, or an image that does not decode. */
  datatype ImportError = InvalidWeight(code: string) | UndecodableImage(image: string)

  /** PHP's `empty()` on a string. */
  predicate PhpEmpty(s: string) {
    s == "" || s == "0"
  }

  /** PHP's `substr($s, $start, $length)` for non-negative arguments. */
  function Substr(s: string, start: nat, length: nat): (t: string)
    ensures |t| <= length
    ensures start + length <= |s| ==> |t| == length
    ensures forall i :: 0 <= i < |t| ==> start + i < |s| && t[i] == s[start + i]
  {
    var lo := if start < |s| then start else |s|;
    var hi := if start + length < |s| then start + length else |s|;
    s[lo..hi]
  }

  /** The skip test at the top of the `loadGobos` loop. */
  predicate SkipRow(row: CsvRow) {
    var unusedSeries := row.seriesId !in Manufacturers;
    var unusedMaterial := row.materialId !in Materials;
    // Apollo recoded their gobos.
    var unusedCode := row.seriesId == ManuApollo && Substr(row.code, 0, 2) == "MS";
    PhpEmpty(row.image) || unusedSeries || unusedMaterial || unusedCode
  }

  /** The images are stored under a name derived from the image text. */
  function FileName(row: CsvRow): string {
    row.image
  }

  /**
   * `goboFromRow`: the setters in order; a weight PHP cannot coerce to `int`
   * throws before the gobo is complete. The image id is set afterwards, and
   * `adjustOpacity` keeps the entity's default of true until then.
   */
  function GoboFromRow(row: CsvRow): (r: Result<ImportedGobo, ImportError>)
    requires !SkipRow(row)
    ensures r.Failure? <==> row.weightCode.None?
    ensures r.Success? ==>
              && r.value.manufacturer == Manufacturers[row.seriesId]
              && r.value.material == Materials[row.materialId]
              && (r.value.material == "Steel" <==> row.materialId == MaterialSteel)
              && (r.value.manufacturer == "Apollo" <==> row.seriesId == ManuApollo)
              && r.value.name == row.name && r.value.code == row.code
              && r.value.sortWeight == row.weightCode.value
              && r.value.adjustOpacity
  {
    match row.weightCode
      case None => Failure(InvalidWeight(row.code))
      case Some(w) => Success(ImportedGobo(Manufacturers[row.seriesId], Materials[row.materialId],
                                           row.name, row.code, w, "", true))
  }

  /** `extractImageFromRow` as a function of the row and the file check. */
  function Extract(row: CsvRow, fileExists: bool): Result<Extraction, ImportError> {
    if fileExists then
      // Processed already: nothing is decoded and the flag stays false.
      Success(Extraction(false, None))
    else match row.decoded
      case None => Failure(UndecodableImage(row.image))
      case Some(img) =>
        if row.materialId == MaterialSteel && AllGray(img) then
          Success(Extraction(true, Some(PunchOutImage(img))))
        else
          Success(Extraction(false, Some(img)))
  }

  /**
   * `extractImageFromRow`: classification runs only for steel and finishes
   * before the first pixel is rewritten.
   */
  method ExtractImageFromRow(row: CsvRow, fileExists: bool) returns (res: Result<Extraction, ImportError>)
    ensures res == Extract(row, fileExists)
    ensures res.Failure? <==> !fileExists && row.decoded.None?
    ensures res.Success? ==>
              (res.value.punchout <==> !fileExists && row.materialId == MaterialSteel && AllGray(row.decoded.value))
    ensures res.Success? ==> (res.value.saved.None? <==> fileExists)
    ensures res.Success? && !res.value.punchout && !fileExists ==> res.value.saved == row.decoded
  {
    if fileExists {
      return Success(Extraction(false, None));
    }
    if row.decoded.None? {
      return Failure(UndecodableImage(row.image));
    }
    var image := row.decoded.value;
    var punchout := false;
    if row.materialId == MaterialSteel {
      punchout := IsGrayscale(image);
    }
    if punchout {
      image := PunchOut(image);
    }
    return Success(Extraction(punchout, Some(image)));
  }

  /** Files already written and the gobos persisted so far. */
  datatype Loaded = Loaded(files: set<string>, gobos: seq<ImportedGobo>)

  /** One pass of the `loadGobos` loop body. */
  function LoadRow(st: Loaded, row: CsvRow): Result<Loaded, ImportError> {
    if SkipRow(row) then
      Success(st)
    else match GoboFromRow(row)
      case Failure(e) => Failure(e)
      case Success(gobo) =>
        match Extract(row, FileName(row) in st.files)
          case Failure(e) => Failure(e)
          case Success(ext) =>
            var done := gobo.(imageId := FileName(row), adjustOpacity := !ext.punchout);
            Success(Loaded(st.files + {FileName(row)}, st.gobos + [done]))
  }

  /** `loadGobos`: the rows in order, starting from the files already present. */
  function LoadGobos(rows: seq<CsvRow>, existing: set<string>): Result<Loaded, ImportError>
    decreases |rows|
  {
    if |rows| == 0 then
      Success(Loaded(existing, []))
    else match LoadGobos(rows[..|rows| - 1], existing)
      case Failure(e) => Failure(e)
      case Success(st) => LoadRow(st, rows[|rows| - 1])
  }

  /** The rows that are not skipped, in order. */
  function Kept(rows: seq<CsvRow>): (kept: seq<CsvRow>)
    ensures |kept| <= |rows|
    ensures forall i :: 0 <= i < |kept| ==> !SkipRow(kept[i])
    decreases |rows|
  {
    if |rows| == 0 then []
    else if SkipRow(rows[|rows| - 1]) then Kept(rows[..|rows| - 1])
    else Kept(rows[..|rows| - 1]) + [rows[|rows| - 1]]
  }

  function Images(rows: seq<CsvRow>): set<string>
    decreases |rows|
  {
    if |rows| == 0 then {} else Images(rows[..|rows| - 1]) + {FileName(rows[|rows| - 1])}
  }

  /** The i-th kept row is the first to bring its image file into existence. */
  predicate FirstWithImage(kept: seq<CsvRow>, i: nat, existing: set<string>)
    requires i < |kept|
  {
    FileName(kept[i]) !in existing + Images(kept[..i])
  }

  /** The i-th kept row has its image punched out. */
  predicate PunchedOut(kept: seq<CsvRow>, i: nat, existing: set<string>)
    requires i < |kept|
  {
    && FirstWithImage(kept, i, existing)
    && kept[i].materialId == MaterialSteel
    && kept[i].decoded.Some?
    && AllGray(kept[i].decoded.value)
  }

  /** The gobo the i-th kept row becomes. */
  function ExpectedGobo(kept: seq<CsvRow>, i: nat, existing: set<string>): ImportedGobo
    requires i < |kept| && !SkipRow(kept[i]) && kept[i].weightCode.Some?
  {
    var row := kept[i];
    ImportedGobo(Manufacturers[row.seriesId], Materials[row.materialId], row.name, row.code,
                 row.weightCode.value, FileName(row), !PunchedOut(kept, i, existing))
  }

  /**
   * A completed import persists one gobo per kept row, in order, and a gobo
   * is flagged to keep its opacity unadjusted exactly when its row is steel,
   * its image is grayscale and no earlier row or earlier run wrote that image.
   */
  lemma {:induction false} LoadGobosSpec(rows: seq<CsvRow>, existing: set<string>)
    requires LoadGobos(rows, existing).Success?
    ensures LoadGobos(rows, existing).value.files == existing + Images(Kept(rows))
    ensures |LoadGobos(rows, existing).value.gobos| == |Kept(rows)|
    ensures forall i :: 0 <= i < |Kept(rows)| ==> Kept(rows)[i].weightCode.Some?
    ensures forall i :: 0 <= i < |Kept(rows)| ==>
              LoadGobos(rows, existing).value.gobos[i] == ExpectedGobo(Kept(rows), i, existing)
    decreases |rows|
  {
    if |rows| > 0 {
      var init, row := rows[..|rows| - 1], rows[|rows| - 1];
      LoadGobosSpec(init, existing);
      var st := LoadGobos(init, existing).value;
      assert LoadGobos(rows, existing) == LoadRow(st, row);
      if !SkipRow(row) {
        var k0 := Kept(init);
        assert Kept(rows) == k0 + [row];
        LoadRowAppends(st, row, k0, existing);
        ExpectedGobosSnoc(k0, row, existing);
      }
    }
  }

  /** A kept row that loads appends the gobo it is expected to become. */
  lemma LoadRowAppends(st: Loaded, row: CsvRow, k0: seq<CsvRow>, existing: set<string>)
    requires !SkipRow(row) && LoadRow(st, row).Success?
    requires st.files == existing + Images(k0)
    ensures row.weightCode.Some?
    ensures LoadRow(st, row).value.files == existing + Images(k0 + [row])
    ensures LoadRow(st, row).value.gobos == st.gobos + [ExpectedGobo(k0 + [row], |k0|, existing)]
  {
    var kept := k0 + [row];
    assert kept[..|k0|] == k0;
    assert Images(kept) == Images(k0) + {FileName(row)};
    var gobo := GoboFromRow(row).value;
    var ext := Extract(row, FileName(row) in st.files).value;
    assert LoadRow(st, row).value.gobos == st.gobos + [gobo.(imageId := FileName(row), adjustOpacity := !ext.punchout)];
    assert ext.punchout <==> PunchedOut(kept, |k0|, existing);
  }

  /** Appending a row does not change what the rows before it become. */
  lemma ExpectedGobosSnoc(k0: seq<CsvRow>, row: CsvRow, existing: set<string>)
    requires forall i :: 0 <= i < |k0| ==> !SkipRow(k0[i]) && k0[i].weightCode.Some?
    ensures forall i :: 0 <= i < |k0| ==> ExpectedGobo(k0 + [row], i, existing) == ExpectedGobo(k0, i, existing)
  {
    forall i | 0 <= i < |k0|
      ensures ExpectedGobo(k0 + [row], i, existing) == ExpectedGobo(k0, i, existing)
    {
      assert (k0 + [row])[..i] == k0[..i];
    }
  }

  /**
   * A row whose image another row already wrote is never flagged as punched
   * out, even when it is steel and grayscale.
   */
  lemma RepeatedImageAdjustsOpacity(rows: seq<CsvRow>, existing: set<string>, i: nat, j: nat)
    requires LoadGobos(rows, existing).Success?
    requires i < j < |Kept(rows)| && FileName(Kept(rows)[i]) == FileName(Kept(rows)[j])
    ensures j < |LoadGobos(rows, existing).value.gobos|
    ensures LoadGobos(rows, existing).value.gobos[j].adjustOpacity
  {
    LoadGobosSpec(rows, existing);
    ImagesContains(Kept(rows)[..j], i);
  }

  lemma {:induction false} ImagesContains(rows: seq<CsvRow>, i: nat)
    requires i < |rows|
    ensures FileName(rows[i]) in Images(rows)
    decreases |rows|
  {
    if i < |rows| - 1 {
      ImagesContains(rows[..|rows| - 1], i);
    }
  }

  /** The i-th kept row stops the import: its weight is rejected, or it writes a new file and cannot decode its image. */
  predicate StopsAt(kept: seq<CsvRow>, i: nat, existing: set<string>)
    requires i < |kept|
  {
    kept[i].weightCode.None? || (FirstWithImage(kept, i, existing) && kept[i].decoded.None?)
  }

  /** Some kept row stops the import. */
  predicate Stops(kept: seq<CsvRow>, existing: set<string>) {
    exists i :: 0 <= i < |kept| && StopsAt(kept, i, existing)
  }

  lemma StopsSnoc(k0: seq<CsvRow>, row: CsvRow, existing: set<string>)
    ensures Stops(k0 + [row], existing) <==>
              || Stops(k0, existing)
              || row.weightCode.None?
              || (FileName(row) !in existing + Images(k0) && row.decoded.None?)
  {
    var kept := k0 + [row];
    assert kept[..|k0|] == k0;
    forall i | 0 <= i < |k0|
      ensures StopsAt(kept, i, existing) == StopsAt(k0, i, existing)
    {
      assert kept[..i] == k0[..i];
    }
    if Stops(kept, existing) {
      var i :| 0 <= i < |kept| && StopsAt(kept, i, existing);
      if i < |k0| {
        assert StopsAt(k0, i, existing);
      }
    }
    if Stops(k0, existing) {
      var i :| 0 <= i < |k0| && StopsAt(k0, i, existing);
      assert StopsAt(kept, i, existing);
    }
    if row.weightCode.None? || (FileName(row) !in existing + Images(k0) && row.decoded.None?) {
      assert StopsAt(kept, |k0|, existing);
    }
  }

  /**
   * The import stops exactly when a kept row has a weight `setSortWeight`
   * rejects, or has to write a new image file and its image does not decode.
   */
  lemma {:induction false} LoadGobosFailsIff(rows: seq<CsvRow>, existing: set<string>)
    ensures LoadGobos(rows, existing).Failure? <==> Stops(Kept(rows), existing)
    decreases |rows|
  {
    if |rows| > 0 {
      var init, row := rows[..|rows| - 1], rows[|rows| - 1];
      LoadGobosFailsIff(init, existing);
      if !SkipRow(row) {
        StopsSnoc(Kept(init), row, existing);
        if LoadGobos(init, existing).Success? {
          LoadGobosSpec(init, existing);
        }
      }
    }
  }

  /** The skip test spelled out with the loaded ids. */
  lemma SkipRowIff(row: CsvRow)
    ensures SkipRow(row) <==>
              || row.image == "" || row.image == "0"
              || row.seriesId !in {1, 2, 3}
              || row.materialId !in {1, 2, 4}
              || (row.seriesId == 1 && |row.code| >= 2 && row.code[0] == 'M' && row.code[1] == 'S')
  {
  }

  /**
   * Two small images: a gray steel one is punched out (the gray pixel opens to
   * alpha 100, the black one stays opaque and is not rewritten) and a pure red
   * steel one is saved unchanged with the flag false.
   */
  lemma ExtractScenarios()
    ensures Extract(CsvRow(1, MaterialSteel, "Gobo", "G1", Some(0), "img",
                           Some(Image(2, 1, [[Pixel(200, 200, 200, 0)], [Pixel(0, 0, 0, 0)]]))), false)
         == Success(Extraction(true, Some(Image(2, 1, [[Pixel(200, 200, 200, 100)], [Pixel(0, 0, 0, 0)]]))))
    ensures Extract(CsvRow(1, MaterialSteel, "Gobo", "G2", Some(0), "img",
                           Some(Image(1, 1, [[Pixel(255, 0, 0, 0)]]))), false)
         == Success(Extraction(false, Some(Image(1, 1, [[Pixel(255, 0, 0, 0)]]))))
  {
    var gray := Image(2, 1, [[Pixel(200, 200, 200, 0)], [Pixel(0, 0, 0, 0)]]);
    assert AllGray(gray);
    assert AverageIntensity(Pixel(200, 200, 200, 0)) == 200;
    var out := PunchOutImage(gray);
    assert out.columns[0] == [Pixel(200, 200, 200, 100)];
    assert out.columns[1] == [Pixel(0, 0, 0, 0)];
    assert out == Image(2, 1, [[Pixel(200, 200, 200, 100)], [Pixel(0, 0, 0, 0)]]);
    var red := Image(1, 1, [[Pixel(255, 0, 0, 0)]]);
    assert Disqualifies(red.columns[0][0]);
  }
}
