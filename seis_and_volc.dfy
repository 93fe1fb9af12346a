/** The conversion of the seismic/volcanic code workbook: each sheet's rows
    are projected onto the `NAME_MAP` fields, keyed by their code, given
    station or volcano coordinates where the sheet calls for them, and
    written out per sheet. */
module SeisAndVolc {
  import opened Wrappers
  import opened Strings
  import opened OrderedMaps
  import SeisvolcPoint

  // ---------------------------------------------------------------------------
  // Tables of the converter
  // ---------------------------------------------------------------------------

  /** `SHEETS_IGNORE` */
  const SheetsIgnore: seq<string> := ["エクセルシート一覧", "更新履歴"]

  /** The column renames of the station sheets; `RENAME_COLUMNS` gives sheets
      "24" and "25" this same table. */
  const StationRenames: map<string, string> := map[
    "Code" := "seisSaibunCode", "Code.1" := "cityCode", "Code.2" := "Code",
    "Name" := "seisSaibunName", "Name.1" := "cityName", "Name.2" := "Name",
    "ふりがな" := "seisSaibunKana", "ふりがな.1" := "cityKana", "ふりがな.2" := "ふりがな"]

  /** `RENAME_COLUMNS` */
  const RenameColumns: map<string, map<string, string>> := map["24" := StationRenames, "25" := StationRenames]

  /** `NAME_MAP`, in its order: source column, output field. */
  const NameMap: seq<(string, string)> := [
    ("Code", "code"), ("Name", "name"), ("備考", "note"), ("ふりがな", "kana"), ("Text", "text"),
    ("Name.1", "name2"), ("Code.1", "code2"), ("Name.2", "name3"), ("Code.2", "code3"),
    ("seisSaibunCode", "seisSaibunCode"), ("seisSaibunName", "seisSaibunName"), ("seisSaibunKana", "seisSaibunKana"),
    ("cityCode", "cityCode"), ("cityName", "cityName"), ("cityKana", "cityKana")]

  /** `SHEET_NAME_MAP`: the output table of each sheet. */
  const SheetNameMap: map<string, string> := map[
    "11" := "EarthquakeWarning", "12" := "EarthquakeForecast", "14" := "TsunamiWarning",
    "21" := "AreaForecastEEW", "22" := "AreaForecastLocalEEW", "23" := "AreaInformationPrefectureEarthquake",
    "24" := "PointSeismicIntensity", "25" := "PointRealtimeSeismicIntensity", "26" := "PointSeismicLgIntensity",
    "31" := "AreaTsunami", "34" := "CoastTsunami", "35" := "PointTsunami",
    "41" := "AreaEpicenter", "42" := "AreaEpicenterAbbreviation", "43" := "AreaEpicenterDetail",
    "44" := "AreaEpicenterSuppliment", "51" := "TokaiInformation", "52" := "EarthquakeInformation",
    "62" := "AdditionalCommentEarthquake", "81" := "VolcanicWarning", "82" := "PointVolcano"]

  /** The sheets the converter treats specially all have an output table. */
  lemma SheetNameMapCovers()
    ensures "24" in SheetNameMap && "25" in SheetNameMap && "35" in SheetNameMap && "82" in SheetNameMap
  {
  }

  /** `SHEET_CODE_ZERO_PAD` */
  const SheetCodeZeroPad: map<string, int> := map["35" := 5]

  /** The `NAME_MAP` fields are distinct, and so are their source columns. */
  lemma NameMapDistinct()
    ensures forall i, j :: 0 <= i < j < |NameMap| ==> NameMap[i].1 != NameMap[j].1
    ensures forall i, j :: 0 <= i < j < |NameMap| ==> NameMap[i].0 != NameMap[j].0
    ensures forall i :: 0 <= i < |NameMap| ==> NameMap[i].1 != "lnglat" && NameMap[i].1 != "owner"
  {
  }

  // ---------------------------------------------------------------------------
  // Sheets, rows and records
  // ---------------------------------------------------------------------------

  /** A spreadsheet cell: its text, or `None` for an empty (NaN) cell. */
  type Cell = Option<string>

  /** A sheet as read: its name, its column labels in order, and its rows. */
  datatype Sheet = Sheet(name: string, columns: seq<string>, rows: seq<seq<Cell>>)

  /** An output value: a text field, a `[lng, lat]` pair, or JSON `null`. */
  datatype Value = Text(text: string) | LngLat(lng: real, lat: real) | Null

  type Record = map<string, Value>

  datatype SheetError =
    | DuplicateColumn(column: string)  // two columns carry the label a row is read by
    | MissingColumn(column: string)    // `row["Code"]` on a sheet without that column
    | NullCode                         // a row whose code cell is empty
    | MissingField(field: string)      // `r["name"]`, `r["cityCode"]` or `item["name"]` absent
    | StationLookup(error: SeisvolcPoint.StationError)
    | UnknownSheet(name: string)       // no `SHEET_NAME_MAP` entry for the sheet

  /** `df.rename(columns=renames)` */
  function Renamed(cols: seq<string>, renames: map<string, string>): (r: seq<string>)
    ensures |r| == |cols|
    ensures forall j :: 0 <= j < |cols| ==> r[j] == if cols[j] in renames then renames[cols[j]] else cols[j]
  {
    seq(|cols|, j requires 0 <= j < |cols| => if cols[j] in renames then renames[cols[j]] else cols[j])
  }

  /** Where label `k` sits among the columns. */
  datatype ColumnLookup = Absent | At(index: nat) | Duplicated

  function Column(cols: seq<string>, k: string): (r: ColumnLookup)
    ensures r.Absent? <==> forall j :: 0 <= j < |cols| ==> cols[j] != k
    ensures r.At? ==> r.index < |cols| && cols[r.index] == k && forall j :: 0 <= j < |cols| && j != r.index ==> cols[j] != k
    ensures r.Duplicated? ==> exists i, j :: 0 <= i < j < |cols| && cols[i] == k && cols[j] == k
  {
    if cols == [] then Absent
    else
      var n := |cols| - 1;
      var r := Column(cols[..n], k);
      assert forall j :: 0 <= j < n ==> cols[..n][j] == cols[j];
      if cols[n] != k then r
      else if r.Absent? then At(n)
      else if r.At? then assert cols[r.index] == k; Duplicated
      else Duplicated
  }

  /** Two label lists that carry their labels at the same positions give
      the same lookup. */
  lemma {:induction false} ColumnSame(a: seq<string>, ka: string, b: seq<string>, kb: string)
    requires |a| == |b| && forall j :: 0 <= j < |a| ==> (a[j] == ka <==> b[j] == kb)
    ensures Column(a, ka) == Column(b, kb)
  {
    if a != [] {
      var n := |a| - 1;
      ColumnSame(a[..n], ka, b[..n], kb);
    }
  }

  /** A rename that sends exactly one label `src` to `dst`, and renames any
      original `dst` column away, puts `dst` exactly where `src` was. */
  lemma RenamedOnto(cols: seq<string>, renames: map<string, string>, src: string, dst: string)
    requires src in renames && renames[src] == dst
    requires dst in renames && renames[dst] != dst
    requires forall l :: l in renames && renames[l] == dst ==> l == src
    ensures Column(Renamed(cols, renames), dst) == Column(cols, src)
  {
    ColumnSame(Renamed(cols, renames), dst, cols, src);
  }

  /** The station renames send only "Code.2" to "Code" and only "Name.2" to
      "Name", and rename the original "Code" and "Name" columns away. */
  lemma StationRenamesOnto()
    ensures forall l :: l in StationRenames && StationRenames[l] == "Code" ==> l == "Code.2"
    ensures forall l :: l in StationRenames && StationRenames[l] == "Name" ==> l == "Name.2"
  {
  }

  /** On the station sheets the renamed "Code" and "Name" columns are the
      original "Code.2" and "Name.2", wherever those sit. */
  lemma StationRenamedColumns(cols: seq<string>)
    ensures Column(Renamed(cols, StationRenames), "Code") == Column(cols, "Code.2")
    ensures Column(Renamed(cols, StationRenames), "Name") == Column(cols, "Name.2")
  {
    StationRenamesOnto();
    RenamedOnto(cols, StationRenames, "Code.2", "Code");
    RenamedOnto(cols, StationRenames, "Name.2", "Name");
  }

  function CellAt(row: seq<Cell>, j: nat): Cell {
    if j < |row| then row[j] else None
  }

  /** `k in row` and `row[k]`: `Ok(None)` when there is no such column; a
      duplicated label makes pandas return a series, whose truth value is an
      error. */
  function Lookup(cols: seq<string>, row: seq<Cell>, k: string): Result<Option<Cell>, SheetError> {
    match Column(cols, k)
    case Absent => Ok(None)
    case At(j) => Ok(Some(CellAt(row, j)))
    case Duplicated => Err(DuplicateColumn(k))
  }

  /** A field value: stripped, and zero-filled from a "Code" column on a
      sheet of `SHEET_CODE_ZERO_PAD`. */
  function FieldValue(sheet: string, k: string, text: string): string {
    var value := Strip(text);
    if Contains(k, "Code") && sheet in SheetCodeZeroPad then ZFill(value, SheetCodeZeroPad[sheet]) else value
  }

  /** The `NAME_MAP` loop, over the (source column, field) pairs `fields`. */
  function Project(sheet: string, cols: seq<string>, row: seq<Cell>, fields: seq<(string, string)>): (r: Result<Record, SheetError>)
    ensures r.Ok? ==> forall f :: f in r.value ==> r.value[f].Text?
  {
    if fields == [] then Ok(map[])
    else
      match Project(sheet, cols, row, fields[..|fields| - 1])
      case Err(e) => Err(e)
      case Ok(r) =>
        var k := fields[|fields| - 1].0;
        var v := fields[|fields| - 1].1;
        match Lookup(cols, row, k)
        case Err(e) => Err(e)
        case Ok(None) => Ok(r)
        case Ok(Some(None)) => Ok(r)
        case Ok(Some(Some(text))) => Ok(r[v := Text(FieldValue(sheet, k, text))])
  }

  /** Column `k` exists once and its cell in `row` holds text. */
  predicate Filled(cols: seq<string>, row: seq<Cell>, k: string) {
    Column(cols, k).At? && CellAt(row, Column(cols, k).index).Some?
  }

  /** The projection fails exactly when one of its columns is duplicated. */
  lemma {:induction false} ProjectFails(sheet: string, cols: seq<string>, row: seq<Cell>, fields: seq<(string, string)>)
    ensures Project(sheet, cols, row, fields).Ok? <==> forall i :: 0 <= i < |fields| ==> !Column(cols, fields[i].0).Duplicated?
  {
    if fields != [] {
      var p := fields[..|fields| - 1];
      ProjectFails(sheet, cols, row, p);
      assert forall i :: 0 <= i < |p| ==> p[i] == fields[i];
    }
  }

  /** Field names are pairwise distinct. */
  predicate DistinctFields(fields: seq<(string, string)>) {
    forall i, j :: 0 <= i < j < |fields| ==> fields[i].1 != fields[j].1
  }

  /** A successful projection holds only fields of its list. */
  lemma {:induction false} ProjectKeys(sheet: string, cols: seq<string>, row: seq<Cell>, fields: seq<(string, string)>)
    requires Project(sheet, cols, row, fields).Ok?
    ensures forall f :: f in Project(sheet, cols, row, fields).value ==> exists i :: 0 <= i < |fields| && fields[i].1 == f
  {
    if fields != [] {
      var n := |fields| - 1;
      var p := fields[..n];
      ProjectKeys(sheet, cols, row, p);
      var r := Project(sheet, cols, row, p).value;
      forall f | f in Project(sheet, cols, row, fields).value
        ensures exists i :: 0 <= i < |fields| && fields[i].1 == f
      {
        if f in r {
          var i :| 0 <= i < |p| && p[i].1 == f;
          assert fields[i].1 == f;
        } else {
          assert fields[n].1 == f;
        }
      }
    }
  }

  /** With distinct field names, a successful projection holds a field
      exactly when its column exists and is filled. */
  lemma {:induction false} ProjectHas(sheet: string, cols: seq<string>, row: seq<Cell>, fields: seq<(string, string)>)
    requires DistinctFields(fields) && Project(sheet, cols, row, fields).Ok?
    ensures forall i :: 0 <= i < |fields| ==> (fields[i].1 in Project(sheet, cols, row, fields).value <==> Filled(cols, row, fields[i].0))
  {
    if fields != [] {
      var n := |fields| - 1;
      var p := fields[..n];
      ProjectHas(sheet, cols, row, p);
      ProjectKeys(sheet, cols, row, p);
      var r := Project(sheet, cols, row, p).value;
      var v := fields[n].1;
      forall i | 0 <= i < |p|
        ensures p[i].1 != v
      {
        assert p[i] == fields[i];
      }
      assert v !in r;
      forall i | 0 <= i < n
        ensures fields[i].1 in Project(sheet, cols, row, fields).value <==> Filled(cols, row, fields[i].0)
      {
        assert p[i] == fields[i];
        assert fields[i].1 != v;
      }
    }
  }

  /** With distinct field names, each filled field of a successful projection
      is its stripped (and, on sheet "35", zero-filled) cell. */
  lemma {:induction false} ProjectValues(sheet: string, cols: seq<string>, row: seq<Cell>, fields: seq<(string, string)>)
    requires DistinctFields(fields) && Project(sheet, cols, row, fields).Ok?
    ensures forall i :: 0 <= i < |fields| && Filled(cols, row, fields[i].0) ==>
              && fields[i].1 in Project(sheet, cols, row, fields).value
              && Project(sheet, cols, row, fields).value[fields[i].1] ==
                   Text(FieldValue(sheet, fields[i].0, CellAt(row, Column(cols, fields[i].0).index).value))
  {
    ProjectHas(sheet, cols, row, fields);
    if fields != [] {
      var n := |fields| - 1;
      var p := fields[..n];
      ProjectValues(sheet, cols, row, p);
      var v := fields[n].1;
      forall i | 0 <= i < n && Filled(cols, row, fields[i].0)
        ensures Project(sheet, cols, row, fields).value[fields[i].1] ==
                  Text(FieldValue(sheet, fields[i].0, CellAt(row, Column(cols, fields[i].0).index).value))
      {
        assert p[i] == fields[i];
        assert fields[i].1 != v;
      }
    }
  }

  // ---------------------------------------------------------------------------
  // Items
  // ---------------------------------------------------------------------------

  /** A tsunami observation point, from `get_point_tsunami_locations`. */
  datatype TsunamiPoint = TsunamiPoint(lat: real, lng: real, owner: string)

  /** What the converter takes from outside the workbook: the station
      finder (`IntensityPoints.find_station`), the volcano coordinates
      (`get_volc_points`, as `(lon, lat)`) and the tsunami point locations. */
  datatype Sources = Sources(
    findStation: (string, string) -> Result<Option<SeisvolcPoint.PointInfo>, SeisvolcPoint.StationError>,
    volc: map<string, (real, real)>,
    locs: map<string, TsunamiPoint>)

  /** The coordinates a row gets: on sheet "24" those of the station found
      for its name and city code (or `null`), on sheet "82" those of its
      volcano when listed. */
  function Located(sheet: string, r: Record, code: string, src: Sources): Result<Record, SheetError>
    requires forall f :: f in r ==> r[f].Text?
  {
    if sheet == "24" then
      if "name" !in r then Err(MissingField("name"))
      else if "cityCode" !in r then Err(MissingField("cityCode"))
      else
        match src.findStation(r["name"].text, r["cityCode"].text)
        case Err(e) => Err(StationLookup(e))
        case Ok(Some(p)) => Ok(r["lnglat" := LngLat(p.lng, p.lat)])
        case Ok(None) => Ok(r["lnglat" := Null])
    else if sheet == "82" && code in src.volc then Ok(r["lnglat" := LngLat(src.volc[code].0, src.volc[code].1)])
    else Ok(r)
  }

  /** `code.zfill(...)` on a sheet of `SHEET_CODE_ZERO_PAD`. */
  function ItemKey(sheet: string, code: string): string {
    if sheet in SheetCodeZeroPad then ZFill(code, SheetCodeZeroPad[sheet]) else code
  }

  /** One row of the item loop: its key and its record. */
  function RowItem(sheet: string, cols: seq<string>, row: seq<Cell>, src: Sources): Result<(string, Record), SheetError> {
    match Project(sheet, cols, row, NameMap)
    case Err(e) => Err(e)
    case Ok(r) =>
      match Lookup(cols, row, "Code")
      case Err(e) => Err(e)
      case Ok(None) => Err(MissingColumn("Code"))
      case Ok(Some(None)) => Err(NullCode)
      case Ok(Some(Some(code))) =>
        match Located(sheet, r, code, src)
        case Err(e) => Err(e)
        case Ok(r') => Ok((ItemKey(sheet, code), r'))
  }

  /** An item is keyed by its raw `Code` cell, zero-filled to five places on
      sheet "35"; on sheet "24" it always gets `lnglat`, the found station's
      `[lng, lat]` or `null`; on sheet "82" it gets `lnglat` exactly when its
      code is a listed volcano; every other field is its projected field. */
  lemma RowItemShape(sheet: string, cols: seq<string>, row: seq<Cell>, src: Sources)
    requires RowItem(sheet, cols, row, src).Ok?
    ensures var code := Lookup(cols, row, "Code");
            var item := RowItem(sheet, cols, row, src).value;
            var r := Project(sheet, cols, row, NameMap).value;
            && Project(sheet, cols, row, NameMap).Ok?
            && code.Ok? && code.value.Some? && code.value.value.Some?
            && item.0 == (if sheet == "35" then ZFill(code.value.value.value, 5) else code.value.value.value)
            && item.1.Keys - {"lnglat"} == r.Keys
            && (forall f :: f in r ==> item.1[f] == r[f])
            && (sheet == "24" ==>
                  "name" in r && "cityCode" in r &&
                  var found := src.findStation(r["name"].text, r["cityCode"].text);
                  found.Ok? && item.1["lnglat"] == if found.value.Some? then LngLat(found.value.value.lng, found.value.value.lat) else Null)
            && (sheet == "82" ==>
                  ("lnglat" in item.1 <==> code.value.value.value in src.volc)
                  && (code.value.value.value in src.volc ==>
                        item.1["lnglat"] == LngLat(src.volc[code.value.value.value].0, src.volc[code.value.value.value].1)))
            && (sheet != "24" && sheet != "82" ==> item.1 == r)
  {
    NameMapDistinct();
    ProjectKeys(sheet, cols, row, NameMap);
    var r := Project(sheet, cols, row, NameMap).value;
    assert "lnglat" !in r;
  }

  /** Each row's item, in row order. */
  function RowItems(sheet: string, cols: seq<string>, rows: seq<seq<Cell>>, src: Sources): (rs: seq<Result<(string, Record), SheetError>>)
    ensures |rs| == |rows| && forall i :: 0 <= i < |rows| ==> rs[i] == RowItem(sheet, cols, rows[i], src)
  {
    seq(|rows|, i requires 0 <= i < |rows| => RowItem(sheet, cols, rows[i], src))
  }

  /** The item loop of a sheet: `items[code] = r` for each row in turn, so a
      later row with the same key replaces the earlier record in the place
      the key first took, and the first failing row stops the sheet. */
  function ItemsFold(sheet: string, cols: seq<string>, rows: seq<seq<Cell>>, src: Sources): Result<OrderedMap<string, Record>, SheetError> {
    PutAll(RowItems(sheet, cols, rows, src))
  }

  /** The item loop succeeds exactly when every row does, and then its
      dictionary is the one built by assigning the rows' items in order (so
      `OrderedMaps.MapFromPairsAt` gives the last row's record per key and
      `OrderedMaps.FromPairsOrder` the first row's place); otherwise it
      reports the first failing row. */
  lemma ItemsFoldOutcome(sheet: string, cols: seq<string>, rows: seq<seq<Cell>>, src: Sources)
    ensures ItemsFold(sheet, cols, rows, src).Ok? <==> forall i :: 0 <= i < |rows| ==> RowItem(sheet, cols, rows[i], src).Ok?
    ensures ItemsFold(sheet, cols, rows, src).Ok? ==>
              && ItemsFold(sheet, cols, rows, src).value.Valid()
              && ItemsFold(sheet, cols, rows, src).value == FromPairs(OkValues(RowItems(sheet, cols, rows, src)))
    ensures ItemsFold(sheet, cols, rows, src).Err? ==>
              exists i :: 0 <= i < |rows| && RowItem(sheet, cols, rows[i], src) == Err(ItemsFold(sheet, cols, rows, src).error)
                          && forall j :: 0 <= j < i ==> RowItem(sheet, cols, rows[j], src).Ok?
  {
    var rs := RowItems(sheet, cols, rows, src);
    PutAllPairs(rs);
    if PutAll(rs).Ok? {
      PutAllValid(rs);
    } else {
      var i := PutAllFirstError(rs);
      assert RowItem(sheet, cols, rows[i], src) == Err(ItemsFold(sheet, cols, rows, src).error);
    }
  }

  // ---------------------------------------------------------------------------
  // The station sheets' city map
  // ---------------------------------------------------------------------------

  /** An item without its point fields `name`, `code`, `kana` and `lnglat`. */
  function WithoutPointFields(item: Record): (r: Record)
    ensures r.Keys == item.Keys - {"name", "code", "kana", "lnglat"}
    ensures forall k :: k in r ==> r[k] == item[k]
  {
    map k | k in item && k != "name" && k != "code" && k != "kana" && k != "lnglat" :: item[k]
  }

  /** The `city_to_saibun` comprehension over the items in order `ks`. */
  function CityToSaibun(ks: seq<string>, vals: map<string, Record>): map<Value, Record>
    requires forall i :: 0 <= i < |ks| ==> ks[i] in vals
  {
    if ks == [] then map[]
    else
      var m := CityToSaibun(ks[..|ks| - 1], vals);
      var item := vals[ks[|ks| - 1]];
      if "cityCode" in item then m[item["cityCode"] := WithoutPointFields(item)] else m
  }

  /** Item `i` (in order `ks`) carries city `c`. */
  predicate HasCity(ks: seq<string>, vals: map<string, Record>, i: int, c: Value)
    requires forall i :: 0 <= i < |ks| ==> ks[i] in vals
  {
    0 <= i < |ks| && "cityCode" in vals[ks[i]] && vals[ks[i]]["cityCode"] == c
  }

  /** The city map holds exactly the cities of the items that have one. */
  lemma {:induction false} CityToSaibunKeys(ks: seq<string>, vals: map<string, Record>)
    requires forall i :: 0 <= i < |ks| ==> ks[i] in vals
    ensures forall i :: 0 <= i < |ks| && "cityCode" in vals[ks[i]] ==> vals[ks[i]]["cityCode"] in CityToSaibun(ks, vals)
    ensures forall c :: c in CityToSaibun(ks, vals) ==> exists i :: HasCity(ks, vals, i, c)
  {
    if ks != [] {
      var n := |ks| - 1;
      var p := ks[..n];
      CityToSaibunKeys(p, vals);
      assert forall i :: 0 <= i < n ==> p[i] == ks[i];
      forall c | c in CityToSaibun(ks, vals)
        ensures exists i :: HasCity(ks, vals, i, c)
      {
        if c in CityToSaibun(p, vals) {
          var i :| HasCity(p, vals, i, c);
          assert HasCity(ks, vals, i, c);
        } else {
          assert HasCity(ks, vals, n, c);
        }
      }
    }
  }

  /** The last item of a city wins, without its point fields. */
  lemma {:induction false} CityToSaibunAt(ks: seq<string>, vals: map<string, Record>, i: int)
    requires forall i :: 0 <= i < |ks| ==> ks[i] in vals
    requires 0 <= i < |ks| && "cityCode" in vals[ks[i]]
    requires forall j :: i < j < |ks| ==> !HasCity(ks, vals, j, vals[ks[i]]["cityCode"])
    ensures vals[ks[i]]["cityCode"] in CityToSaibun(ks, vals)
    ensures CityToSaibun(ks, vals)[vals[ks[i]]["cityCode"]] == WithoutPointFields(vals[ks[i]])
  {
    CityToSaibunKeys(ks, vals);
    if i < |ks| - 1 {
      var p := ks[..|ks| - 1];
      assert forall j :: 0 <= j < |p| ==> p[j] == ks[j];
      assert forall j :: i < j < |p| ==> !HasCity(p, vals, j, vals[ks[i]]["cityCode"]) by {
        forall j | i < j < |p|
          ensures !HasCity(p, vals, j, vals[ks[i]]["cityCode"])
        {
          assert !HasCity(ks, vals, j, vals[ks[i]]["cityCode"]);
        }
      }
      CityToSaibunAt(p, vals, i);
      assert !HasCity(ks, vals, |ks| - 1, vals[ks[i]]["cityCode"]);
    }
  }

  // ---------------------------------------------------------------------------
  // The tsunami sheet
  // ---------------------------------------------------------------------------

  /** One item of the sheet "35" pass. An item with a known location gets
      `lnglat` and `owner`; one without keeps its record, except that the
      code starting with "0" looks up `name` (the offshore-point test), which
      fails when the item has no name. */
  function TsunamiItem(code: string, item: Record, locs: map<string, TsunamiPoint>): (r: Result<Record, SheetError>)
    ensures r.Err? <==> code !in locs && StartsWith(code, "0") && "name" !in item
    ensures r.Ok? && code in locs ==>
              r.value == item["lnglat" := LngLat(locs[code].lng, locs[code].lat)]["owner" := Text(locs[code].owner)]
    ensures r.Ok? && code !in locs ==> r.value == item
  {
    if code in locs then
      Ok(item["lnglat" := LngLat(locs[code].lng, locs[code].lat)]["owner" := Text(locs[code].owner)])
    else if StartsWith(code, "0") && "name" !in item then Err(MissingField("name"))
    else Ok(item)
  }

  /** The sheet "35" pass over the keys `ks`, updating the records in place. */
  function TsunamiFold(ks: seq<string>, vals: map<string, Record>, locs: map<string, TsunamiPoint>): Result<map<string, Record>, SheetError>
    requires forall i :: 0 <= i < |ks| ==> ks[i] in vals
  {
    if ks == [] then Ok(vals)
    else
      match TsunamiFold(ks[..|ks| - 1], vals, locs)
      case Err(e) => Err(e)
      case Ok(m) =>
        var code := ks[|ks| - 1];
        if code !in m then Ok(m)
        else
          match TsunamiItem(code, m[code], locs)
          case Err(e) => Err(e)
          case Ok(item) => Ok(m[code := item])
  }

  /** Over distinct keys, the pass fails exactly when some item fails, and
      otherwise keeps the keys and updates each visited item once. */
  lemma {:induction false} TsunamiFoldItems(ks: seq<string>, vals: map<string, Record>, locs: map<string, TsunamiPoint>)
    requires forall i :: 0 <= i < |ks| ==> ks[i] in vals
    requires forall i, j :: 0 <= i < j < |ks| ==> ks[i] != ks[j]
    ensures TsunamiFold(ks, vals, locs).Ok? <==> forall i :: 0 <= i < |ks| ==> TsunamiItem(ks[i], vals[ks[i]], locs).Ok?
    ensures TsunamiFold(ks, vals, locs).Ok? ==>
              var m := TsunamiFold(ks, vals, locs).value;
              && m.Keys == vals.Keys
              && (forall i :: 0 <= i < |ks| ==> m[ks[i]] == TsunamiItem(ks[i], vals[ks[i]], locs).value)
              && (forall k :: k in vals && k !in ks ==> m[k] == vals[k])
  {
    if ks != [] {
      var n := |ks| - 1;
      var p := ks[..n];
      assert forall i :: 0 <= i < n ==> p[i] == ks[i];
      TsunamiFoldItems(p, vals, locs);
      assert ks == p + [ks[n]];
      assert ks[n] !in p;
    }
  }

  /** The pass over the whole item dictionary: every item with a known
      location gets `lnglat` and `owner`, every other item is unchanged, and
      no item is added or dropped. */
  lemma TsunamiPass(items: OrderedMap<string, Record>, locs: map<string, TsunamiPoint>)
    requires items.Valid()
    ensures TsunamiFold(items.keys, items.values, locs).Ok? <==>
              forall k :: k in items.values ==> TsunamiItem(k, items.values[k], locs).Ok?
    ensures TsunamiFold(items.keys, items.values, locs).Ok? ==>
              var m := TsunamiFold(items.keys, items.values, locs).value;
              && m.Keys == items.values.Keys
              && forall k :: k in m ==> m[k] == TsunamiItem(k, items.values[k], locs).value
  {
    TsunamiFoldItems(items.keys, items.values, locs);
  }

  // ---------------------------------------------------------------------------
  // Sheets and the workbook
  // ---------------------------------------------------------------------------

  /** A sheet's output: the station sheets' two maps, or the items. */
  datatype SheetOutput =
    | Stations(pointToCity: OrderedMap<string, Record>, cityToSaibun: map<Value, Record>)
    | Items(items: OrderedMap<string, Record>)

  function SheetColumns(name: string, cols: seq<string>): seq<string> {
    if name in RenameColumns then Renamed(cols, RenameColumns[name]) else cols
  }

  /** What one sheet writes: `None` for an ignored sheet, otherwise the
      output file's table name and its contents. */
  function SheetResult(s: Sheet, src: Sources): Result<Option<(string, SheetOutput)>, SheetError> {
    var name := Strip(s.name);
    if name in SheetsIgnore then Ok(None)
    else
      match ItemsFold(name, SheetColumns(name, s.columns), s.rows, src)
      case Err(e) => Err(e)
      case Ok(items) =>
        PutAllValid(RowItems(name, SheetColumns(name, s.columns), s.rows, src));
        var out :=
          if name == "24" || name == "25" then Ok(Stations(items, CityToSaibun(items.keys, items.values)))
          else if name == "35" then
            match TsunamiFold(items.keys, items.values, src.locs)
            case Err(e) => Err(e)
            case Ok(m) => Ok(Items(OrderedMap(items.keys, m)))
          else Ok(Items(items));
        match out
        case Err(e) => Err(e)
        case Ok(o) => if name in SheetNameMap then Ok(Some((SheetNameMap[name], o))) else Err(UnknownSheet(name))
  }

  /** An ignored sheet writes nothing; on the station sheets the columns are
      renamed first and the city map is written beside the items. */
  lemma SheetResultShape(s: Sheet, src: Sources)
    ensures Strip(s.name) in SheetsIgnore <==> SheetResult(s, src) == Ok(None)
    ensures var name := Strip(s.name);
            var items := ItemsFold(name, SheetColumns(name, s.columns), s.rows, src);
            (name == "24" || name == "25") && items.Ok? ==>
              items.value.Valid() && SheetResult(s, src) == Ok(Some((SheetNameMap[name], Stations(items.value, CityToSaibun(items.value.keys, items.value.values)))))
  {
    SheetNameMapCovers();
    var name := Strip(s.name);
    var items := ItemsFold(name, SheetColumns(name, s.columns), s.rows, src);
    if items.Ok? {
      PutAllValid(RowItems(name, SheetColumns(name, s.columns), s.rows, src));
    }
  }

  /** A run over the workbook: the files written, in order, and the error
      that stopped it, if any. */
  datatype Run = Run(writes: seq<(string, SheetOutput)>, error: Option<SheetError>)

  /** Each sheet's result, in workbook order. */
  function SheetResults(sheets: seq<Sheet>, src: Sources): (rs: seq<Result<Option<(string, SheetOutput)>, SheetError>>)
    ensures |rs| == |sheets| && forall i :: 0 <= i < |sheets| ==> rs[i] == SheetResult(sheets[i], src)
  {
    seq(|sheets|, i requires 0 <= i < |sheets| => SheetResult(sheets[i], src))
  }

  /** The sheet loop over the sheets' results: each sheet writes its file in
      turn, and the first failing sheet ends the run. */
  function RunOf(rs: seq<Result<Option<(string, SheetOutput)>, SheetError>>): Run {
    if rs == [] then Run([], None)
    else
      var run := RunOf(rs[..|rs| - 1]);
      if run.error.Some? then run
      else
        match rs[|rs| - 1]
        case Err(e) => Run(run.writes, Some(e))
        case Ok(None) => run
        case Ok(Some(w)) => Run(run.writes + [w], None)
  }

  /** `process()`'s sheet loop. */
  function ProcessFold(sheets: seq<Sheet>, src: Sources): Run {
    RunOf(SheetResults(sheets, src))
  }

  /** Write `t` of a run is the result of sheet `idx[t]`, in sheet order, and
      the run stops exactly at the first failing sheet. */
  lemma {:induction false} RunWrites(rs: seq<Result<Option<(string, SheetOutput)>, SheetError>>) returns (idx: seq<nat>)
    ensures |idx| == |RunOf(rs).writes|
    ensures forall t :: 0 <= t < |idx| ==> idx[t] < |rs| && rs[idx[t]] == Ok(Some(RunOf(rs).writes[t]))
    ensures forall t, u :: 0 <= t < u < |idx| ==> idx[t] < idx[u]
    ensures RunOf(rs).error.None? <==> forall i :: 0 <= i < |rs| ==> rs[i].Ok?
    ensures RunOf(rs).error.None? ==> forall i :: 0 <= i < |rs| && rs[i].value.Some? ==> i in idx
  {
    if rs == [] {
      idx := [];
    } else {
      var n := |rs| - 1;
      var p := rs[..n];
      assert forall i :: 0 <= i < n ==> p[i] == rs[i];
      idx := RunWrites(p);
      if RunOf(p).error.None? && rs[n].Ok? && rs[n].value.Some? {
        idx := idx + [n];
      }
    }
  }

  /** Every write comes from a sheet that is not ignored, the writes follow
      the sheet order, and a run without error writes every sheet that is
      not ignored. */
  lemma ProcessWrites(sheets: seq<Sheet>, src: Sources) returns (idx: seq<nat>)
    ensures |idx| == |ProcessFold(sheets, src).writes|
    ensures forall t :: 0 <= t < |idx| ==>
              && idx[t] < |sheets| && Strip(sheets[idx[t]].name) !in SheetsIgnore
              && SheetResult(sheets[idx[t]], src) == Ok(Some(ProcessFold(sheets, src).writes[t]))
    ensures forall t, u :: 0 <= t < u < |idx| ==> idx[t] < idx[u]
    ensures ProcessFold(sheets, src).error.None? ==>
              forall i :: 0 <= i < |sheets| && Strip(sheets[i].name) !in SheetsIgnore ==> i in idx
  {
    var rs := SheetResults(sheets, src);
    idx := RunWrites(rs);
    forall i | 0 <= i < |sheets|
      ensures Strip(sheets[i].name) in SheetsIgnore <==> SheetResult(sheets[i], src) == Ok(None)
    {
      SheetResultShape(sheets[i], src);
    }
  }

  lemma RunStep(rs: seq<Result<Option<(string, SheetOutput)>, SheetError>>, i: nat, writes: seq<(string, SheetOutput)>)
    requires i < |rs| && RunOf(rs[..i]) == Run(writes, None)
    ensures RunOf(rs[..i + 1]) ==
              match rs[i]
              case Err(e) => Run(writes, Some(e))
              case Ok(None) => Run(writes, None)
              case Ok(Some(w)) => Run(writes + [w], None)
  {
    assert rs[..i + 1][..i] == rs[..i];
  }

  lemma RunErrSticky(rs: seq<Result<Option<(string, SheetOutput)>, SheetError>>, n: nat)
    requires n <= |rs| && RunOf(rs[..n]).error.Some?
    ensures RunOf(rs) == RunOf(rs[..n])
    decreases |rs| - n
  {
    if n < |rs| {
      assert rs[..n + 1][..n] == rs[..n];
      RunErrSticky(rs, n + 1);
    } else {
      assert rs[..n] == rs;
    }
  }

  // ---------------------------------------------------------------------------
  // The loops
  // ---------------------------------------------------------------------------

  /** The `NAME_MAP` loop of one row. */
  method ProjectRow(sheet: string, cols: seq<string>, row: seq<Cell>) returns (res: Result<Record, SheetError>)
    ensures res == Project(sheet, cols, row, NameMap)
  {
    var r: Record := map[];
    var i := 0;
    while i < |NameMap|
      invariant 0 <= i <= |NameMap|
      invariant Project(sheet, cols, row, NameMap[..i]) == Ok(r)
    {
      assert NameMap[..i + 1][..i] == NameMap[..i];
      var k := NameMap[i].0;
      var v := NameMap[i].1;
      var cell := Lookup(cols, row, k);
      if cell.Err? {
        ProjectErrSticky(sheet, cols, row, NameMap, i + 1);
        return Err(cell.error);
      }
      if cell.value.Some? && cell.value.value.Some? {
        var value := Strip(cell.value.value.value);
        if Contains(k, "Code") && sheet in SheetCodeZeroPad {
          value := ZFill(value, SheetCodeZeroPad[sheet]);
        }
        r := r[v := Text(value)];
      }
      i := i + 1;
    }
    assert NameMap[..i] == NameMap;
    return Ok(r);
  }

  lemma ProjectErrSticky(sheet: string, cols: seq<string>, row: seq<Cell>, fields: seq<(string, string)>, n: nat)
    requires n <= |fields| && Project(sheet, cols, row, fields[..n]).Err?
    ensures Project(sheet, cols, row, fields) == Project(sheet, cols, row, fields[..n])
    decreases |fields| - n
  {
    if n < |fields| {
      assert fields[..n + 1][..n] == fields[..n];
      ProjectErrSticky(sheet, cols, row, fields, n + 1);
    } else {
      assert fields[..n] == fields;
    }
  }

  /** One row of the item loop. */
  method RowToItem(sheet: string, cols: seq<string>, row: seq<Cell>, src: Sources) returns (res: Result<(string, Record), SheetError>)
    ensures res == RowItem(sheet, cols, row, src)
  {
    var projected := ProjectRow(sheet, cols, row);
    if projected.Err? {
      return Err(projected.error);
    }
    var r := projected.value;
    var cell := Lookup(cols, row, "Code");
    if cell.Err? {
      return Err(cell.error);
    } else if cell.value.None? {
      return Err(MissingColumn("Code"));
    } else if cell.value.value.None? {
      return Err(NullCode);
    }
    var code := cell.value.value.value;
    if sheet == "24" {
      if "name" !in r {
        return Err(MissingField("name"));
      } else if "cityCode" !in r {
        return Err(MissingField("cityCode"));
      }
      var station := src.findStation(r["name"].text, r["cityCode"].text);
      if station.Err? {
        return Err(StationLookup(station.error));
      }
      if station.value.Some? {
        r := r["lnglat" := LngLat(station.value.value.lng, station.value.value.lat)];
      } else {
        r := r["lnglat" := Null];
      }
    }
    if sheet == "82" && code in src.volc {
      r := r["lnglat" := LngLat(src.volc[code].0, src.volc[code].1)];
    }
    if sheet in SheetCodeZeroPad {
      code := ZFill(code, SheetCodeZeroPad[sheet]);
    }
    return Ok((code, r));
  }

  /** The item loop of a sheet. */
  method BuildItems(sheet: string, cols: seq<string>, rows: seq<seq<Cell>>, src: Sources) returns (res: Result<OrderedMap<string, Record>, SheetError>)
    ensures res == ItemsFold(sheet, cols, rows, src)
  {
    ghost var rs := RowItems(sheet, cols, rows, src);
    var items := EmptyMap();
    var i := 0;
    while i < |rows|
      invariant 0 <= i <= |rows|
      invariant PutAll(rs[..i]) == Ok(items)
    {
      assert rs[..i + 1][..i] == rs[..i];
      var item := RowToItem(sheet, cols, rows[i], src);
      if item.Err? {
        PutAllErrSticky(rs, i + 1);
        return Err(item.error);
      }
      items := items.Put(item.value.0, item.value.1);
      i := i + 1;
    }
    assert rs[..i] == rs;
    return Ok(items);
  }

  lemma TsunamiFoldErrSticky(ks: seq<string>, vals: map<string, Record>, locs: map<string, TsunamiPoint>, n: nat)
    requires forall i :: 0 <= i < |ks| ==> ks[i] in vals
    requires n <= |ks| && TsunamiFold(ks[..n], vals, locs).Err?
    ensures TsunamiFold(ks, vals, locs) == TsunamiFold(ks[..n], vals, locs)
    decreases |ks| - n
  {
    if n < |ks| {
      assert ks[..n + 1][..n] == ks[..n];
      TsunamiFoldErrSticky(ks, vals, locs, n + 1);
    } else {
      assert ks[..n] == ks;
    }
  }

  /** The sheet "35" pass, updating the item records in place. */
  method AttachTsunami(items: OrderedMap<string, Record>, locs: map<string, TsunamiPoint>) returns (res: Result<map<string, Record>, SheetError>)
    requires items.Valid()
    ensures res == TsunamiFold(items.keys, items.values, locs)
  {
    var m := items.values;
    var i := 0;
    while i < |items.keys|
      invariant 0 <= i <= |items.keys|
      invariant TsunamiFold(items.keys[..i], items.values, locs) == Ok(m)
    {
      assert items.keys[..i + 1][..i] == items.keys[..i];
      var code := items.keys[i];
      if code in m {
        if code in locs {
          var loc := locs[code];
          m := m[code := m[code]["lnglat" := LngLat(loc.lng, loc.lat)]["owner" := Text(loc.owner)]];
        } else if StartsWith(code, "0") && "name" !in m[code] {
          TsunamiFoldErrSticky(items.keys, items.values, locs, i + 1);
          return Err(MissingField("name"));
        } else {
          assert m[code := m[code]] == m;
        }
      }
      i := i + 1;
    }
    assert items.keys[..i] == items.keys;
    return Ok(m);
  }

  /** One sheet of the workbook. */
  method ProcessSheet(s: Sheet, src: Sources) returns (res: Result<Option<(string, SheetOutput)>, SheetError>)
    ensures res == SheetResult(s, src)
  {
    var name := Strip(s.name);
    if name in SheetsIgnore {
      return Ok(None);
    }
    var cols := s.columns;
    if name in RenameColumns {
      cols := Renamed(cols, RenameColumns[name]);
    }
    var built := BuildItems(name, cols, s.rows, src);
    if built.Err? {
      return Err(built.error);
    }
    var items := built.value;
    PutAllValid(RowItems(name, cols, s.rows, src));
    var out: SheetOutput;
    if name == "24" || name == "25" {
      out := Stations(items, CityToSaibun(items.keys, items.values));
    } else if name == "35" {
      var attached := AttachTsunami(items, src.locs);
      if attached.Err? {
        return Err(attached.error);
      }
      out := Items(OrderedMap(items.keys, attached.value));
    } else {
      out := Items(items);
    }
    if name !in SheetNameMap {
      return Err(UnknownSheet(name));
    }
    return Ok(Some((SheetNameMap[name], out)));
  }

  /** `process()`: the sheets in workbook order. */
  method ProcessWorkbook(sheets: seq<Sheet>, src: Sources) returns (run: Run)
    ensures run == ProcessFold(sheets, src)
  {
    ghost var rs := SheetResults(sheets, src);
    var writes: seq<(string, SheetOutput)> := [];
    var i := 0;
    while i < |sheets|
      invariant 0 <= i <= |sheets|
      invariant RunOf(rs[..i]) == Run(writes, None)
    {
      assert rs[..i + 1][..i] == rs[..i];
      var r := ProcessSheet(sheets[i], src);
      RunStep(rs, i, writes);
      if r.Err? {
        RunErrSticky(rs, i + 1);
        return Run(writes, Some(r.error));
      }
      if r.value.Some? {
        writes := writes + [r.value.value];
      }
      i := i + 1;
    }
    assert rs[..i] == rs;
    return Run(writes, None);
  }
}
