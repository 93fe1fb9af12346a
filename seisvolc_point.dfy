/** The station catalogue behind the seismic-intensity sheet: three station
    tables (the JMA station page, the JMA station-map catalogue and the
    NIED K-NET list), the rule `find_station` uses to pick a station for a
    JMA observation-point name, and the volcano coordinate list. */
module SeisvolcPoint {
  import opened Wrappers
  import opened Strings
  import opened OrderedMaps

  // ---------------------------------------------------------------------------
  // Names and prefectures
  // ---------------------------------------------------------------------------

  /** The characters a municipality name ends with: 市, 町, 村 and 区. */
  predicate IsCityMark(c: char) {
    c == '市' || c == '町' || c == '村' || c == '区'
  }

  /** Where the match of `^.*?(?:市|町|村|区)` ends, scanning from `from`: the
      first mark, provided no newline (which `.` does not match) comes before
      it. */
  function CityMarkAt(s: string, from: nat): (r: Option<nat>)
    requires from <= |s|
    requires forall j :: 0 <= j < from ==> !IsCityMark(s[j]) && s[j] != '\n'
    ensures r.Some? ==> from <= r.value < |s| && IsCityMark(s[r.value])
    ensures r.Some? ==> forall j :: 0 <= j < r.value ==> !IsCityMark(s[j]) && s[j] != '\n'
    ensures r.None? ==> forall i :: from <= i < |s| && IsCityMark(s[i]) ==> exists j :: from <= j < i && s[j] == '\n'
    decreases |s| - from
  {
    if from == |s| then None
    else if IsCityMark(s[from]) then Some(from)
    else if s[from] == '\n' then None
    else CityMarkAt(s, from + 1)
  }

  /** `_REMOVE_CITY_PAT.sub("", s)`: the shortest prefix ending in a
      municipality mark is removed, if it contains no newline. The result is
      always a suffix of `s`. */
  function StripCity(s: string): (r: string)
    ensures EndsWith(s, r)
    ensures (forall i :: 0 <= i < |s| && IsCityMark(s[i]) ==> exists j :: 0 <= j < i && s[j] == '\n') ==> r == s
    ensures forall i :: 0 <= i < |s| && IsCityMark(s[i]) && (forall j :: 0 <= j < i ==> !IsCityMark(s[j]) && s[j] != '\n') ==>
              r == s[i + 1..]
  {
    match CityMarkAt(s, 0)
    case Some(i) => s[i + 1..]
    case None => s
  }

  /** The prefecture names of `PREFECTURE_MAP`, in code order "01" to "47". */
  const PrefectureNames: seq<string> := [
    "北海道", "青森県", "岩手県", "宮城県", "秋田県", "山形県", "福島県", "茨城県",
    "栃木県", "群馬県", "埼玉県", "千葉県", "東京都", "神奈川県", "新潟県", "富山県",
    "石川県", "福井県", "山梨県", "長野県", "岐阜県", "静岡県", "愛知県", "三重県",
    "滋賀県", "京都府", "大阪府", "兵庫県", "奈良県", "和歌山県", "鳥取県", "島根県",
    "岡山県", "広島県", "山口県", "徳島県", "香川県", "愛媛県", "高知県", "福岡県",
    "佐賀県", "長崎県", "熊本県", "大分県", "宮崎県", "鹿児島県", "沖縄県"]

  /** The two-digit, zero-padded decimal form of `n`. */
  function TwoDigits(n: nat): (s: string)
    requires n < 100
    ensures |s| == 2 && '0' <= s[0] <= '9' && '0' <= s[1] <= '9'
    ensures (s[0] as int - '0' as int) * 10 + (s[1] as int - '0' as int) == n
  {
    [('0' as int + n / 10) as char, ('0' as int + n % 10) as char]
  }

  /** The entries of the codes "01" up to `TwoDigits(n)`, named from `names`. */
  function PrefecturesUpTo(names: seq<string>, n: nat): map<string, string>
    requires n <= |names| < 100
  {
    if n == 0 then map[] else PrefecturesUpTo(names, n - 1)[TwoDigits(n) := names[n - 1]]
  }

  /** `PREFECTURE_MAP`: code "01" is 北海道, ..., code "47" is 沖縄県. */
  const PrefectureMap: map<string, string> := PrefecturesUpTo(PrefectureNames, |PrefectureNames|)

  /** A two-character string of ASCII digits. */
  predicate IsTwoDigits(k: string) {
    |k| == 2 && '0' <= k[0] <= '9' && '0' <= k[1] <= '9'
  }

  function TwoDigitsValue(k: string): int
    requires IsTwoDigits(k)
  {
    (k[0] as int - '0' as int) * 10 + (k[1] as int - '0' as int)
  }

  /** A two-character string of ASCII digits between "01" and "47". */
  predicate IsPrefectureCode(k: string) {
    IsTwoDigits(k) && 1 <= TwoDigitsValue(k) <= 47
  }

  /** The first `n` entries hold exactly the codes of value 1 to `n`, each
      with the name in that position of the list. */
  lemma {:induction false} PrefecturesUpToKeys(names: seq<string>, n: nat, k: string)
    requires n <= |names| < 100
    ensures k in PrefecturesUpTo(names, n) <==> IsTwoDigits(k) && 1 <= TwoDigitsValue(k) <= n
    ensures k in PrefecturesUpTo(names, n) ==> PrefecturesUpTo(names, n)[k] == names[TwoDigitsValue(k) - 1]
  {
    if n > 0 {
      PrefecturesUpToKeys(names, n - 1, k);
      if IsTwoDigits(k) && TwoDigitsValue(k) == n {
        assert TwoDigits(n) == k;
      }
    }
  }

  /** The table covers exactly the codes "01" to "47"; any other prefix of a
      city code is a lookup failure. */
  lemma PrefectureMapKeys(k: string)
    ensures k in PrefectureMap <==> IsPrefectureCode(k)
    ensures k in PrefectureMap ==> PrefectureMap[k] == PrefectureNames[TwoDigitsValue(k) - 1]
  {
    PrefecturesUpToKeys(PrefectureNames, |PrefectureNames|, k);
  }

  /** `jma_city_code[:2]` */
  function CodePrefix(code: string): (p: string)
    ensures |code| >= 2 ==> |p| == 2 && StartsWith(code, p)
    ensures |code| < 2 ==> p == code
  {
    if |code| >= 2 then code[..2] else code
  }

  // ---------------------------------------------------------------------------
  // The station tables
  // ---------------------------------------------------------------------------

  /** A station: its catalogue (`kind`), name, coordinates and prefecture. */
  datatype PointInfo = PointInfo(kind: string, name: string, lat: real, lng: real, prefecture: string, sourceSub: Option<string>)

  /** The `_load_jma` failure: a table row with fewer than seven cells. */
  datatype LoadError = ShortRow(row: nat)

  /** The empty rows and the header rows of the JMA station page. */
  predicate SkippedRow(tds: seq<string>) {
    tds == [] || tds[0] == "地域名称"
  }

  /** The station of a JMA page row; `degMin(d, m)` is `float(d) + float(m) / 60`. */
  function JmaPoint(tds: seq<string>, degMin: (string, string) -> real): (p: PointInfo)
    requires |tds| >= 7
    ensures p.name == tds[1] && p.kind == "jma" && p.prefecture == ""
  {
    PointInfo("jma", tds[1], degMin(tds[3], tds[4]), degMin(tds[5], tds[6]), "", None)
  }

  /** The loop of `_load_jma` over the table rows. */
  function JmaLoad(rows: seq<seq<string>>, degMin: (string, string) -> real): Result<map<string, PointInfo>, LoadError> {
    if rows == [] then Ok(map[])
    else
      match JmaLoad(rows[..|rows| - 1], degMin)
      case Err(e) => Err(e)
      case Ok(m) =>
        var tds := rows[|rows| - 1];
        if SkippedRow(tds) then Ok(m)
        else if |tds| < 7 then Err(ShortRow(|rows| - 1))
        else Ok(m[tds[1] := JmaPoint(tds, degMin)])
  }

  /** Row `i` is a station row of the page. */
  predicate KeptRow(rows: seq<seq<string>>, i: int) {
    0 <= i < |rows| && !SkippedRow(rows[i]) && |rows[i]| >= 7
  }

  /** The load fails exactly when some row that is neither empty nor a header
      has fewer than seven cells, and then at the first such row. */
  lemma {:induction false} JmaLoadFails(rows: seq<seq<string>>, degMin: (string, string) -> real)
    ensures JmaLoad(rows, degMin).Ok? <==> forall i :: 0 <= i < |rows| && !SkippedRow(rows[i]) ==> |rows[i]| >= 7
    ensures JmaLoad(rows, degMin).Err? ==>
              var i := JmaLoad(rows, degMin).error.row;
              && i < |rows| && !SkippedRow(rows[i]) && |rows[i]| < 7
              && forall j :: 0 <= j < i && !SkippedRow(rows[j]) ==> |rows[j]| >= 7
  {
    if rows != [] {
      var p := rows[..|rows| - 1];
      JmaLoadFails(p, degMin);
      assert forall i :: 0 <= i < |p| ==> p[i] == rows[i];
    }
  }

  /** A loaded table holds exactly the names of the station rows. */
  lemma {:induction false} JmaLoadKeys(rows: seq<seq<string>>, degMin: (string, string) -> real)
    requires JmaLoad(rows, degMin).Ok?
    ensures forall i :: KeptRow(rows, i) ==> rows[i][1] in JmaLoad(rows, degMin).value
    ensures forall k :: k in JmaLoad(rows, degMin).value ==> exists i :: KeptRow(rows, i) && rows[i][1] == k
  {
    if rows != [] {
      var p := rows[..|rows| - 1];
      JmaLoadKeys(p, degMin);
      assert forall i :: 0 <= i < |p| ==> p[i] == rows[i];
      var m := JmaLoad(rows, degMin).value;
      forall k | k in m
        ensures exists i :: KeptRow(rows, i) && rows[i][1] == k
      {
        if k in JmaLoad(p, degMin).value {
          var i :| KeptRow(p, i) && p[i][1] == k;
          assert KeptRow(rows, i);
        } else {
          assert KeptRow(rows, |rows| - 1);
        }
      }
    }
  }

  /** Later rows overwrite: a name's station comes from its last station row. */
  lemma {:induction false} JmaLoadAt(rows: seq<seq<string>>, degMin: (string, string) -> real, i: int)
    requires JmaLoad(rows, degMin).Ok? && KeptRow(rows, i)
    requires forall j :: i < j < |rows| && KeptRow(rows, j) ==> rows[j][1] != rows[i][1]
    ensures rows[i][1] in JmaLoad(rows, degMin).value && JmaLoad(rows, degMin).value[rows[i][1]] == JmaPoint(rows[i], degMin)
  {
    JmaLoadKeys(rows, degMin);
    if i < |rows| - 1 {
      var p := rows[..|rows| - 1];
      assert forall j :: 0 <= j < |p| ==> p[j] == rows[j];
      JmaLoadAt(p, degMin, i);
    }
  }

  lemma JmaLoadErrSticky(rows: seq<seq<string>>, degMin: (string, string) -> real, n: nat)
    requires n <= |rows| && JmaLoad(rows[..n], degMin).Err?
    ensures JmaLoad(rows, degMin) == JmaLoad(rows[..n], degMin)
    decreases |rows| - n
  {
    if n < |rows| {
      assert rows[..n + 1][..n] == rows[..n];
      JmaLoadErrSticky(rows, degMin, n + 1);
    } else {
      assert rows[..n] == rows;
    }
  }

  /** An entry of the JMA station-map catalogue. */
  datatype JsonStation = JsonStation(name: string, lat: real, lon: real)

  function JsonPairs(stations: seq<JsonStation>): (ps: seq<(string, PointInfo)>)
    ensures |ps| == |stations|
    ensures forall i :: 0 <= i < |ps| ==>
              ps[i] == (stations[i].name, PointInfo("jma-json", stations[i].name, stations[i].lat, stations[i].lon, "", None))
  {
    seq(|stations|, i requires 0 <= i < |stations| =>
      (stations[i].name, PointInfo("jma-json", stations[i].name, stations[i].lat, stations[i].lon, "", None)))
  }

  /** A row of the K-NET station list. */
  datatype NiedRow = NiedRow(name: string, lat: real, lng: real, pref: string)

  function NiedPairs(rows: seq<NiedRow>): (ps: seq<((string, string), PointInfo)>)
    ensures |ps| == |rows|
    ensures forall i :: 0 <= i < |ps| ==>
              ps[i] == ((rows[i].pref, rows[i].name), PointInfo("k-net", rows[i].name, rows[i].lat, rows[i].lng, rows[i].pref, None))
  {
    seq(|rows|, i requires 0 <= i < |rows| =>
      ((rows[i].pref, rows[i].name), PointInfo("k-net", rows[i].name, rows[i].lat, rows[i].lng, rows[i].pref, None)))
  }

  /** Every K-NET station sits under the key `(prefecture, name)` of its own row. */
  ghost predicate NiedConsistent(nied: OrderedMap<(string, string), PointInfo>) {
    && nied.Valid()
    && forall k :: k in nied.values ==> nied.values[k].prefecture == k.0 && nied.values[k].name == k.1
  }

  /** The K-NET table built from the list is well formed, keyed consistently,
      and in the order the keys first occur. */
  lemma NiedTableConsistent(rows: seq<NiedRow>)
    ensures NiedConsistent(FromPairs(NiedPairs(rows)))
  {
    var ps := NiedPairs(rows);
    FromPairsValues(ps);
    MapFromPairsKeys(ps);
    forall k | k in MapFromPairs(ps)
      ensures MapFromPairs(ps)[k].prefecture == k.0 && MapFromPairs(ps)[k].name == k.1
    {
      var i :| 0 <= i < |ps| && ps[i].0 == k;
      LastWithExists(ps, k, i);
      var l :| i <= l && LastWith(ps, k, l);
      MapFromPairsAt(ps, k, l);
    }
  }

  /** The three station tables of `IntensityPoints`. The JMA tables are only
      looked up, so plain maps; the K-NET table is iterated in insertion
      order. */
  class IntensityPoints {
    var jmaPoints: map<string, PointInfo>
    var jmaJsonPoints: map<string, PointInfo>
    var niedPoints: OrderedMap<(string, string), PointInfo>

    ghost predicate Valid()
      reads this
    {
      NiedConsistent(niedPoints)
    }

    constructor Empty()
      ensures Valid() && jmaPoints == map[] && jmaJsonPoints == map[] && niedPoints == EmptyMap()
    {
      jmaPoints := map[];
      jmaJsonPoints := map[];
      niedPoints := EmptyMap();
    }

    /** `__init__`: the three loaders, in the source's order. */
    static method Load(stations: seq<JsonStation>, rows: seq<seq<string>>, degMin: (string, string) -> real, nied: seq<NiedRow>)
      returns (r: Result<IntensityPoints, LoadError>)
      ensures JmaLoad(rows, degMin).Err? ==> r == Err(JmaLoad(rows, degMin).error)
      ensures JmaLoad(rows, degMin).Ok? ==>
                && r.Ok? && fresh(r.value) && r.value.Valid()
                && r.value.jmaJsonPoints == MapFromPairs(JsonPairs(stations))
                && r.value.jmaPoints == JmaLoad(rows, degMin).value
                && r.value.niedPoints == FromPairs(NiedPairs(nied))
    {
      var points := new IntensityPoints.Empty();
      points.LoadJmaJson(stations);
      var err := points.LoadJma(rows, degMin);
      if err.Some? {
        return Err(err.value);
      }
      points.LoadNied(nied);
      return Ok(points);
    }

    /** `_load_jma`: empty and header rows are skipped, a short row fails. */
    method LoadJma(rows: seq<seq<string>>, degMin: (string, string) -> real) returns (err: Option<LoadError>)
      requires Valid()
      modifies this
      ensures Valid() && jmaJsonPoints == old(jmaJsonPoints) && niedPoints == old(niedPoints)
      ensures JmaLoad(rows, degMin).Err? ==> err == Some(JmaLoad(rows, degMin).error)
      ensures JmaLoad(rows, degMin).Ok? ==> err.None? && jmaPoints == JmaLoad(rows, degMin).value
    {
      jmaPoints := map[];
      var i := 0;
      while i < |rows|
        invariant 0 <= i <= |rows|
        invariant JmaLoad(rows[..i], degMin) == Ok(jmaPoints)
        invariant Valid() && jmaJsonPoints == old(jmaJsonPoints) && niedPoints == old(niedPoints)
      {
        assert rows[..i + 1][..i] == rows[..i];
        var tds := rows[i];
        if !SkippedRow(tds) {
          if |tds| < 7 {
            JmaLoadErrSticky(rows, degMin, i + 1);
            return Some(ShortRow(i));
          }
          var name := tds[1];
          jmaPoints := jmaPoints[name := JmaPoint(tds, degMin)];
        }
        i := i + 1;
      }
      assert rows[..|rows|] == rows;
      return None;
    }

    /** `_load_jma_json`: keyed by name, later entries overwrite. */
    method LoadJmaJson(stations: seq<JsonStation>)
      requires Valid()
      modifies this
      ensures Valid() && jmaPoints == old(jmaPoints) && niedPoints == old(niedPoints)
      ensures jmaJsonPoints == MapFromPairs(JsonPairs(stations))
    {
      jmaJsonPoints := map[];
      var i := 0;
      while i < |stations|
        invariant 0 <= i <= |stations|
        invariant jmaJsonPoints == MapFromPairs(JsonPairs(stations[..i]))
        invariant Valid() && jmaPoints == old(jmaPoints) && niedPoints == old(niedPoints)
      {
        assert JsonPairs(stations[..i + 1])[..i] == JsonPairs(stations[..i]);
        var name := stations[i].name;
        jmaJsonPoints := jmaJsonPoints[name := PointInfo("jma-json", name, stations[i].lat, stations[i].lon, "", None)];
        i := i + 1;
      }
      assert stations[..|stations|] == stations;
    }

    /** `_load_nied`: keyed by `(pref, name)`, later rows overwrite. */
    method LoadNied(rows: seq<NiedRow>)
      modifies this
      ensures Valid() && jmaPoints == old(jmaPoints) && jmaJsonPoints == old(jmaJsonPoints)
      ensures niedPoints == FromPairs(NiedPairs(rows))
    {
      niedPoints := EmptyMap();
      var i := 0;
      while i < |rows|
        invariant 0 <= i <= |rows|
        invariant niedPoints == FromPairs(NiedPairs(rows[..i]))
        invariant jmaPoints == old(jmaPoints) && jmaJsonPoints == old(jmaJsonPoints)
      {
        assert NiedPairs(rows[..i + 1])[..i] == NiedPairs(rows[..i]);
        var row := rows[i];
        niedPoints := niedPoints.Put((row.pref, row.name), PointInfo("k-net", row.name, row.lat, row.lng, row.pref, None));
        i := i + 1;
      }
      assert rows[..|rows|] == rows;
      NiedTableConsistent(rows);
    }

    /** `find_station` */
    method FindStation(jmaName: string, jmaCityCode: string) returns (r: Result<Option<PointInfo>, StationError>)
      requires Valid()
      ensures r == FindStationSpec(jmaPoints, jmaJsonPoints, niedPoints, jmaName, jmaCityCode)
    {
      if jmaName in jmaPoints {
        return Ok(Some(jmaPoints[jmaName]));
      }
      var prefix := CodePrefix(jmaCityCode);
      if prefix !in PrefectureMap {
        return Err(UnknownPrefecture(prefix));
      }
      var prefecture := PrefectureMap[prefix];
      var found: seq<PointInfo> := [];
      var stripped := StripCity(jmaName);
      var keys := niedPoints.keys;
      var i := 0;
      while i < |keys|
        invariant 0 <= i <= |keys|
        invariant found == Candidates(keys[..i], niedPoints.values, prefecture, stripped)
      {
        assert keys[..i + 1][..i] == keys[..i];
        var info := niedPoints.values[keys[i]];
        if info.prefecture == prefecture && Contains(stripped, keys[i].1) {
          found := found + [info];
        }
        i := i + 1;
      }
      assert keys[..|keys|] == keys;
      if |found| == 1 {
        return Ok(Some(found[0]));
      } else if |found| > 1 {
        var t := 0;
        while t < |found|
          invariant 0 <= t <= |found|
          invariant FirstSuffix(found, stripped, t) == FirstSuffix(found, stripped, 0)
        {
          if EndsWith(stripped, found[t].name) {
            return Ok(Some(found[t]));
          }
          t := t + 1;
        }
        found := SortByGap(found, stripped);
        return Ok(Some(found[0]));
      }
      if jmaName in jmaJsonPoints {
        return Ok(Some(jmaJsonPoints[jmaName]));
      }
      return Ok(None);
    }
  }

  // ---------------------------------------------------------------------------
  // Choosing a station
  // ---------------------------------------------------------------------------

  /** The `find_station` failure: the city code's first two characters are
      not a prefecture code (a KeyError). */
  datatype StationError = UnknownPrefecture(prefix: string)

  /** K-NET station `k` is a candidate: it lies in `pref` and its name occurs
      in the stripped name. */
  predicate IsCandidate(vals: map<(string, string), PointInfo>, pref: string, stripped: string, k: (string, string))
    requires k in vals
  {
    vals[k].prefecture == pref && Contains(stripped, k.1)
  }

  /** The candidate loop of `find_station`, over the K-NET keys in table order. */
  function Candidates(ks: seq<(string, string)>, vals: map<(string, string), PointInfo>, pref: string, stripped: string): seq<PointInfo>
    requires forall i :: 0 <= i < |ks| ==> ks[i] in vals
  {
    if ks == [] then []
    else
      var found := Candidates(ks[..|ks| - 1], vals, pref, stripped);
      var k := ks[|ks| - 1];
      if IsCandidate(vals, pref, stripped, k) then found + [vals[k]] else found
  }

  /** The candidates are exactly the candidate stations, in table order:
      `idx` lists their table positions, increasing, and holds every
      candidate position. */
  lemma {:induction false} CandidatesInOrder(ks: seq<(string, string)>, vals: map<(string, string), PointInfo>, pref: string, stripped: string)
    returns (idx: seq<nat>)
    requires forall i :: 0 <= i < |ks| ==> ks[i] in vals
    ensures var found := Candidates(ks, vals, pref, stripped);
            && |idx| == |found|
            && (forall t :: 0 <= t < |idx| ==> idx[t] < |ks| && IsCandidate(vals, pref, stripped, ks[idx[t]]) && found[t] == vals[ks[idx[t]]])
            && (forall t, u :: 0 <= t < u < |idx| ==> idx[t] < idx[u])
            && (forall i :: 0 <= i < |ks| && IsCandidate(vals, pref, stripped, ks[i]) ==> i in idx)
  {
    if ks == [] {
      idx := [];
    } else {
      var n := |ks| - 1;
      var p := ks[..n];
      assert forall i :: 0 <= i < n ==> p[i] == ks[i];
      var pidx := CandidatesInOrder(p, vals, pref, stripped);
      if IsCandidate(vals, pref, stripped, ks[n]) {
        idx := pidx + [n];
      } else {
        idx := pidx;
      }
    }
  }

  /** No candidate station, no candidates. */
  lemma {:induction false} CandidatesNone(ks: seq<(string, string)>, vals: map<(string, string), PointInfo>, pref: string, stripped: string)
    requires forall i :: 0 <= i < |ks| ==> ks[i] in vals
    requires forall k :: k in vals ==> !IsCandidate(vals, pref, stripped, k)
    ensures Candidates(ks, vals, pref, stripped) == []
  {
    if ks != [] {
      CandidatesNone(ks[..|ks| - 1], vals, pref, stripped);
    }
  }

  /** The first candidate, from position `from` on, whose name is a suffix
      of the stripped name. */
  function FirstSuffix(found: seq<PointInfo>, stripped: string, from: nat): (r: Option<nat>)
    requires from <= |found|
    ensures r.Some? ==> from <= r.value < |found| && EndsWith(stripped, found[r.value].name)
    ensures r.Some? ==> forall u :: from <= u < r.value ==> !EndsWith(stripped, found[u].name)
    ensures r.None? ==> forall u :: from <= u < |found| ==> !EndsWith(stripped, found[u].name)
    decreases |found| - from
  {
    if from == |found| then None
    else if EndsWith(stripped, found[from].name) then Some(from)
    else FirstSuffix(found, stripped, from + 1)
  }

  /** The sort key `len(stripped_jma_name) - len(x.name)`. */
  function Gap(stripped: string, p: PointInfo): int {
    |stripped| - |p.name|
  }

  predicate SortedByGap(s: seq<PointInfo>, stripped: string) {
    forall i, j :: 0 <= i < j < |s| ==> Gap(stripped, s[i]) <= Gap(stripped, s[j])
  }

  /** One step of a stable insertion sort: `p` goes after every element whose
      key is not larger. */
  function InsertByGap(s: seq<PointInfo>, p: PointInfo, stripped: string): (r: seq<PointInfo>)
    ensures |r| == |s| + 1 && multiset(r) == multiset(s) + multiset{p}
  {
    if s == [] then [p]
    else if Gap(stripped, s[|s| - 1]) <= Gap(stripped, p) then s + [p]
    else
      assert s == s[..|s| - 1] + [s[|s| - 1]];
      InsertByGap(s[..|s| - 1], p, stripped) + [s[|s| - 1]]
  }

  /** `list.sort(key=...)`: Python's sort is stable, so this is a stable
      insertion sort on the key. */
  function SortByGap(s: seq<PointInfo>, stripped: string): (r: seq<PointInfo>)
    ensures |r| == |s| && multiset(r) == multiset(s)
  {
    if s == [] then []
    else
      assert s == s[..|s| - 1] + [s[|s| - 1]];
      InsertByGap(SortByGap(s[..|s| - 1], stripped), s[|s| - 1], stripped)
  }

  /** Inserting keeps every key below a bound the inserted key also respects. */
  lemma {:induction false} InsertByGapBounded(s: seq<PointInfo>, p: PointInfo, stripped: string, g: int)
    requires forall i :: 0 <= i < |s| ==> Gap(stripped, s[i]) <= g
    requires Gap(stripped, p) <= g
    ensures forall i :: 0 <= i < |InsertByGap(s, p, stripped)| ==> Gap(stripped, InsertByGap(s, p, stripped)[i]) <= g
  {
    if s != [] && Gap(stripped, p) < Gap(stripped, s[|s| - 1]) {
      InsertByGapBounded(s[..|s| - 1], p, stripped, g);
    }
  }

  lemma {:induction false} InsertByGapSorted(s: seq<PointInfo>, p: PointInfo, stripped: string)
    requires SortedByGap(s, stripped)
    ensures SortedByGap(InsertByGap(s, p, stripped), stripped)
  {
    if s != [] {
      var n := |s| - 1;
      var x := s[n];
      if Gap(stripped, x) <= Gap(stripped, p) {
        assert forall i :: 0 <= i < n ==> Gap(stripped, s[i]) <= Gap(stripped, x);
      } else {
        var q := s[..n];
        assert forall i :: 0 <= i < n ==> q[i] == s[i];
        InsertByGapSorted(q, p, stripped);
        InsertByGapBounded(q, p, stripped, Gap(stripped, x));
      }
    }
  }

  /** The first element after an insertion into a sorted sequence. */
  lemma {:induction false} InsertByGapHead(s: seq<PointInfo>, p: PointInfo, stripped: string)
    requires SortedByGap(s, stripped)
    ensures s != [] && Gap(stripped, s[0]) <= Gap(stripped, p) ==> InsertByGap(s, p, stripped)[0] == s[0]
    ensures (s == [] || Gap(stripped, p) < Gap(stripped, s[0])) ==> InsertByGap(s, p, stripped)[0] == p
  {
    if s != [] && Gap(stripped, p) < Gap(stripped, s[|s| - 1]) {
      var q := s[..|s| - 1];
      if q != [] {
        InsertByGapHead(q, p, stripped);
      }
    }
  }

  /** The sort orders by the key and keeps the elements. */
  lemma {:induction false} SortByGapSorted(s: seq<PointInfo>, stripped: string)
    ensures SortedByGap(SortByGap(s, stripped), stripped)
  {
    if s != [] {
      SortByGapSorted(s[..|s| - 1], stripped);
      InsertByGapSorted(SortByGap(s[..|s| - 1], stripped), s[|s| - 1], stripped);
    }
  }

  /** The position of the first station with the longest name: the one the
      stable sort puts first. */
  function LongestFirst(s: seq<PointInfo>): (j: nat)
    requires |s| > 0
    ensures j < |s|
    ensures forall t :: 0 <= t < |s| ==> |s[t].name| <= |s[j].name|
    ensures forall t :: 0 <= t < j ==> |s[t].name| < |s[j].name|
  {
    if |s| == 1 then 0
    else
      var j := LongestFirst(s[..|s| - 1]);
      assert forall t :: 0 <= t < |s| - 1 ==> s[..|s| - 1][t] == s[t];
      if |s[|s| - 1].name| > |s[j].name| then |s| - 1 else j
  }

  /** After the stable sort, the first element is the first station with the
      longest name. */
  lemma {:induction false} SortByGapHead(s: seq<PointInfo>, stripped: string)
    requires |s| > 0
    ensures SortByGap(s, stripped)[0] == s[LongestFirst(s)]
  {
    if |s| > 1 {
      var q := s[..|s| - 1];
      SortByGapHead(q, stripped);
      SortByGapSorted(q, stripped);
      InsertByGapHead(SortByGap(q, stripped), s[|s| - 1], stripped);
      assert q[LongestFirst(q)] == s[LongestFirst(q)];
    }
  }

  /** The choice among several candidates (the `else` branch of `find_station`). */
  function MultiMatch(found: seq<PointInfo>, stripped: string): PointInfo
    requires |found| > 0
  {
    match FirstSuffix(found, stripped, 0)
    case Some(t) => found[t]
    case None => SortByGap(found, stripped)[0]
  }

  /** With several candidates: the first one whose name ends the stripped
      name; if there is none, the first one with the longest name. */
  lemma MultiMatchChoice(found: seq<PointInfo>, stripped: string)
    requires |found| > 0
    ensures var p := MultiMatch(found, stripped);
            && p in found
            && (forall t :: 0 <= t < |found| && EndsWith(stripped, found[t].name) && (forall u :: 0 <= u < t ==> !EndsWith(stripped, found[u].name)) ==> p == found[t])
            && ((forall t :: 0 <= t < |found| ==> !EndsWith(stripped, found[t].name)) ==> p == found[LongestFirst(found)])
  {
    if FirstSuffix(found, stripped, 0).None? {
      SortByGapHead(found, stripped);
    }
  }

  /** `find_station` on the three tables. */
  function FindStationSpec(jma: map<string, PointInfo>, json: map<string, PointInfo>, nied: OrderedMap<(string, string), PointInfo>,
                           jmaName: string, jmaCityCode: string): Result<Option<PointInfo>, StationError>
    requires NiedConsistent(nied)
  {
    if jmaName in jma then Ok(Some(jma[jmaName]))
    else
      var prefix := CodePrefix(jmaCityCode);
      if prefix !in PrefectureMap then Err(UnknownPrefecture(prefix))
      else
        var stripped := StripCity(jmaName);
        var found := Candidates(nied.keys, nied.values, PrefectureMap[prefix], stripped);
        if |found| == 1 then Ok(Some(found[0]))
        else if |found| > 1 then Ok(Some(MultiMatch(found, stripped)))
        else if jmaName in json then Ok(Some(json[jmaName]))
        else Ok(None)
  }

  /** Every candidate is a station of `pref` whose name occurs in the
      stripped name. */
  lemma {:induction false} CandidatesSound(ks: seq<(string, string)>, vals: map<(string, string), PointInfo>, pref: string, stripped: string)
    requires forall i :: 0 <= i < |ks| ==> ks[i] in vals
    requires forall k :: k in vals ==> vals[k].name == k.1
    ensures forall p :: p in Candidates(ks, vals, pref, stripped) ==> p in vals.Values && p.prefecture == pref && Contains(stripped, p.name)
  {
    if ks != [] {
      CandidatesSound(ks[..|ks| - 1], vals, pref, stripped);
    }
  }

  /** Every candidate station is among the candidates. */
  lemma {:induction false} CandidatesComplete(ks: seq<(string, string)>, vals: map<(string, string), PointInfo>, pref: string, stripped: string, i: int)
    requires forall i :: 0 <= i < |ks| ==> ks[i] in vals
    requires 0 <= i < |ks| && IsCandidate(vals, pref, stripped, ks[i])
    ensures vals[ks[i]] in Candidates(ks, vals, pref, stripped)
  {
    if i < |ks| - 1 {
      CandidatesComplete(ks[..|ks| - 1], vals, pref, stripped, i);
    }
  }

  /** The JMA page wins: a name found there is answered from it, and
      nothing else can fail. Otherwise the lookup fails exactly when the
      city code's prefix is not a prefecture code. */
  lemma FindStationPrecedence(jma: map<string, PointInfo>, json: map<string, PointInfo>, nied: OrderedMap<(string, string), PointInfo>,
                              jmaName: string, jmaCityCode: string)
    requires NiedConsistent(nied)
    ensures jmaName in jma ==> FindStationSpec(jma, json, nied, jmaName, jmaCityCode) == Ok(Some(jma[jmaName]))
    ensures FindStationSpec(jma, json, nied, jmaName, jmaCityCode).Err? <==> jmaName !in jma && !IsPrefectureCode(CodePrefix(jmaCityCode))
  {
    PrefectureMapKeys(CodePrefix(jmaCityCode));
  }

  /** `r` answers with a K-NET station of `pref` whose name occurs in `stripped`. */
  predicate KnetAnswer(r: Result<Option<PointInfo>, StationError>, vals: map<(string, string), PointInfo>, pref: string, stripped: string) {
    r.Ok? && r.value.Some? && r.value.value in vals.Values && r.value.value.prefecture == pref && Contains(stripped, r.value.value.name)
  }

  /** The choice among several candidates: a candidate, the first whose
      name ends the stripped name, or else the first with the longest name. */
  predicate MultiChoice(found: seq<PointInfo>, stripped: string, p: PointInfo)
    requires |found| > 0
  {
    && p in found
    && (forall t :: 0 <= t < |found| && EndsWith(stripped, found[t].name) && (forall u :: 0 <= u < t ==> !EndsWith(stripped, found[u].name)) ==> p == found[t])
    && ((forall t :: 0 <= t < |found| ==> !EndsWith(stripped, found[t].name)) ==> p == found[LongestFirst(found)])
  }

  /** When some K-NET station of the prefecture has a name occurring in the
      stripped name, the answer is such a station: the only candidate, or
      the multi-candidate choice among them in table order. */
  lemma FindStationKnet(jma: map<string, PointInfo>, json: map<string, PointInfo>, nied: OrderedMap<(string, string), PointInfo>,
                        jmaName: string, jmaCityCode: string, k: (string, string))
    requires NiedConsistent(nied)
    requires jmaName !in jma && CodePrefix(jmaCityCode) in PrefectureMap
    requires k in nied.values && IsCandidate(nied.values, PrefectureMap[CodePrefix(jmaCityCode)], StripCity(jmaName), k)
    ensures KnetAnswer(FindStationSpec(jma, json, nied, jmaName, jmaCityCode), nied.values, PrefectureMap[CodePrefix(jmaCityCode)], StripCity(jmaName))
    ensures var found := Candidates(nied.keys, nied.values, PrefectureMap[CodePrefix(jmaCityCode)], StripCity(jmaName));
            |found| == 1 ==> FindStationSpec(jma, json, nied, jmaName, jmaCityCode) == Ok(Some(found[0]))
    ensures var found := Candidates(nied.keys, nied.values, PrefectureMap[CodePrefix(jmaCityCode)], StripCity(jmaName));
            |found| > 1 ==> FindStationSpec(jma, json, nied, jmaName, jmaCityCode).Ok? &&
                            FindStationSpec(jma, json, nied, jmaName, jmaCityCode).value.Some? &&
                            MultiChoice(found, StripCity(jmaName), FindStationSpec(jma, json, nied, jmaName, jmaCityCode).value.value)
  {
    var pref := PrefectureMap[CodePrefix(jmaCityCode)];
    var stripped := StripCity(jmaName);
    var found := Candidates(nied.keys, nied.values, pref, stripped);
    var i :| 0 <= i < |nied.keys| && nied.keys[i] == k;
    CandidatesComplete(nied.keys, nied.values, pref, stripped, i);
    CandidatesSound(nied.keys, nied.values, pref, stripped);
    if |found| > 1 {
      MultiMatchChoice(found, stripped);
    }
  }

  /** With no K-NET candidate, the station-map catalogue is the last resort,
      and a miss there is `None`, not an error. */
  lemma FindStationFallback(jma: map<string, PointInfo>, json: map<string, PointInfo>, nied: OrderedMap<(string, string), PointInfo>,
                            jmaName: string, jmaCityCode: string)
    requires NiedConsistent(nied)
    requires jmaName !in jma && CodePrefix(jmaCityCode) in PrefectureMap
    requires forall k :: k in nied.values ==> !IsCandidate(nied.values, PrefectureMap[CodePrefix(jmaCityCode)], StripCity(jmaName), k)
    ensures FindStationSpec(jma, json, nied, jmaName, jmaCityCode) == if jmaName in json then Ok(Some(json[jmaName])) else Ok(None)
  {
    CandidatesNone(nied.keys, nied.values, PrefectureMap[CodePrefix(jmaCityCode)], StripCity(jmaName));
  }

  // ---------------------------------------------------------------------------
  // Volcanoes
  // ---------------------------------------------------------------------------

  /** An entry of the volcano list; `latlon` is `(lat, lon)` when present. */
  datatype Volcano = Volcano(code: string, latlon: Option<(real, real)>)

  /** The `get_volc_points` failures: an entry without coordinates whose code
      is not a number (ValueError), or is below 900 (the assertion). */
  datatype VolcError = BadCode(code: string) | NoLocation(code: string)

  /** The check on one entry: an entry without coordinates must have a
      numeric code of 900 or more. */
  function VolcCheck(v: Volcano): (e: Option<VolcError>)
    ensures e.None? <==> v.latlon.Some? || (ParseInt(v.code).Some? && ParseInt(v.code).value >= 900)
  {
    if v.latlon.Some? then None
    else
      match ParseInt(v.code)
      case None => Some(BadCode(v.code))
      case Some(n) => if n >= 900 then None else Some(NoLocation(v.code))
  }

  /** The first failing entry's error, if any. */
  function VolcErrors(vs: seq<Volcano>): Option<VolcError> {
    if vs == [] then None
    else if VolcErrors(vs[..|vs| - 1]).Some? then VolcErrors(vs[..|vs| - 1])
    else VolcCheck(vs[|vs| - 1])
  }

  /** The coordinate assignments of the loop, stored as `(lon, lat)`. */
  function VolcMap(vs: seq<Volcano>): map<string, (real, real)> {
    if vs == [] then map[]
    else
      var m := VolcMap(vs[..|vs| - 1]);
      var v := vs[|vs| - 1];
      if v.latlon.Some? then m[v.code := (v.latlon.value.1, v.latlon.value.0)] else m
  }

  /** `get_volc_points` after the fetch: the first failing entry stops it,
      otherwise the coordinate map. */
  function VolcLoad(vs: seq<Volcano>): Result<map<string, (real, real)>, VolcError> {
    match VolcErrors(vs)
    case Some(e) => Err(e)
    case None => Ok(VolcMap(vs))
  }

  /** The list loads exactly when every entry has coordinates or a numeric
      code of 900 or more, and otherwise fails at the first entry that has
      neither. */
  lemma {:induction false} VolcLoadFails(vs: seq<Volcano>)
    ensures VolcLoad(vs).Ok? <==> forall i :: 0 <= i < |vs| ==> VolcCheck(vs[i]).None?
    ensures VolcLoad(vs).Err? ==> exists i :: 0 <= i < |vs| && Some(VolcLoad(vs).error) == VolcCheck(vs[i]) &&
                                               forall j :: 0 <= j < i ==> VolcCheck(vs[j]).None?
  {
    if vs != [] {
      var p := vs[..|vs| - 1];
      VolcLoadFails(p);
      assert forall i :: 0 <= i < |p| ==> p[i] == vs[i];
      if VolcErrors(p).None? && VolcErrors(vs).Some? {
        assert Some(VolcLoad(vs).error) == VolcCheck(vs[|vs| - 1]);
      }
    }
  }

  /** The loaded map holds exactly the codes of the entries with coordinates. */
  lemma {:induction false} VolcMapKeys(vs: seq<Volcano>)
    ensures forall i :: 0 <= i < |vs| && vs[i].latlon.Some? ==> vs[i].code in VolcMap(vs)
    ensures forall c :: c in VolcMap(vs) ==> exists i :: 0 <= i < |vs| && vs[i].latlon.Some? && vs[i].code == c
  {
    if vs != [] {
      var n := |vs| - 1;
      var p := vs[..n];
      VolcMapKeys(p);
      assert forall i :: 0 <= i < |p| ==> p[i] == vs[i];
      forall c | c in VolcMap(vs)
        ensures exists i :: 0 <= i < |vs| && vs[i].latlon.Some? && vs[i].code == c
      {
        if c in VolcMap(p) {
          var i :| 0 <= i < |p| && p[i].latlon.Some? && p[i].code == c;
          assert vs[i] == p[i];
        } else {
          assert vs[n].latlon.Some? && vs[n].code == c;
        }
      }
    }
  }

  /** Coordinates are stored swapped, as `(lon, lat)`, and a later entry with
      the same code overwrites. */
  lemma {:induction false} VolcMapAt(vs: seq<Volcano>, i: int)
    requires 0 <= i < |vs| && vs[i].latlon.Some?
    requires forall j :: i < j < |vs| && vs[j].latlon.Some? ==> vs[j].code != vs[i].code
    ensures vs[i].code in VolcMap(vs)
    ensures VolcMap(vs)[vs[i].code] == (vs[i].latlon.value.1, vs[i].latlon.value.0)
  {
    VolcMapKeys(vs);
    if i < |vs| - 1 {
      var p := vs[..|vs| - 1];
      assert forall j :: 0 <= j < |p| ==> p[j] == vs[j];
      VolcMapAt(p, i);
    }
  }

  lemma VolcErrorsSticky(vs: seq<Volcano>, n: nat)
    requires n <= |vs| && VolcErrors(vs[..n]).Some?
    ensures VolcErrors(vs) == VolcErrors(vs[..n])
    decreases |vs| - n
  {
    if n < |vs| {
      assert vs[..n + 1][..n] == vs[..n];
      VolcErrorsSticky(vs, n + 1);
    } else {
      assert vs[..n] == vs;
    }
  }

  /** `get_volc_points` on the parsed list. */
  method GetVolcPoints(vs: seq<Volcano>) returns (r: Result<map<string, (real, real)>, VolcError>)
    ensures r == VolcLoad(vs)
  {
    var result: map<string, (real, real)> := map[];
    var i := 0;
    while i < |vs|
      invariant 0 <= i <= |vs|
      invariant VolcErrors(vs[..i]).None? && result == VolcMap(vs[..i])
    {
      assert vs[..i + 1][..i] == vs[..i];
      var code := vs[i].code;
      if vs[i].latlon.Some? {
        var (lat, lon) := vs[i].latlon.value;
        result := result[code := (lon, lat)];
      } else {
        var n := ParseInt(code);
        if n.None? {
          VolcErrorsSticky(vs, i + 1);
          return Err(BadCode(code));
        }
        if n.value < 900 {
          VolcErrorsSticky(vs, i + 1);
          return Err(NoLocation(code));
        }
      }
      i := i + 1;
    }
    assert vs[..|vs|] == vs;
    return Ok(result);
  }
}
