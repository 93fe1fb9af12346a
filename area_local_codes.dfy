/** The forecast-area tree: given the city table of
    AreaInformationCity-AreaForecastLocalM, its code table and its two
    relation tables (warnings, tornado warnings), build one record per area
    code with its level, name, kana and parent references, then check that the
    tree is closed under its references. */
module AreaLocalCodes {
  import opened Wrappers
  import opened OrderedMaps

  /** A spreadsheet cell as pandas delivers it: `None` is NaN. */
  type Cell = Option<string>

  /** `str(cell)`: NaN prints as "nan". */
  function Str(c: Cell): (s: string)
    ensures c.Some? ==> s == c.value
    ensures c.None? ==> s == "nan"
  {
    match c
    case None => "nan"
    case Some(v) => v
  }

  datatype AreaError =
    | IchijiMismatch(matome: string)   // the assertion of a recurring matome code
    | MissingMatome(matome: string)    // KeyError in the matome map
    | MissingName(code: string)        // KeyError in the code-name map
    | VerificationFailed               // an assertion of the final check

  // ---------------------------------------------------------------------------
  // The matome map: matome (grouped-locality) code -> ichiji, fuken, saibun
  // ---------------------------------------------------------------------------

  /** A matome code's first-subdivision code, its prefecture forecast area
      (from the warning table) and its issuing subdivision (from the tornado
      table). */
  datatype MatomeProps = MatomeProps(ichiji: string, fuken: Option<string>, saibun: Option<string>)

  /** Which relation table a row comes from; the third column is a fuken code
      in the warning table and a saibun code in the tornado table. */
  datatype Table = WarningTable | TornadoTable

  /** One row of a relation table: matome code, ichiji code, and the third
      column. */
  datatype RelationRow = RelationRow(matome: Cell, ichiji: Cell, sub: Cell)

  type Tagged = (Table, RelationRow)

  /** The field of `p` that rows of table `t` write. */
  function Slot(p: MatomeProps, t: Table): Option<string> {
    match t
    case WarningTable => p.fuken
    case TornadoTable => p.saibun
  }

  function Key(e: Tagged): string {
    Str(e.1.matome)
  }

  function Tag(t: Table, rows: seq<RelationRow>): (ts: seq<Tagged>)
    ensures |ts| == |rows| && forall i :: 0 <= i < |rows| ==> ts[i] == (t, rows[i])
  {
    seq(|rows|, i requires 0 <= i < |rows| => (t, rows[i]))
  }

  /** One iteration of either relation-table loop. */
  function MatomeStep(m: map<string, MatomeProps>, e: Tagged): Result<map<string, MatomeProps>, AreaError> {
    var k := Key(e);
    var ichiji := Str(e.1.ichiji);
    var sub := Str(e.1.sub);
    if k !in m then
      (match e.0
       case WarningTable => Ok(m[k := MatomeProps(ichiji, Some(sub), None)])
       case TornadoTable => Ok(m[k := MatomeProps(ichiji, None, Some(sub))]))
    else if m[k].ichiji != ichiji then
      Err(IchijiMismatch(k))
    else
      (match e.0
       case WarningTable => Ok(m[k := m[k].(fuken := Some(sub))])
       case TornadoTable => Ok(m[k := m[k].(saibun := Some(sub))]))
  }

  /** The rows `ts` processed in order from an empty map; the first failed
      assertion ends the run. */
  function MatomeFold(ts: seq<Tagged>): Result<map<string, MatomeProps>, AreaError> {
    if ts == [] then Ok(map[])
    else
      match MatomeFold(ts[..|ts| - 1])
      case Err(e) => Err(e)
      case Ok(m) => MatomeStep(m, ts[|ts| - 1])
  }

  /** The whole of `make_matome_code_map`: the warning table, then the tornado
      table. */
  function MatomeCodeMap(ww: seq<RelationRow>, tornado: seq<RelationRow>): Result<map<string, MatomeProps>, AreaError> {
    MatomeFold(Tag(WarningTable, ww) + Tag(TornadoTable, tornado))
  }

  /** The matome codes of the rows. */
  function MatomeKeys(ts: seq<Tagged>): set<string> {
    if ts == [] then {} else MatomeKeys(ts[..|ts| - 1]) + {Key(ts[|ts| - 1])}
  }

  /** The ichiji code of the first row with matome code `k`. */
  function FirstIchiji(ts: seq<Tagged>, k: string): string {
    if ts == [] then ""
    else if k in MatomeKeys(ts[..|ts| - 1]) then FirstIchiji(ts[..|ts| - 1], k)
    else Str(ts[|ts| - 1].1.ichiji)
  }

  /** The third column of the last row of table `t` with matome code `k`. */
  function LastSub(ts: seq<Tagged>, t: Table, k: string): Option<string> {
    if ts == [] then None
    else if ts[|ts| - 1].0 == t && Key(ts[|ts| - 1]) == k then Some(Str(ts[|ts| - 1].1.sub))
    else LastSub(ts[..|ts| - 1], t, k)
  }

  /** The entry the matome map should hold for `k`. */
  function Expected(ts: seq<Tagged>, k: string): MatomeProps {
    MatomeProps(FirstIchiji(ts, k), LastSub(ts, WarningTable, k), LastSub(ts, TornadoTable, k))
  }

  /** The map is built without a failed assertion exactly when rows sharing a
      matome code agree on its ichiji code; it then holds exactly the matome
      codes of the rows, each with the ichiji code of its first row and, per
      table, the third column of that table's last row with that code. */
  lemma {:induction false} MatomeFoldCorrect(ts: seq<Tagged>)
    ensures MatomeFold(ts).Ok? <==> Consistent(ts)
    ensures MatomeFold(ts).Ok? ==>
              && MatomeFold(ts).value.Keys == MatomeKeys(ts)
              && forall k :: k in MatomeFold(ts).value ==> MatomeFold(ts).value[k] == Expected(ts, k)
  {
    if ts != [] {
      var n := |ts| - 1;
      var p := ts[..n];
      MatomeFoldCorrect(p);
      assert forall i :: 0 <= i < n ==> ts[i] == p[i];
      if MatomeFold(p).Err? {
        var i, j :| 0 <= i < j < |p| && Key(p[i]) == Key(p[j]) && Str(p[i].1.ichiji) != Str(p[j].1.ichiji);
        assert Key(ts[i]) == Key(ts[j]);
      } else {
        var m := MatomeFold(p).value;
        var e := ts[n];
        var k := Key(e);
        if k in m {
          MatomeKeysOccur(p, k);
          var i :| 0 <= i < |p| && Key(p[i]) == k;
          FirstIchijiAt(p, i);
          if m[k].ichiji != Str(e.1.ichiji) {
            assert Key(ts[i]) == Key(ts[n]) && Str(ts[i].1.ichiji) != Str(ts[n].1.ichiji);
          } else {
            forall i, j | 0 <= i < j < |ts| && Key(ts[i]) == Key(ts[j])
              ensures Str(ts[i].1.ichiji) == Str(ts[j].1.ichiji)
            {
              if j == n {
                FirstIchijiAt(p, i);
              } else {
                assert Key(p[i]) == Key(p[j]);
              }
            }
            StepExpected(ts, m);
          }
        } else {
          forall i, j | 0 <= i < j < |ts| && Key(ts[i]) == Key(ts[j])
            ensures Str(ts[i].1.ichiji) == Str(ts[j].1.ichiji)
          {
            if j == n {
              MatomeKeysOccur(p, k);
            } else {
              assert Key(p[i]) == Key(p[j]);
            }
          }
          StepExpected(ts, m);
        }
      }
    }
  }

  /** The inductive step of `MatomeFoldCorrect` when the last row passes its
      assertion. */
  lemma StepExpected(ts: seq<Tagged>, m: map<string, MatomeProps>)
    requires |ts| > 0
    requires m.Keys == MatomeKeys(ts[..|ts| - 1])
    requires forall k :: k in m ==> m[k] == Expected(ts[..|ts| - 1], k)
    requires Key(ts[|ts| - 1]) in m ==> m[Key(ts[|ts| - 1])].ichiji == Str(ts[|ts| - 1].1.ichiji)
    ensures MatomeStep(m, ts[|ts| - 1]).Ok?
    ensures MatomeStep(m, ts[|ts| - 1]).value.Keys == MatomeKeys(ts)
    ensures forall k :: k in MatomeStep(m, ts[|ts| - 1]).value ==> MatomeStep(m, ts[|ts| - 1]).value[k] == Expected(ts, k)
  {
    var p := ts[..|ts| - 1];
    var e := ts[|ts| - 1];
    if Key(e) !in m {
      LastSubNone(p, WarningTable, Key(e));
      LastSubNone(p, TornadoTable, Key(e));
    }
  }

  /** No row with matome code `k` has been seen: nothing was written for it. */
  lemma {:induction false} LastSubNone(ts: seq<Tagged>, t: Table, k: string)
    requires k !in MatomeKeys(ts)
    ensures LastSub(ts, t, k) == None
  {
    if ts != [] {
      LastSubNone(ts[..|ts| - 1], t, k);
    }
  }

  /** Rows that share a matome code agree on its ichiji code. */
  ghost predicate Consistent(ts: seq<Tagged>) {
    forall i, j :: 0 <= i < j < |ts| && Key(ts[i]) == Key(ts[j]) ==> Str(ts[i].1.ichiji) == Str(ts[j].1.ichiji)
  }

  /** Row `i` is the last row of its own table with its matome code. */
  ghost predicate LastOfTable(ts: seq<Tagged>, i: int) {
    0 <= i < |ts| && forall j :: i < j < |ts| && ts[j].0 == ts[i].0 ==> Key(ts[j]) != Key(ts[i])
  }

  lemma {:induction false} MatomeKeysOccur(ts: seq<Tagged>, k: string)
    ensures k in MatomeKeys(ts) <==> exists i :: 0 <= i < |ts| && Key(ts[i]) == k
  {
    if ts != [] {
      var p := ts[..|ts| - 1];
      MatomeKeysOccur(p, k);
      if k in MatomeKeys(p) {
        var i :| 0 <= i < |p| && Key(p[i]) == k;
        assert Key(ts[i]) == k;
      }
      if exists i :: 0 <= i < |ts| && Key(ts[i]) == k {
        var i :| 0 <= i < |ts| && Key(ts[i]) == k;
        if i < |p| {
          assert Key(p[i]) == k;
        }
      }
    }
  }

  /** With consistent rows, every row carries its matome code's first ichiji
      code. */
  lemma {:induction false} FirstIchijiAt(ts: seq<Tagged>, i: int)
    requires Consistent(ts) && 0 <= i < |ts|
    ensures FirstIchiji(ts, Key(ts[i])) == Str(ts[i].1.ichiji)
  {
    var n := |ts| - 1;
    var p := ts[..n];
    var k := Key(ts[i]);
    assert forall j :: 0 <= j < n ==> ts[j] == p[j];
    if k in MatomeKeys(p) {
      MatomeKeysOccur(p, k);
      var j :| 0 <= j < |p| && Key(p[j]) == k;
      assert Consistent(p);
      if i < n {
        FirstIchijiAt(p, i);
      } else {
        FirstIchijiAt(p, j);
        assert Key(ts[j]) == Key(ts[i]);
      }
    } else if i < n {
      MatomeKeysOccur(p, k);
    }
  }

  /** Last write wins per table: the last row of a table with a matome code
      sets that table's field. */
  lemma {:induction false} LastSubAt(ts: seq<Tagged>, i: int)
    requires LastOfTable(ts, i)
    ensures LastSub(ts, ts[i].0, Key(ts[i])) == Some(Str(ts[i].1.sub))
  {
    var n := |ts| - 1;
    if i < n {
      var p := ts[..n];
      assert p[i] == ts[i];
      assert LastOfTable(p, i);
      LastSubAt(p, i);
    }
  }

  /** A table without a row for a matome code never sets its field. */
  lemma {:induction false} LastSubAbsent(ts: seq<Tagged>, t: Table, k: string)
    requires forall i :: 0 <= i < |ts| && ts[i].0 == t ==> Key(ts[i]) != k
    ensures LastSub(ts, t, k) == None
  {
    if ts != [] {
      var p := ts[..|ts| - 1];
      assert forall i :: 0 <= i < |p| ==> p[i] == ts[i];
      LastSubAbsent(p, t, k);
    }
  }

  /** A failed assertion ends the run: the rows after it change nothing. */
  lemma MatomeFoldErrSticky(ts: seq<Tagged>, n: nat)
    requires n <= |ts| && MatomeFold(ts[..n]).Err?
    ensures MatomeFold(ts) == MatomeFold(ts[..n])
    decreases |ts| - n
  {
    if n < |ts| {
      assert ts[..n + 1][..n] == ts[..n];
      MatomeFoldErrSticky(ts, n + 1);
    } else {
      assert ts[..n] == ts;
    }
  }

  /** Processing one more row of a table. */
  lemma MatomeFoldSnoc(a: seq<Tagged>, t: Table, rows: seq<RelationRow>, j: int)
    requires 0 <= j < |rows|
    ensures MatomeFold(a + Tag(t, rows[..j + 1])) ==
              match MatomeFold(a + Tag(t, rows[..j]))
              case Err(e) => Err(e)
              case Ok(m) => MatomeStep(m, (t, rows[j]))
  {
    var x := a + Tag(t, rows[..j + 1]);
    assert x[..|x| - 1] == a + Tag(t, rows[..j]);
  }

  /** One of the two relation-table loops of `make_matome_code_map`, run on
      the map built so far: a new matome code gets an entry with the third
      column in this table's field; a recurring one must keep its ichiji code
      and gets this table's field overwritten. */
  method FoldRelationTable(m0: map<string, MatomeProps>, ghost before: seq<Tagged>, t: Table, rows: seq<RelationRow>)
    returns (r: Result<map<string, MatomeProps>, AreaError>)
    requires MatomeFold(before) == Ok(m0)
    ensures r == MatomeFold(before + Tag(t, rows))
  {
    var m := m0;
    var i := 0;
    assert before + Tag(t, rows[..0]) == before;
    while i < |rows|
      invariant 0 <= i <= |rows|
      invariant MatomeFold(before + Tag(t, rows[..i])) == Ok(m)
    {
      var matome := Str(rows[i].matome);
      var ichiji := Str(rows[i].ichiji);
      var sub := Str(rows[i].sub);
      MatomeFoldSnoc(before, t, rows, i);
      if matome !in m {
        if t == WarningTable {
          m := m[matome := MatomeProps(ichiji, Some(sub), None)];
        } else {
          m := m[matome := MatomeProps(ichiji, None, Some(sub))];
        }
      } else if m[matome].ichiji != ichiji {
        assert (before + Tag(t, rows))[..|before| + i + 1] == before + Tag(t, rows[..i + 1]);
        MatomeFoldErrSticky(before + Tag(t, rows), |before| + i + 1);
        return Err(IchijiMismatch(matome));
      } else if t == WarningTable {
        m := m[matome := m[matome].(fuken := Some(sub))];
      } else {
        m := m[matome := m[matome].(saibun := Some(sub))];
      }
      i := i + 1;
    }
    assert rows[..|rows|] == rows;
    return Ok(m);
  }

  /** `make_matome_code_map`: the warning table, then the tornado table. */
  method MakeMatomeCodeMap(ww: seq<RelationRow>, tornado: seq<RelationRow>) returns (r: Result<map<string, MatomeProps>, AreaError>)
    ensures r == MatomeCodeMap(ww, tornado)
  {
    ghost var w := Tag(WarningTable, ww);
    assert [] + w == w;
    var warnings := FoldRelationTable(map[], [], WarningTable, ww);
    if warnings.Err? {
      assert (w + Tag(TornadoTable, tornado))[..|w|] == w;
      MatomeFoldErrSticky(w + Tag(TornadoTable, tornado), |w|);
      return warnings;
    }
    r := FoldRelationTable(warnings.value, w, TornadoTable, tornado);
  }

  // ---------------------------------------------------------------------------
  // The code-name map
  // ---------------------------------------------------------------------------

  /** A name and kana as read from a sheet; either may be NaN. */
  datatype AreaName = AreaName(name: Cell, kana: Cell)

  /** A row of the code table (`@code`, `@name`, and the unnamed kana column). */
  datatype MasterRow = MasterRow(code: string, name: Cell, kana: Cell)

  /** The columns of a city-table row that the tools read: `@code`, `@name`,
      `@name.1`, `@name.2`, `@name.4`, the matching kana columns, and the
      matome code the city belongs to. */
  datatype CityRow = CityRow(
    code: Cell,
    name: Cell, name1: Cell, name2: Cell, name4: Cell,
    kana: Cell, kana1: Cell, kana2: Cell, kana4: Cell,
    matome: Cell)

  /** `x == "nan" or pd.isnull(x)` */
  predicate Placeholder(c: Cell) {
    c.None? || c == Some("nan")
  }

  /** `not x or x == "nan" or pd.isnull(x)`; NaN is truthy, the empty string
      is not. */
  predicate Skippable(c: Cell) {
    c == Some("") || Placeholder(c)
  }

  /** The column fallback of the city table: the primary column unless it is a
      placeholder, then the `.4` and `.2` columns unless skippable, and finally
      the `.1` column as it is. */
  function Fallback(primary: Cell, alt4: Cell, alt2: Cell, alt1: Cell): (r: Cell)
    ensures !Placeholder(primary) ==> r == primary
    ensures Placeholder(primary) && !Skippable(alt4) ==> r == alt4
    ensures Placeholder(primary) && Skippable(alt4) && !Skippable(alt2) ==> r == alt2
    ensures Placeholder(r) ==> Placeholder(primary) && Skippable(alt4) && Skippable(alt2) && r == alt1
  {
    if !Placeholder(primary) then primary
    else if !Skippable(alt4) then alt4
    else if !Skippable(alt2) then alt2
    else alt1
  }

  function CityName(row: CityRow): Cell {
    Fallback(row.name, row.name4, row.name2, row.name1)
  }

  /** The city's kana after the fallback, with a "nan" placeholder blanked. */
  function CityKana(row: CityRow): (k: Cell)
    ensures k != Some("nan")
    ensures Fallback(row.kana, row.kana4, row.kana2, row.kana1) != Some("nan") ==> k == Fallback(row.kana, row.kana4, row.kana2, row.kana1)
  {
    var k := Fallback(row.kana, row.kana4, row.kana2, row.kana1);
    if k == Some("nan") then Some("") else k
  }

  /** A city row writes a name entry unless its code prints as "nan" or its
      resolved name is the string "nan" (a NaN name is written). */
  predicate Writes(row: CityRow) {
    Str(row.code) != "nan" && CityName(row) != Some("nan")
  }

  /** When a city row writes no entry, stated on its cells. */
  lemma WritesIff(row: CityRow)
    ensures !Writes(row) <==>
              || Str(row.code) == "nan"
              || (Placeholder(row.name) && Skippable(row.name4) && Skippable(row.name2) && row.name1 == Some("nan"))
  {
  }

  function MasterPairs(ms: seq<MasterRow>): (ps: seq<(string, AreaName)>)
    ensures |ps| == |ms|
    ensures forall i :: 0 <= i < |ms| ==> ps[i] == (ms[i].code, AreaName(ms[i].name, ms[i].kana))
  {
    seq(|ms|, i requires 0 <= i < |ms| => (ms[i].code, AreaName(ms[i].name, ms[i].kana)))
  }

  /** The city-row loop of `make_code_name_map`, applied to the map `m`. */
  function NameFold(m: map<string, AreaName>, cs: seq<CityRow>): map<string, AreaName> {
    if cs == [] then m
    else
      var m' := NameFold(m, cs[..|cs| - 1]);
      var row := cs[|cs| - 1];
      if Writes(row) then m'[Str(row.code) := AreaName(CityName(row), CityKana(row))] else m'
  }

  /** `make_code_name_map`: the code table, then the city rows over it. */
  function CodeNameMap(ms: seq<MasterRow>, cs: seq<CityRow>): map<string, AreaName> {
    NameFold(MapFromPairs(MasterPairs(ms)), cs)
  }

  /** The code-name map holds exactly the codes of the code table and of the
      city rows that write an entry. */
  lemma {:induction false} CodeNameMapKeys(ms: seq<MasterRow>, cs: seq<CityRow>)
    ensures forall c :: c in CodeNameMap(ms, cs) ==>
              (exists i :: 0 <= i < |ms| && ms[i].code == c) || (exists i :: 0 <= i < |cs| && Writes(cs[i]) && Str(cs[i].code) == c)
    ensures forall i :: 0 <= i < |ms| ==> ms[i].code in CodeNameMap(ms, cs)
    ensures forall i :: 0 <= i < |cs| && Writes(cs[i]) ==> Str(cs[i].code) in CodeNameMap(ms, cs)
  {
    MapFromPairsKeys(MasterPairs(ms));
    NameFoldKeys(MapFromPairs(MasterPairs(ms)), cs);
    forall c | c in MapFromPairs(MasterPairs(ms))
      ensures exists i :: 0 <= i < |ms| && ms[i].code == c
    {
      var i :| 0 <= i < |ms| && MasterPairs(ms)[i].0 == c;
    }
    forall i | 0 <= i < |ms|
      ensures ms[i].code in MapFromPairs(MasterPairs(ms))
    {
      assert MasterPairs(ms)[i].0 == ms[i].code;
    }
  }

  lemma {:induction false} NameFoldKeys(m: map<string, AreaName>, cs: seq<CityRow>)
    ensures forall c :: c in NameFold(m, cs) ==> c in m || exists i :: 0 <= i < |cs| && Writes(cs[i]) && Str(cs[i].code) == c
    ensures m.Keys <= NameFold(m, cs).Keys
    ensures forall i :: 0 <= i < |cs| && Writes(cs[i]) ==> Str(cs[i].code) in NameFold(m, cs)
  {
    if cs != [] {
      var p := cs[..|cs| - 1];
      NameFoldKeys(m, p);
      assert forall i :: 0 <= i < |p| ==> p[i] == cs[i];
    }
  }

  /** A city row's entry overrides the code table and earlier rows, unless a
      later row writes the same code. */
  lemma {:induction false} CityEntryWins(ms: seq<MasterRow>, cs: seq<CityRow>, i: int)
    requires 0 <= i < |cs| && Writes(cs[i])
    requires forall j :: i < j < |cs| && Writes(cs[j]) ==> Str(cs[j].code) != Str(cs[i].code)
    ensures Str(cs[i].code) in CodeNameMap(ms, cs)
    ensures CodeNameMap(ms, cs)[Str(cs[i].code)] == AreaName(CityName(cs[i]), CityKana(cs[i]))
  {
    NameFoldAt(MapFromPairs(MasterPairs(ms)), cs, i);
  }

  lemma {:induction false} NameFoldAt(m: map<string, AreaName>, cs: seq<CityRow>, i: int)
    requires 0 <= i < |cs| && Writes(cs[i])
    requires forall j :: i < j < |cs| && Writes(cs[j]) ==> Str(cs[j].code) != Str(cs[i].code)
    ensures Str(cs[i].code) in NameFold(m, cs)
    ensures NameFold(m, cs)[Str(cs[i].code)] == AreaName(CityName(cs[i]), CityKana(cs[i]))
  {
    var p := cs[..|cs| - 1];
    if i < |cs| - 1 {
      assert p[i] == cs[i];
      assert forall j :: i < j < |p| ==> p[j] == cs[j];
      NameFoldAt(m, p, i);
    }
  }

  /** With no city row writing it, a code keeps the last code-table entry. */
  lemma {:induction false} MasterEntryKept(ms: seq<MasterRow>, cs: seq<CityRow>, i: int)
    requires 0 <= i < |ms| && LastWith(MasterPairs(ms), ms[i].code, i)
    requires forall j :: 0 <= j < |cs| && Writes(cs[j]) ==> Str(cs[j].code) != ms[i].code
    ensures ms[i].code in CodeNameMap(ms, cs)
    ensures CodeNameMap(ms, cs)[ms[i].code] == AreaName(ms[i].name, ms[i].kana)
  {
    MapFromPairsAt(MasterPairs(ms), ms[i].code, i);
    NameFoldUntouched(MapFromPairs(MasterPairs(ms)), cs, ms[i].code);
  }

  lemma {:induction false} NameFoldUntouched(m: map<string, AreaName>, cs: seq<CityRow>, c: string)
    requires c in m
    requires forall j :: 0 <= j < |cs| && Writes(cs[j]) ==> Str(cs[j].code) != c
    ensures c in NameFold(m, cs) && NameFold(m, cs)[c] == m[c]
  {
    if cs != [] {
      var p := cs[..|cs| - 1];
      assert forall j :: 0 <= j < |p| ==> p[j] == cs[j];
      NameFoldUntouched(m, p, c);
    }
  }

  /** A row that writes no entry (code "nan", or name "nan") leaves the map as
      it was. */
  lemma SkippedRowIgnored(ms: seq<MasterRow>, cs: seq<CityRow>, row: CityRow)
    requires !Writes(row)
    ensures CodeNameMap(ms, cs + [row]) == CodeNameMap(ms, cs)
  {
    assert (cs + [row])[..|cs|] == cs;
  }

  /** The city-row loop on the dictionary itself, which also keeps Python's
      insertion order of the codes. */
  function NameFoldDict(d: OrderedMap<string, AreaName>, cs: seq<CityRow>): OrderedMap<string, AreaName> {
    if cs == [] then d
    else
      var d' := NameFoldDict(d, cs[..|cs| - 1]);
      var row := cs[|cs| - 1];
      if Writes(row) then d'.Put(Str(row.code), AreaName(CityName(row), CityKana(row))) else d'
  }

  lemma {:induction false} NameFoldDictValues(d: OrderedMap<string, AreaName>, cs: seq<CityRow>)
    requires d.Valid()
    ensures NameFoldDict(d, cs).Valid() && NameFoldDict(d, cs).values == NameFold(d.values, cs)
  {
    if cs != [] {
      NameFoldDictValues(d, cs[..|cs| - 1]);
    }
  }

  /** `make_code_name_map` as the dictionary it returns: a well-formed
      insertion-ordered dictionary whose contents are `CodeNameMap`. */
  function CodeNameDict(ms: seq<MasterRow>, cs: seq<CityRow>): (d: OrderedMap<string, AreaName>)
    ensures d.Valid() && d.values == CodeNameMap(ms, cs)
  {
    FromPairsValues(MasterPairs(ms));
    NameFoldDictValues(FromPairs(MasterPairs(ms)), cs);
    NameFoldDict(FromPairs(MasterPairs(ms)), cs)
  }

  lemma MasterPairsSnoc(ms: seq<MasterRow>, i: int)
    requires 0 <= i < |ms|
    ensures FromPairs(MasterPairs(ms[..i + 1])) == FromPairs(MasterPairs(ms[..i])).Put(ms[i].code, AreaName(ms[i].name, ms[i].kana))
  {
    assert MasterPairs(ms[..i + 1])[..i] == MasterPairs(ms[..i]);
  }

  lemma NameFoldDictSnoc(d: OrderedMap<string, AreaName>, cs: seq<CityRow>, j: int)
    requires 0 <= j < |cs|
    ensures NameFoldDict(d, cs[..j + 1]) ==
              if Writes(cs[j]) then NameFoldDict(d, cs[..j]).Put(Str(cs[j].code), AreaName(CityName(cs[j]), CityKana(cs[j])))
              else NameFoldDict(d, cs[..j])
  {
    assert cs[..j + 1][..j] == cs[..j];
  }

  /** `make_code_name_map`: the code-table loop, then the city-row loop. */
  method MakeCodeNameMap(ms: seq<MasterRow>, cs: seq<CityRow>) returns (d: OrderedMap<string, AreaName>)
    ensures d == CodeNameDict(ms, cs)
  {
    d := EmptyMap();
    var i := 0;
    while i < |ms|
      invariant 0 <= i <= |ms|
      invariant d == FromPairs(MasterPairs(ms[..i]))
    {
      MasterPairsSnoc(ms, i);
      d := d.Put(ms[i].code, AreaName(ms[i].name, ms[i].kana));
      i := i + 1;
    }
    assert ms[..|ms|] == ms;
    ghost var d0 := d;
    var j := 0;
    while j < |cs|
      invariant 0 <= j <= |cs|
      invariant d == NameFoldDict(d0, cs[..j])
    {
      NameFoldDictSnoc(d0, cs, j);
      var row := cs[j];
      var code := Str(row.code);
      if code != "nan" {
        var name := row.name;
        if name == Some("nan") || name.None? {
          name := row.name4;
          if name == Some("") || name == Some("nan") || name.None? {
            name := row.name2;
            if name == Some("") || name == Some("nan") || name.None? {
              name := row.name1;
            }
          }
        }
        assert name == CityName(row);
        var kana := row.kana;
        if kana == Some("nan") || kana.None? {
          kana := row.kana4;
          if kana == Some("") || kana == Some("nan") || kana.None? {
            kana := row.kana2;
            if kana == Some("") || kana == Some("nan") || kana.None? {
              kana := row.kana1;
            }
          }
        }
        assert kana == Fallback(row.kana, row.kana4, row.kana2, row.kana1);
        if name != Some("nan") {
          if kana == Some("nan") {
            kana := Some("");
          }
          d := d.Put(code, AreaName(name, kana));
        }
      }
      j := j + 1;
    }
    assert cs[..|cs|] == cs;
  }

  // ---------------------------------------------------------------------------
  // Assembling the tree
  // ---------------------------------------------------------------------------

  datatype Level = City | Matome | Ichiji | Fuken | Saibun | Other

  /** A parent reference of a record: the key is missing, is JSON null, or
      holds a code. */
  datatype Ref = Absent | Null | Code(code: string)

  /** One record of the output. */
  datatype AreaRecord = AreaRecord(level: Level, name: Cell, kana: Cell, fuken: Ref, saibun: Ref, ichiji: Ref, matome: Ref)

  type Tree = map<string, AreaRecord>

  function RefOf(o: Option<string>): (r: Ref)
    ensures o.None? ==> r == Null
    ensures o.Some? ==> r == Code(o.value)
  {
    match o
    case None => Null
    case Some(c) => Code(c)
  }

  /** The codes of `o` that Python treats as true: a non-empty string. */
  function TruthyCodes(o: Option<string>): (s: set<string>)
    ensures forall c :: c in s <==> o == Some(c) && c != ""
  {
    if o.Some? && o.value != "" then {o.value} else {}
  }

  /** The matome code a city row refers to, if it is neither empty nor "nan". */
  predicate Linked(row: CityRow) {
    Str(row.matome) != "" && Str(row.matome) != "nan"
  }

  function CityRecord(name: string, kana: Cell, spec: MatomeProps, matome: string): AreaRecord {
    AreaRecord(City, Some(name), kana, RefOf(spec.fuken), RefOf(spec.saibun), Code(spec.ichiji), Code(matome))
  }

  function MatomeRecord(n: AreaName, spec: MatomeProps): AreaRecord {
    AreaRecord(Matome, n.name, n.kana, RefOf(spec.fuken), RefOf(spec.saibun), Code(spec.ichiji), Absent)
  }

  function IchijiRecord(n: AreaName, spec: MatomeProps): AreaRecord {
    AreaRecord(Ichiji, n.name, n.kana, RefOf(spec.fuken), RefOf(spec.saibun), Absent, Absent)
  }

  /** A record without parent references. */
  function LeafRecord(level: Level, n: AreaName): AreaRecord {
    AreaRecord(level, n.name, n.kana, Absent, Absent, Absent, Absent)
  }

  /** The codes a linked row writes before its saibun record: its own code,
      its matome and ichiji codes, and a non-empty fuken code. */
  function ParentCodes(row: CityRow, spec: MatomeProps): set<string> {
    {Str(row.code), Str(row.matome), spec.ichiji} + TruthyCodes(spec.fuken)
  }

  /** The codes a linked row looks up in the code-name map: those it writes,
      and a non-empty saibun code that is not in the tree yet. */
  function NeededNames(result: Tree, row: CityRow, spec: MatomeProps): set<string> {
    ParentCodes(row, spec) + (TruthyCodes(spec.saibun) - result.Keys - ParentCodes(row, spec))
  }

  /** One iteration of the assembly loop over the city rows. A linked row
      writes its city record, then rewrites the matome and ichiji records, then
      rewrites the fuken record if the fuken code is non-empty, then adds a
      saibun record only if that code is not in the tree; a row without a
      matome code writes a city record without parents. A missing key in
      either map fails. */
  function CityRowStep(result: Tree, row: CityRow, names: map<string, AreaName>, mm: map<string, MatomeProps>): Result<Tree, AreaError> {
    var code := Str(row.code);
    var mc := Str(row.matome);
    if Linked(row) then
      if mc !in mm then Err(MissingMatome(mc))
      else
        var spec := mm[mc];
        if code !in names then Err(MissingName(code))
        else if mc !in names then Err(MissingName(mc))
        else if spec.ichiji !in names then Err(MissingName(spec.ichiji))
        else
          var r3 := result[code := CityRecord(Str(row.name), names[code].kana, spec, mc)]
                          [mc := MatomeRecord(names[mc], spec)]
                          [spec.ichiji := IchijiRecord(names[spec.ichiji], spec)];
          if TruthyCodes(spec.fuken) != {} && spec.fuken.value !in names then Err(MissingName(spec.fuken.value))
          else
            var r4 := if TruthyCodes(spec.fuken) != {} then r3[spec.fuken.value := LeafRecord(Fuken, names[spec.fuken.value])] else r3;
            if TruthyCodes(spec.saibun) != {} && spec.saibun.value !in r4 then
              if spec.saibun.value in names then Ok(r4[spec.saibun.value := LeafRecord(Saibun, names[spec.saibun.value])])
              else Err(MissingName(spec.saibun.value))
            else Ok(r4)
    else if code !in names then Err(MissingName(code))
    else Ok(result[code := LeafRecord(City, names[code])])
  }

  /** When a row fails: a linked row whose matome code is missing from the
      matome map or which needs a name that is missing; an unlinked row whose
      own name is missing. */
  lemma CityRowStepFails(result: Tree, row: CityRow, names: map<string, AreaName>, mm: map<string, MatomeProps>)
    ensures Linked(row) ==>
              (CityRowStep(result, row, names, mm).Err? <==>
               Str(row.matome) !in mm || !(NeededNames(result, row, mm[Str(row.matome)]) <= names.Keys))
    ensures !Linked(row) ==> (CityRowStep(result, row, names, mm).Err? <==> Str(row.code) !in names)
  {
  }

  /** The records a linked row leaves behind. The key set grows by the codes
      it writes. A code the row does not write keeps its record, so an
      existing saibun record stays (first writer wins). Each written code holds
      the record of the last level written to it: fuken over ichiji over
      matome over city. */
  lemma LinkedRowRecords(result: Tree, row: CityRow, names: map<string, AreaName>, mm: map<string, MatomeProps>)
    requires Linked(row) && CityRowStep(result, row, names, mm).Ok?
    ensures Str(row.matome) in mm
    ensures var r := CityRowStep(result, row, names, mm).value;
            var spec := mm[Str(row.matome)];
            var code := Str(row.code);
            var mc := Str(row.matome);
            && NeededNames(result, row, spec) <= names.Keys
            && r.Keys == result.Keys + ParentCodes(row, spec) + TruthyCodes(spec.saibun)
            && (forall c :: c in result && c !in ParentCodes(row, spec) ==> r[c] == result[c])
            && (forall f :: f in TruthyCodes(spec.fuken) ==> r[f] == LeafRecord(Fuken, names[f]))
            && (spec.ichiji !in TruthyCodes(spec.fuken) ==> r[spec.ichiji] == IchijiRecord(names[spec.ichiji], spec))
            && (mc != spec.ichiji && mc !in TruthyCodes(spec.fuken) ==> r[mc] == MatomeRecord(names[mc], spec))
            && (code != mc && code != spec.ichiji && code !in TruthyCodes(spec.fuken) ==>
                  r[code] == CityRecord(Str(row.name), names[code].kana, spec, mc))
            && (forall s :: s in TruthyCodes(spec.saibun) && s !in result && s !in ParentCodes(row, spec) ==>
                  r[s] == LeafRecord(Saibun, names[s]))
  {
  }

  /** A row without a matome code writes only its own city record, which has
      no parent references. */
  lemma UnlinkedRowRecord(result: Tree, row: CityRow, names: map<string, AreaName>, mm: map<string, MatomeProps>)
    requires !Linked(row) && CityRowStep(result, row, names, mm).Ok?
    ensures var r := CityRowStep(result, row, names, mm).value;
            && Str(row.code) in names
            && r.Keys == result.Keys + {Str(row.code)}
            && r[Str(row.code)] == LeafRecord(City, names[Str(row.code)])
            && (forall c :: c in result && c != Str(row.code) ==> r[c] == result[c])
  {
  }

  /** The assembly loop over the city rows; the first missing key ends the run. */
  function CityFold(cs: seq<CityRow>, names: map<string, AreaName>, mm: map<string, MatomeProps>): Result<Tree, AreaError> {
    if cs == [] then Ok(map[])
    else
      match CityFold(cs[..|cs| - 1], names, mm)
      case Err(e) => Err(e)
      case Ok(t) => CityRowStep(t, cs[|cs| - 1], names, mm)
  }

  /** The loop over the code-name dictionary, in its order `ks`: every code
      not yet in the tree gets an "other" record. */
  function OthersOver(t: Tree, names: map<string, AreaName>, ks: seq<string>): Tree
    requires forall i :: 0 <= i < |ks| ==> ks[i] in names
  {
    if ks == [] then t
    else
      var o := OthersOver(t, names, ks[..|ks| - 1]);
      var c := ks[|ks| - 1];
      if c in o then o else o[c := LeafRecord(Other, names[c])]
  }

  lemma {:induction false} OthersOverRecords(t: Tree, names: map<string, AreaName>, ks: seq<string>)
    requires forall i :: 0 <= i < |ks| ==> ks[i] in names
    ensures var o := OthersOver(t, names, ks);
            && (forall c :: c in o <==> c in t || c in ks)
            && (forall c :: c in t ==> o[c] == t[c])
            && (forall c :: c in ks && c !in t ==> o[c] == LeafRecord(Other, names[c]))
  {
    if ks != [] {
      var p := ks[..|ks| - 1];
      OthersOverRecords(t, names, p);
      assert ks == p + [ks[|ks| - 1]];
    }
  }

  /** The "other" pass adds exactly the codes of the dictionary missing from
      the tree, as "other" records, and leaves every existing record
      unchanged. */
  lemma OthersRecords(t: Tree, d: OrderedMap<string, AreaName>)
    requires d.Valid()
    ensures var o := OthersOver(t, d.values, d.keys);
            && o.Keys == t.Keys + d.values.Keys
            && (forall c :: c in t ==> o[c] == t[c])
            && (forall c :: c in d.values && c !in t ==> o[c] == LeafRecord(Other, d.values[c]))
  {
    OthersOverRecords(t, d.values, d.keys);
  }

  // ---------------------------------------------------------------------------
  // The final check
  // ---------------------------------------------------------------------------

  /** `if x := area.get(...): assert x in result`: only a non-empty code is
      checked. */
  predicate Resolved(ref: Ref, t: Tree) {
    ref.Code? && ref.code != "" ==> ref.code in t
  }

  predicate RefsIn(a: AreaRecord, t: Tree) {
    Resolved(a.fuken, t) && Resolved(a.saibun, t) && Resolved(a.ichiji, t) && Resolved(a.matome, t)
  }

  /** Every parent reference of every record is a code of the tree. */
  predicate RefsClosed(t: Tree) {
    forall c :: c in t ==> RefsIn(t[c], t)
  }

  /** `verify_result` */
  predicate VerifyResult(t: Tree, names: map<string, AreaName>, mm: map<string, MatomeProps>) {
    RefsClosed(t) && names.Keys <= t.Keys && mm.Keys <= t.Keys
  }

  lemma RefsInGrow(a: AreaRecord, t: Tree, t': Tree)
    requires RefsIn(a, t) && t.Keys <= t'.Keys
    ensures RefsIn(a, t')
  {
  }

  /** Each row keeps the tree closed under its references, and its own code
      in the tree. */
  lemma CityRowStepClosed(result: Tree, row: CityRow, names: map<string, AreaName>, mm: map<string, MatomeProps>)
    requires RefsClosed(result) && CityRowStep(result, row, names, mm).Ok?
    ensures var r := CityRowStep(result, row, names, mm).value;
            RefsClosed(r) && result.Keys <= r.Keys && Str(row.code) in r
  {
    var r := CityRowStep(result, row, names, mm).value;
    if Linked(row) {
      LinkedRowRecords(result, row, names, mm);
      var spec := mm[Str(row.matome)];
      var code := Str(row.code);
      var mc := Str(row.matome);
      var pc := ParentCodes(row, spec);
      forall c | c in r
        ensures RefsIn(r[c], r)
      {
        if c in TruthyCodes(spec.fuken) {
        } else if c == spec.ichiji {
          assert RefsIn(IchijiRecord(names[spec.ichiji], spec), r);
        } else if c == mc {
          assert RefsIn(MatomeRecord(names[mc], spec), r);
        } else if c == code {
          assert RefsIn(CityRecord(Str(row.name), names[code].kana, spec, mc), r);
        } else if c in result {
          RefsInGrow(result[c], result, r);
        }
      }
    } else {
      UnlinkedRowRecord(result, row, names, mm);
      forall c | c in r
        ensures RefsIn(r[c], r)
      {
        if c in result && c != Str(row.code) {
          RefsInGrow(result[c], result, r);
        }
      }
    }
  }

  /** The assembled city records form a closed tree holding every city row's
      code. */
  lemma {:induction false} CityFoldClosed(cs: seq<CityRow>, names: map<string, AreaName>, mm: map<string, MatomeProps>)
    requires CityFold(cs, names, mm).Ok?
    ensures RefsClosed(CityFold(cs, names, mm).value)
    ensures forall i :: 0 <= i < |cs| ==> Str(cs[i].code) in CityFold(cs, names, mm).value
  {
    if cs != [] {
      var p := cs[..|cs| - 1];
      CityFoldClosed(p, names, mm);
      CityRowStepClosed(CityFold(p, names, mm).value, cs[|cs| - 1], names, mm);
      assert forall i :: 0 <= i < |p| ==> p[i] == cs[i];
    }
  }

  /** The "other" records have no references, so the tree stays closed. */
  lemma OthersClosed(t: Tree, d: OrderedMap<string, AreaName>)
    requires RefsClosed(t) && d.Valid()
    ensures RefsClosed(OthersOver(t, d.values, d.keys))
  {
    var o := OthersOver(t, d.values, d.keys);
    OthersRecords(t, d);
    forall c | c in o
      ensures RefsIn(o[c], o)
    {
      if c in t {
        RefsInGrow(t[c], t, o);
      }
    }
  }

  // ---------------------------------------------------------------------------
  // The whole run
  // ---------------------------------------------------------------------------

  /** `process()` without the spreadsheet reads and the JSON output. */
  function ProcessSpec(cs: seq<CityRow>, ms: seq<MasterRow>, ww: seq<RelationRow>, tornado: seq<RelationRow>): Result<Tree, AreaError> {
    var dict := CodeNameDict(ms, cs);
    match MatomeCodeMap(ww, tornado)
    case Err(e) => Err(e)
    case Ok(mm) =>
      match CityFold(cs, dict.values, mm)
      case Err(e) => Err(e)
      case Ok(t) =>
        var out := OthersOver(t, dict.values, dict.keys);
        if VerifyResult(out, dict.values, mm) then Ok(out) else Err(VerificationFailed)
  }

  /** Two of the three checks of `verify_result` can never fail: the
      assembled tree is always closed under its references and always holds
      every code of the code-name map. Only a matome code that no row placed
      in the tree fails it. An accepted tree also holds every city row's code. */
  lemma ProcessOutcome(cs: seq<CityRow>, ms: seq<MasterRow>, ww: seq<RelationRow>, tornado: seq<RelationRow>)
    ensures var names := CodeNameMap(ms, cs);
            MatomeCodeMap(ww, tornado).Ok? && CityFold(cs, names, MatomeCodeMap(ww, tornado).value).Ok? ==>
              var mm := MatomeCodeMap(ww, tornado).value;
              var out := OthersOver(CityFold(cs, names, mm).value, names, CodeNameDict(ms, cs).keys);
              && RefsClosed(out)
              && names.Keys <= out.Keys
              && (ProcessSpec(cs, ms, ww, tornado) == Err(VerificationFailed) <==> !(mm.Keys <= out.Keys))
    ensures ProcessSpec(cs, ms, ww, tornado).Ok? ==>
              var out := ProcessSpec(cs, ms, ww, tornado).value;
              && RefsClosed(out)
              && CodeNameMap(ms, cs).Keys <= out.Keys
              && MatomeCodeMap(ww, tornado).Ok? && MatomeCodeMap(ww, tornado).value.Keys <= out.Keys
              && forall i :: 0 <= i < |cs| ==> Str(cs[i].code) in out
  {
    var dict := CodeNameDict(ms, cs);
    if MatomeCodeMap(ww, tornado).Ok? && CityFold(cs, dict.values, MatomeCodeMap(ww, tornado).value).Ok? {
      var mm := MatomeCodeMap(ww, tornado).value;
      var t := CityFold(cs, dict.values, mm).value;
      CityFoldClosed(cs, dict.values, mm);
      OthersClosed(t, dict);
      OthersRecords(t, dict);
    }
  }

  /** The assembly loop over the city rows. */
  method AssembleCities(cs: seq<CityRow>, names: map<string, AreaName>, mm: map<string, MatomeProps>) returns (r: Result<Tree, AreaError>)
    ensures r == CityFold(cs, names, mm)
  {
    var result: Tree := map[];
    var i := 0;
    while i < |cs|
      invariant 0 <= i <= |cs|
      invariant CityFold(cs[..i], names, mm) == Ok(result)
    {
      assert cs[..i + 1][..i] == cs[..i];
      var step := CityRowStep(result, cs[i], names, mm);
      if step.Err? {
        CityFoldErrSticky(cs, i + 1, names, mm);
        return step;
      }
      result := step.value;
      i := i + 1;
    }
    assert cs[..|cs|] == cs;
    return Ok(result);
  }

  lemma CityFoldErrSticky(cs: seq<CityRow>, n: nat, names: map<string, AreaName>, mm: map<string, MatomeProps>)
    requires n <= |cs| && CityFold(cs[..n], names, mm).Err?
    ensures CityFold(cs, names, mm) == CityFold(cs[..n], names, mm)
    decreases |cs| - n
  {
    if n < |cs| {
      assert cs[..n + 1][..n] == cs[..n];
      CityFoldErrSticky(cs, n + 1, names, mm);
    } else {
      assert cs[..n] == cs;
    }
  }

  /** The loop adding an "other" record for every code of the code-name
      dictionary that is not in the tree yet, in the dictionary's order. */
  method AddOtherRecords(t: Tree, d: OrderedMap<string, AreaName>) returns (o: Tree)
    requires d.Valid()
    ensures o == OthersOver(t, d.values, d.keys)
  {
    o := t;
    var i := 0;
    while i < |d.keys|
      invariant 0 <= i <= |d.keys|
      invariant o == OthersOver(t, d.values, d.keys[..i])
    {
      OthersOverSnoc(t, d, i);
      var c := d.keys[i];
      if c !in o {
        o := o[c := LeafRecord(Other, d.values[c])];
      }
      i := i + 1;
    }
    assert d.keys[..|d.keys|] == d.keys;
  }

  lemma OthersOverSnoc(t: Tree, d: OrderedMap<string, AreaName>, i: int)
    requires d.Valid() && 0 <= i < |d.keys|
    ensures OthersOver(t, d.values, d.keys[..i + 1]) ==
              var o := OthersOver(t, d.values, d.keys[..i]);
              if d.keys[i] in o then o else o[d.keys[i] := LeafRecord(Other, d.values[d.keys[i]])]
  {
    assert d.keys[..i + 1][..i] == d.keys[..i];
  }

  /** `process()`: the code-name map, the matome map, the assembly loops and
      the final check. */
  method Process(cs: seq<CityRow>, ms: seq<MasterRow>, ww: seq<RelationRow>, tornado: seq<RelationRow>) returns (r: Result<Tree, AreaError>)
    ensures r == ProcessSpec(cs, ms, ww, tornado)
  {
    var dict := MakeCodeNameMap(ms, cs);
    var matome := MakeMatomeCodeMap(ww, tornado);
    if matome.Err? {
      return Err(matome.error);
    }
    var mm := matome.value;
    var assembled := AssembleCities(cs, dict.values, mm);
    if assembled.Err? {
      return Err(assembled.error);
    }
    var out := AddOtherRecords(assembled.value, dict);
    if !VerifyResult(out, dict.values, mm) {
      return Err(VerificationFailed);
    }
    return Ok(out);
  }
}
