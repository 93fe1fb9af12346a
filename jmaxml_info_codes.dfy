/** The conversion of the JMA XML information-code table: a scan over its
    rows that carries the code name in force and a "value mode" flag from row
    to row, and records each allowed value of a code under that code name. */
module JmaxmlInfoCodes {
  import opened Wrappers
  import opened Strings

  /** A spreadsheet cell: its text, or `None` for an empty (NaN) cell. */
  type Cell = Option<string>

  /** The cells of one row the scan reads: `コード名`, `属性`, `値` and `解説`. */
  datatype InfoRow = InfoRow(codeName: Cell, attribute: Cell, value: Cell, description: Cell)

  /** The `属性` text that opens a run of allowed values. */
  const ValueAttribute: string := "とりうる値"

  /** The parenthetical note removed from every description. */
  const ControlTitleNote: string := "（Control/Title=\"気象警報・注意報\"の場合には出現しない。）"

  /** The output: per code name (`None` before the first one), the allowed
      values and their descriptions. */
  type Codes = map<Option<string>, map<string, string>>

  /** The scan's variables: `currentCodeName`, `isValueMode`, `result`. */
  datatype ScanState = ScanState(codeName: Option<string>, valueMode: bool, result: Codes)

  datatype InfoError =
    | BadValue(value: string)         // `int()` of a `値` cell that is not an integer
    | MissingDescription(key: string) // `解説` empty, so `.replace` applies to NaN

  /** The code name after a row: a non-empty `コード名` replaces it. */
  function NextCodeName(current: Option<string>, row: InfoRow): (r: Option<string>)
    ensures row.codeName.Some? ==> r == row.codeName
    ensures row.codeName.None? ==> r == current
  {
    if row.codeName.Some? then row.codeName else current
  }

  /** The value mode after a row: a non-empty `属性` sets it, to whether it reads
      "とりうる値". */
  function NextValueMode(mode: bool, row: InfoRow): (r: bool)
    ensures row.attribute.Some? ==> (r <==> row.attribute.value == ValueAttribute)
    ensures row.attribute.None? ==> r == mode
  {
    match row.attribute
    case None => mode
    case Some(a) => a == ValueAttribute
  }

  /** `str(int(value)).zfill(2)` */
  function EntryKey(value: string): (r: Option<string>)
    ensures r.Some? <==> ParseInt(value).Some?
    ensures r.Some? ==> r.value == ZFill(IntToStr(ParseInt(value).value), 2)
  {
    match ParseInt(value)
    case None => None
    case Some(n) => Some(ZFill(IntToStr(n), 2))
  }

  /** An entry key is at least two characters long and reads back as the
      integer of its `値` cell, so cells with the same integer ("7", "07",
      " 7") give the same key. */
  lemma EntryKeyNormalises(value: string)
    requires EntryKey(value).Some?
    ensures |EntryKey(value).value| >= 2
    ensures ParseInt(EntryKey(value).value) == ParseInt(value)
  {
    ParseIntOfZFill(ParseInt(value).value, 2);
  }

  lemma EntryKeyCanonical(v1: string, v2: string)
    requires EntryKey(v1).Some? && EntryKey(v2).Some?
    ensures EntryKey(v1) == EntryKey(v2) <==> ParseInt(v1) == ParseInt(v2)
  {
    EntryKeyNormalises(v1);
    EntryKeyNormalises(v2);
  }

  /** The entry a row records, given the code name and value mode after it:
      none unless value mode is on and `値` is non-empty. */
  function Entry(codeName: Option<string>, mode: bool, row: InfoRow): (r: Result<Option<(Option<string>, string, string)>, InfoError>)
    ensures r.Ok? && r.value.Some? <==>
              mode && row.value.Some? && EntryKey(row.value.value).Some? && row.description.Some?
    ensures r.Err? <==> mode && row.value.Some? && (EntryKey(row.value.value).None? || row.description.None?)
    ensures r.Ok? && r.value.Some? ==>
              r.value.value == (codeName, EntryKey(row.value.value).value, RemoveAll(row.description.value, ControlTitleNote))
  {
    if !mode || row.value.None? then Ok(None)
    else
      match EntryKey(row.value.value)
      case None => Err(BadValue(row.value.value))
      case Some(key) =>
        match row.description
        case None => Err(MissingDescription(key))
        case Some(d) => Ok(Some((codeName, key, RemoveAll(d, ControlTitleNote))))
  }

  /** `result[c][k] = d`, creating the inner table on the first value of `c`. */
  function Insert(codes: Codes, c: Option<string>, k: string, d: string): (r: Codes)
    ensures forall c' :: c' in r <==> c' in codes || c' == c
    ensures c in r && k in r[c] && r[c][k] == d
    ensures forall j :: j in r[c] <==> j == k || (c in codes && j in codes[c])
    ensures forall j :: j in r[c] && j != k ==> r[c][j] == codes[c][j]
    ensures forall c' :: c' in codes && c' != c ==> r[c'] == codes[c']
  {
    var inner := if c in codes then codes[c] else map[];
    codes[c := inner[k := d]]
  }

  // ---------------------------------------------------------------------------
  // The state after a run of rows
  // ---------------------------------------------------------------------------

  /** The code name in force after `rows`. */
  function CodeNameAfter(rows: seq<InfoRow>): Option<string> {
    if rows == [] then None else NextCodeName(CodeNameAfter(rows[..|rows| - 1]), rows[|rows| - 1])
  }

  /** The value mode after `rows`. */
  function ValueModeAfter(rows: seq<InfoRow>): bool {
    if rows == [] then false else NextValueMode(ValueModeAfter(rows[..|rows| - 1]), rows[|rows| - 1])
  }

  /** The code name persists: it is the last non-empty `コード名` so far, and
      `None` while there has been none. */
  lemma {:induction false} CodeNameIsLastGiven(rows: seq<InfoRow>)
    ensures CodeNameAfter(rows).None? <==> forall i :: 0 <= i < |rows| ==> rows[i].codeName.None?
    ensures CodeNameAfter(rows).Some? ==>
              exists i :: 0 <= i < |rows| && rows[i].codeName == CodeNameAfter(rows)
                          && forall j :: i < j < |rows| ==> rows[j].codeName.None?
  {
    if rows != [] {
      var n := |rows| - 1;
      var p := rows[..n];
      CodeNameIsLastGiven(p);
      assert forall i :: 0 <= i < n ==> p[i] == rows[i];
      if rows[n].codeName.None? && CodeNameAfter(p).Some? {
        var i :| 0 <= i < |p| && p[i].codeName == CodeNameAfter(p) && forall j :: i < j < |p| ==> p[j].codeName.None?;
        assert rows[i].codeName == CodeNameAfter(rows);
      }
    }
  }

  /** Value mode is on exactly when the last non-empty `属性` so far reads
      "とりうる値". */
  lemma {:induction false} ValueModeIsLastAttribute(rows: seq<InfoRow>)
    ensures ValueModeAfter(rows) <==>
              exists i :: 0 <= i < |rows| && rows[i].attribute == Some(ValueAttribute)
                          && forall j :: i < j < |rows| ==> rows[j].attribute.None?
  {
    if rows != [] {
      var n := |rows| - 1;
      var p := rows[..n];
      ValueModeIsLastAttribute(p);
      assert forall i :: 0 <= i < n ==> p[i] == rows[i];
      if rows[n].attribute.None? {
        if ValueModeAfter(p) {
          var i :| 0 <= i < |p| && p[i].attribute == Some(ValueAttribute) && forall j :: i < j < |p| ==> p[j].attribute.None?;
          assert rows[i].attribute == Some(ValueAttribute);
        }
      } else if rows[n].attribute.value == ValueAttribute {
        assert rows[n].attribute == Some(ValueAttribute);
      }
    }
  }

  /** The entry of row `i`, with the state in force after it. */
  function RowEntry(rows: seq<InfoRow>, i: nat): Result<Option<(Option<string>, string, string)>, InfoError>
    requires i < |rows|
  {
    Entry(CodeNameAfter(rows[..i + 1]), ValueModeAfter(rows[..i + 1]), rows[i])
  }

  type Entries = seq<Result<Option<(Option<string>, string, string)>, InfoError>>

  /** Each row's entry, in row order. */
  function RowEntries(rows: seq<InfoRow>): (es: Entries)
    ensures |es| == |rows| && forall i :: 0 <= i < |rows| ==> es[i] == RowEntry(rows, i)
  {
    seq(|rows|, i requires 0 <= i < |rows| => RowEntry(rows, i))
  }

  /** `result[c][k] = d` for each entry in turn, stopping at the first row
      that fails. */
  function Collect(es: Entries): Result<Codes, InfoError> {
    if es == [] then Ok(map[])
    else
      match Collect(es[..|es| - 1])
      case Err(e) => Err(e)
      case Ok(codes) =>
        match es[|es| - 1]
        case Err(e) => Err(e)
        case Ok(None) => Ok(codes)
        case Ok(Some(e)) => Ok(Insert(codes, e.0, e.1, e.2))
  }

  /** The scan over `rows`: its final code name and value mode, and the
      codes it recorded. */
  function Scan(rows: seq<InfoRow>): Result<ScanState, InfoError> {
    match Collect(RowEntries(rows))
    case Err(e) => Err(e)
    case Ok(codes) => Ok(ScanState(CodeNameAfter(rows), ValueModeAfter(rows), codes))
  }

  /** Entry `i` records at key `k` of code name `c`. */
  predicate EntryAt(es: Entries, i: int, c: Option<string>, k: string) {
    0 <= i < |es| && es[i].Ok? && es[i].value.Some? && es[i].value.value.0 == c && es[i].value.value.1 == k
  }

  lemma {:induction false} CollectFails(es: Entries)
    ensures Collect(es).Ok? <==> forall i :: 0 <= i < |es| ==> es[i].Ok?
  {
    if es != [] {
      var p := es[..|es| - 1];
      CollectFails(p);
      assert forall i :: 0 <= i < |p| ==> p[i] == es[i];
    }
  }

  /** Every recorded code name and key comes from some entry. */
  lemma {:induction false} CollectKeysSound(es: Entries)
    requires Collect(es).Ok?
    ensures forall c :: c in Collect(es).value ==> exists i, k :: EntryAt(es, i, c, k)
    ensures forall c, k :: c in Collect(es).value && k in Collect(es).value[c] ==> exists i :: EntryAt(es, i, c, k)
  {
    if es != [] {
      var n := |es| - 1;
      var p := es[..n];
      CollectKeysSound(p);
      assert forall i :: 0 <= i < n ==> p[i] == es[i];
      var before := Collect(p).value;
      var after := Collect(es).value;
      forall c | c in after
        ensures exists i, k :: EntryAt(es, i, c, k)
      {
        if c in before {
          var i, k :| EntryAt(p, i, c, k);
          assert EntryAt(es, i, c, k);
        } else {
          assert EntryAt(es, n, c, es[n].value.value.1);
        }
      }
      forall c, k | c in after && k in after[c]
        ensures exists i :: EntryAt(es, i, c, k)
      {
        if c in before && k in before[c] {
          var i :| EntryAt(p, i, c, k);
          assert EntryAt(es, i, c, k);
        } else {
          assert EntryAt(es, n, c, k);
        }
      }
    }
  }

  /** Every entry's code name and key are recorded. */
  lemma {:induction false} CollectKeysComplete(es: Entries)
    requires Collect(es).Ok?
    ensures forall i, c, k :: EntryAt(es, i, c, k) ==> c in Collect(es).value && k in Collect(es).value[c]
  {
    if es != [] {
      var n := |es| - 1;
      var p := es[..n];
      CollectKeysComplete(p);
      forall i, c, k | EntryAt(es, i, c, k)
        ensures c in Collect(es).value && k in Collect(es).value[c]
      {
        if i < n {
          assert p[i] == es[i];
          assert EntryAt(p, i, c, k);
        }
      }
    }
  }

  lemma {:induction false} CollectLastWins(es: Entries, i: nat, c: Option<string>, k: string)
    requires Collect(es).Ok? && EntryAt(es, i, c, k)
    requires forall j :: i < j < |es| ==> !EntryAt(es, j, c, k)
    ensures c in Collect(es).value && k in Collect(es).value[c]
    ensures Collect(es).value[c][k] == es[i].value.value.2
  {
    CollectKeysComplete(es);
    var n := |es| - 1;
    if i < n {
      var p := es[..n];
      assert p[i] == es[i];
      assert EntryAt(p, i, c, k);
      forall j | i < j < |p|
        ensures !EntryAt(p, j, c, k)
      {
        assert p[j] == es[j];
        assert !EntryAt(es, j, c, k);
      }
      CollectLastWins(p, i, c, k);
      assert !EntryAt(es, n, c, k);
    }
  }

  /** The scan fails exactly when some row in value mode has an `値` that is
      not an integer or no `解説`. */
  lemma ScanFails(rows: seq<InfoRow>)
    ensures Scan(rows).Ok? <==> forall i :: 0 <= i < |rows| ==> RowEntry(rows, i).Ok?
  {
    CollectFails(RowEntries(rows));
  }

  /** A successful scan records key `k` under code name `c` exactly when
      some row's entry is at `k` of `c`; in particular a code name appears
      only once it has a value. */
  lemma ScanKeys(rows: seq<InfoRow>)
    requires Scan(rows).Ok?
    ensures forall c :: c in Scan(rows).value.result ==> exists i, k :: EntryAt(RowEntries(rows), i, c, k)
    ensures forall c, k :: c in Scan(rows).value.result && k in Scan(rows).value.result[c] ==>
              exists i :: EntryAt(RowEntries(rows), i, c, k)
    ensures forall i, c, k :: EntryAt(RowEntries(rows), i, c, k) ==>
              c in Scan(rows).value.result && k in Scan(rows).value.result[c]
  {
    CollectKeysSound(RowEntries(rows));
    CollectKeysComplete(RowEntries(rows));
  }

  /** A repeated key overwrites: the description recorded at `k` of `c` is
      that of the last row whose entry is there. */
  lemma ScanLastWins(rows: seq<InfoRow>, i: nat, c: Option<string>, k: string)
    requires Scan(rows).Ok? && EntryAt(RowEntries(rows), i, c, k)
    requires forall j :: i < j < |rows| ==> !EntryAt(RowEntries(rows), j, c, k)
    ensures c in Scan(rows).value.result && k in Scan(rows).value.result[c]
    ensures Scan(rows).value.result[c][k] == RowEntry(rows, i).value.value.2
  {
    CollectLastWins(RowEntries(rows), i, c, k);
  }

  // ---------------------------------------------------------------------------
  // The loop
  // ---------------------------------------------------------------------------

  lemma CollectErrSticky(es: Entries, n: nat)
    requires n <= |es| && Collect(es[..n]).Err?
    ensures Collect(es) == Collect(es[..n])
    decreases |es| - n
  {
    if n < |es| {
      assert es[..n + 1][..n] == es[..n];
      CollectErrSticky(es, n + 1);
    } else {
      assert es[..n] == es;
    }
  }

  lemma CollectStep(es: Entries, i: nat, codes: Codes)
    requires i < |es| && Collect(es[..i]) == Ok(codes)
    ensures Collect(es[..i + 1]) ==
              match es[i]
              case Err(e) => Err(e)
              case Ok(None) => Ok(codes)
              case Ok(Some(e)) => Ok(Insert(codes, e.0, e.1, e.2))
  {
    assert es[..i + 1][..i] == es[..i];
  }

  lemma StateStep(rows: seq<InfoRow>, i: nat)
    requires i < |rows|
    ensures CodeNameAfter(rows[..i + 1]) == NextCodeName(CodeNameAfter(rows[..i]), rows[i])
    ensures ValueModeAfter(rows[..i + 1]) == NextValueMode(ValueModeAfter(rows[..i]), rows[i])
  {
    assert rows[..i + 1][..i] == rows[..i];
  }

  /** `process()`'s row loop. */
  method ScanRows(rows: seq<InfoRow>) returns (r: Result<ScanState, InfoError>)
    ensures r == Scan(rows)
  {
    ghost var es := RowEntries(rows);
    var currentCodeName: Option<string> := None;
    var isValueMode := false;
    var result: Codes := map[];
    var i := 0;
    while i < |rows|
      invariant 0 <= i <= |rows|
      invariant currentCodeName == CodeNameAfter(rows[..i]) && isValueMode == ValueModeAfter(rows[..i])
      invariant Collect(es[..i]) == Ok(result)
    {
      StateStep(rows, i);
      CollectStep(es, i, result);
      var row := rows[i];
      if row.codeName.Some? {
        currentCodeName := row.codeName;
      }
      if row.attribute.Some? {
        isValueMode := row.attribute.value == ValueAttribute;
      }
      assert es[i] == Entry(currentCodeName, isValueMode, row);
      if isValueMode && row.value.Some? {
        var n := ParseInt(row.value.value);
        if n.None? {
          CollectErrSticky(es, i + 1);
          return Err(BadValue(row.value.value));
        }
        var key := ZFill(IntToStr(n.value), 2);
        if row.description.None? {
          CollectErrSticky(es, i + 1);
          return Err(MissingDescription(key));
        }
        var desc := RemoveAll(row.description.value, ControlTitleNote);
        var inner := if currentCodeName in result then result[currentCodeName] else map[];
        result := result[currentCodeName := inner[key := desc]];
      }
      i := i + 1;
    }
    assert rows[..i] == rows;
    assert es[..i] == es;
    return Ok(ScanState(currentCodeName, isValueMode, result));
  }
}
