# jma-codes table resolution, in Dafny

jma-codes converts the code tables of the Japan Meteorological Agency
(Excel workbooks, a scraped station list, station catalogues) into JSON
files. This project models the four converters that do more than copy
cells, and proves what they compute.

- **Forecast-area tree** (`tools/area_local_codes.py`), module
  `AreaLocalCodes`:
  - the relation tables are folded into the matome (grouped-locality)
    map `code → {ichiji, fuken, saibun}`;
  - the code → `{name, kana}` map is built from the master sheet and the
    city sheet's column-fallback chain;
  - the result tree is assembled (city, matome, ichiji, fuken and saibun
    records, then "other" for leftover codes);
  - `verify_result` is the acceptance predicate `VerifyResult`.
- **Station matcher** (`tools/seisvolc_point.py`), module
  `SeisvolcPoint`:
  - the 47-entry prefecture table and the city-name strip of
    `_REMOVE_CITY_PAT`;
  - the keying of the three point tables, with the `IntensityPoints`
    class holding them;
  - `find_station`'s three-tier lookup and its multi-candidate
    tie-break;
  - the per-entry logic of `get_volc_points`.
- **Seismic/volcanic sheet normaliser** (`tools/seis_and_volc.py`),
  module `SeisAndVolc`:
  - ignored sheets and the column renames for sheets 24/25;
  - the `NAME_MAP` projection and the zero padding on sheet 35;
  - items keyed by code, with coordinates for sheets 24 and 82;
  - `cityToSaibun`, the tsunami-location pass of sheet 35, and the
    sheet loop.
- **Info-code state machine** (`tools/jmaxml_info_codes.py`), module
  `JmaxmlInfoCodes`: the row scan that carries the current code name and
  the value mode, and fills the nested result dictionary.

Shared pieces:

- `Wrappers`: `Option`, `Result`.
- `Strings`: Python's `str.strip`, `str.zfill`, `int(str)`, `str(int)`,
  `in`, `startswith`, `endswith` and `replace(pat, "")`.
- `OrderedMaps`: a Python `dict` as an insertion-ordered map (key
  sequence plus map). Enumeration order matters where the source iterates
  a dict.

Modelling conventions:

- A pandas cell is `Option<string>`, where `None` is NaN. `str()` of a NaN
  cell is `"nan"` (`AreaLocalCodes.Str`).
- Every operation of the source that can raise (`KeyError`, a failed
  `assert`, an exception from `int()`) returns `Err` with a dedicated
  error value, so the contracts cover the error paths as well as the
  normal ones.
- Each imperative loop of the source is a `method` with a `while` loop,
  proved equal to a specification function. The properties are lemmas
  about that function.
- Network and file I/O, the spreadsheet readers and the JSON writers are
  outside the model. Their parsed tables are the methods' inputs.

## Model

| member | source | states |
|---|---|---|
| AreaLocalCodes.MatomeFoldCorrect | tools/area_local_codes.py:55-84 | the relation fold succeeds iff every recurring matome code repeats its first ichiji code. On success the keys are exactly the matome codes seen, and each value has its first ichiji with the last fuken (warning table) and last saibun (tornado table) written for it, or None if that table never mentions it |
| AreaLocalCodes.FirstIchijiAt | tools/area_local_codes.py:59-83 | once the fold is consistent, every row's ichiji equals the ichiji recorded when its matome code first appeared |
| AreaLocalCodes.LastSubAt | tools/area_local_codes.py:67-84 | the fuken/saibun slot of a matome code holds the value of the last row of that table that names it (unconditional overwrite) |
| AreaLocalCodes.FoldRelationTable | tools/area_local_codes.py:55-67 | the row loop over one relation table computes the fold over the rows seen so far followed by this table's rows |
| AreaLocalCodes.MakeMatomeCodeMap | tools/area_local_codes.py:28-86 | the warning loop and then the tornado loop compute the matome map, or the first failed ichiji assertion |
| AreaLocalCodes.Fallback | tools/area_local_codes.py:112-124 | the name (kana) is the primary cell unless it is "nan"/NaN; otherwise the first of `.4`, `.2` that is not empty, "nan" or NaN; otherwise `.1` as it is |
| AreaLocalCodes.CityKana | tools/area_local_codes.py:118-128 | the resolved kana, with "nan" replaced by "" and never "nan" |
| AreaLocalCodes.WritesIff | tools/area_local_codes.py:107-130 | a city row writes the name map unless its code is "nan" or its resolved name is "nan" |
| AreaLocalCodes.CodeNameMapKeys | tools/area_local_codes.py:101-130 | the name map's keys are exactly the master codes plus the codes of the city rows that write |
| AreaLocalCodes.CityEntryWins | tools/area_local_codes.py:126-130 | the last writing city row for a code decides its entry, over any master entry |
| AreaLocalCodes.MasterEntryKept | tools/area_local_codes.py:101-105 | a master code that no city row writes keeps the last master row's name and kana |
| AreaLocalCodes.SkippedRowIgnored | tools/area_local_codes.py:108-110 | a city row that does not write leaves the name map unchanged |
| AreaLocalCodes.CodeNameDict | tools/area_local_codes.py:89-132 | the name dictionary in insertion order is valid, and its contents are the name map |
| AreaLocalCodes.MakeCodeNameMap | tools/area_local_codes.py:89-132 | the master loop and the city loop compute that dictionary, insertion order included |
| AreaLocalCodes.CityRowStepFails | tools/area_local_codes.py:165-209 | a linked city row fails iff its matome code is unknown or a name it needs is missing; an unlinked row fails iff its own code has no name |
| AreaLocalCodes.LinkedRowRecords | tools/area_local_codes.py:165-203 | a linked row writes the city, matome and ichiji records in full and the fuken record when fuken is non-empty. It creates the saibun record only if that code is still absent (first writer wins). Later writes in the row take precedence, and every other record is unchanged |
| AreaLocalCodes.UnlinkedRowRecord | tools/area_local_codes.py:204-209 | a row without a matome reference writes only a city record with the name map's name and kana, and no parent references |
| AreaLocalCodes.OthersOverRecords | tools/area_local_codes.py:211-217 | the "other" pass adds exactly the missing codes with level "other" and leaves existing records unchanged |
| AreaLocalCodes.OthersRecords | tools/area_local_codes.py:211-217 | over the name dictionary, the result covers every name-map key, and only missing codes become "other" |
| AreaLocalCodes.CityRowStepClosed | tools/area_local_codes.py:165-203 | a city row step keeps every reference of the tree resolvable and keeps all earlier codes |
| AreaLocalCodes.CityFoldClosed | tools/area_local_codes.py:159-209 | after the city loop every reference resolves and every city row's code is present |
| AreaLocalCodes.OthersClosed | tools/area_local_codes.py:211-217 | the "other" pass keeps every reference resolvable |
| AreaLocalCodes.ProcessOutcome | tools/area_local_codes.py:158-242 | the assembled result always passes the reference check and contains every name-map key, so `verify_result` fails iff some matome code is missing. An accepted result covers the name map, the matome map and every city row |
| AreaLocalCodes.AssembleCities | tools/area_local_codes.py:158-209 | the city loop computes the city fold or its first lookup failure |
| AreaLocalCodes.AddOtherRecords | tools/area_local_codes.py:211-217 | the loop over the name dictionary computes the "other" pass |
| AreaLocalCodes.Process | tools/area_local_codes.py:135-219 | the whole builder computes the specified tree, or the first error, including the `verify_result` failure |
| SeisvolcPoint.CityMarkAt | tools/seisvolc_point.py:15 | finds the first 市/町/村/区 before any newline, or reports that there is none |
| SeisvolcPoint.StripCity | tools/seisvolc_point.py:15 | the stripped name is always a suffix of the name. It is the text after the first 市/町/村/区 when that mark comes before any newline, and the name itself otherwise |
| SeisvolcPoint.PrefecturesUpToKeys | tools/seisvolc_point.py:17-65 | the table built from the first n names has exactly the two-digit keys 01..n, each naming the matching prefecture |
| SeisvolcPoint.PrefectureMapKeys | tools/seisvolc_point.py:17-65 | `PREFECTURE_MAP` has exactly the keys "01".."47", key k naming the k-th prefecture; any other prefix misses |
| SeisvolcPoint.JmaLoadFails | tools/seisvolc_point.py:102-112 | the scrape fails iff some non-skipped row has fewer than seven cells, and it reports the first such row |
| SeisvolcPoint.JmaLoadKeys | tools/seisvolc_point.py:104-107 | the JMA table's keys are exactly the names of the rows that are neither empty nor headers |
| SeisvolcPoint.JmaLoadAt | tools/seisvolc_point.py:107 | a name is mapped to the point of its last row (later rows overwrite) |
| SeisvolcPoint.NiedTableConsistent | tools/seisvolc_point.py:159-166 | in the K-NET table a point's name and prefecture equal its key's name and pref |
| SeisvolcPoint.IntensityPoints.Empty | tools/seisvolc_point.py:85-89 | the three tables start empty |
| SeisvolcPoint.IntensityPoints.Load | tools/seisvolc_point.py:85-89 | construction loads the JSON catalogue, the scraped table and the K-NET table, or fails with the scrape's error |
| SeisvolcPoint.IntensityPoints.LoadJma | tools/seisvolc_point.py:91-113 | replaces the JMA table with the scraped rows' points and leaves the other tables unchanged |
| SeisvolcPoint.IntensityPoints.LoadJmaJson | tools/seisvolc_point.py:115-130 | replaces the catalogue table, last station per name winning, and leaves the other tables unchanged |
| SeisvolcPoint.IntensityPoints.LoadNied | tools/seisvolc_point.py:155-166 | replaces the K-NET table in insertion order, last row per key winning, and leaves the other tables unchanged |
| SeisvolcPoint.IntensityPoints.FindStation | tools/seisvolc_point.py:168-198 | the lookup loop with its candidate list and sort computes the specified three-tier answer |
| SeisvolcPoint.CandidatesInOrder | tools/seisvolc_point.py:177-181 | the candidates are exactly the K-NET points of the prefecture whose name occurs in the stripped name, in table order |
| SeisvolcPoint.CandidatesNone | tools/seisvolc_point.py:177-183 | with no matching point there are no candidates |
| SeisvolcPoint.CandidatesSound | tools/seisvolc_point.py:177-181 | every candidate is a table point of the prefecture whose name occurs in the stripped name |
| SeisvolcPoint.CandidatesComplete | tools/seisvolc_point.py:177-181 | every matching table point is a candidate |
| SeisvolcPoint.FirstSuffix | tools/seisvolc_point.py:187-189 | finds the first candidate whose name is a suffix of the stripped name, or reports that none is |
| SeisvolcPoint.InsertByGap | tools/seisvolc_point.py:190 | inserting into the sort keeps every element and adds one |
| SeisvolcPoint.SortByGap | tools/seisvolc_point.py:190 | the sort is a permutation of the candidates |
| SeisvolcPoint.InsertByGapSorted | tools/seisvolc_point.py:190 | inserting into a list sorted by `len(stripped) - len(name)` keeps it sorted |
| SeisvolcPoint.SortByGapSorted | tools/seisvolc_point.py:190 | the sort's result is ordered by `len(stripped) - len(name)` |
| SeisvolcPoint.LongestFirst | tools/seisvolc_point.py:190-191 | picks the first candidate with the longest name |
| SeisvolcPoint.SortByGapHead | tools/seisvolc_point.py:190-191 | the stable sort puts the first longest-named candidate first |
| SeisvolcPoint.MultiMatchChoice | tools/seisvolc_point.py:186-191 | with several candidates the answer is a candidate: the first suffix match if there is one, and the first longest name otherwise |
| SeisvolcPoint.FindStationPrecedence | tools/seisvolc_point.py:170-174 | a name in the JMA table returns that point and nothing else is consulted. The lookup fails iff the name is not there and the city code's prefix is not a prefecture code |
| SeisvolcPoint.FindStationKnet | tools/seisvolc_point.py:177-191 | when some K-NET point matches, the answer is a matching K-NET point of the prefecture. With exactly one candidate it is that candidate. With several it is the first candidate (in table order) whose name ends the stripped name, or else the first candidate with the longest name |
| SeisvolcPoint.FindStationFallback | tools/seisvolc_point.py:182-198 | with no K-NET match the catalogue entry of the raw name is returned, or None without an error |
| SeisvolcPoint.VolcLoadFails | tools/seisvolc_point.py:205-211 | the volcano load fails iff some entry fails that check, and it reports the first failing entry |
| SeisvolcPoint.VolcMapKeys | tools/seisvolc_point.py:205-209 | the map's keys are exactly the codes of entries with `latlon` |
| SeisvolcPoint.VolcMapAt | tools/seisvolc_point.py:208-209 | a code maps to `(lon, lat)` of its last entry with `latlon` |
| SeisvolcPoint.GetVolcPoints | tools/seisvolc_point.py:201-213 | the volcano loop computes that map or the first failed assertion |
| SeisAndVolc.NameMapDistinct | tools/seis_and_volc.py:39-55 | `NAME_MAP`'s source columns are distinct, and so are its targets, none of which is "lnglat" or "owner" |
| SeisAndVolc.SheetNameMapCovers | tools/seis_and_volc.py:58-80 | sheets 24, 25, 35 and 82 have output tables |
| SeisAndVolc.Column | tools/seis_and_volc.py:117 | a label is absent, at exactly one position, or duplicated |
| SeisAndVolc.RenamedOnto | tools/seis_and_volc.py:110-111 | a rename that sends exactly one label to a target, and renames any original column of the target away, puts the target exactly where that label was |
| SeisAndVolc.StationRenamedColumns | tools/seis_and_volc.py:13-36 | on sheets 24/25 the renamed "Code" and "Name" columns, which the items are keyed and named by, are the original "Code.2" and "Name.2" columns |
| SeisAndVolc.Project | tools/seis_and_volc.py:115-121 | every projected value is text |
| SeisAndVolc.ProjectFails | tools/seis_and_volc.py:117 | projection fails iff some `NAME_MAP` source label is duplicated among the columns |
| SeisAndVolc.ProjectKeys | tools/seis_and_volc.py:116-121 | every key of a record is a `NAME_MAP` target |
| SeisAndVolc.ProjectHas | tools/seis_and_volc.py:116-121 | a target is present iff its source column exists and the cell is not null |
| SeisAndVolc.ProjectValues | tools/seis_and_volc.py:118-121 | a present target holds the stripped cell, zero-filled to 5 on sheet 35 when its column name contains "Code" |
| SeisAndVolc.ProjectRow | tools/seis_and_volc.py:115-121 | the projection loop computes that record |
| SeisAndVolc.RowItemShape | tools/seis_and_volc.py:115-141 | the item key is the raw `Code` cell, zero-filled to 5 on sheet 35. On sheet 24 `lnglat` is the found station's `[lng, lat]` or null. On sheet 82 `lnglat` is present iff the code is a volcano, holding its coordinates. Every other field is the projection, unchanged |
| SeisAndVolc.RowToItem | tools/seis_and_volc.py:114-143 | one iteration of the row loop computes the row's key and record |
| SeisAndVolc.ItemsFoldOutcome | tools/seis_and_volc.py:113-143 | the item loop succeeds iff every row does. Then the items are the rows' (key, record) pairs in insertion order, with the last row per key winning. Otherwise the error is the first failing row's |
| SeisAndVolc.BuildItems | tools/seis_and_volc.py:113-143 | the row loop computes the items |
| SeisAndVolc.CityToSaibunKeys | tools/seis_and_volc.py:148-156 | `cityToSaibun`'s keys are exactly the `cityCode` values of the items that have one |
| SeisAndVolc.CityToSaibunAt | tools/seis_and_volc.py:148-156 | a city maps to the stripped fields of the last item with that `cityCode` |
| SeisAndVolc.TsunamiFoldItems | tools/seis_and_volc.py:163-170 | the pass succeeds iff every item does, and updates each listed item as such, leaving the rest unchanged |
| SeisAndVolc.TsunamiPass | tools/seis_and_volc.py:161-171 | over the items dictionary, the pass keeps the same codes and gives each item its location update |
| SeisAndVolc.AttachTsunami | tools/seis_and_volc.py:161-171 | the location loop computes that pass |
| SeisAndVolc.SheetResultShape | tools/seis_and_volc.py:105-160 | a sheet writes nothing iff its stripped name is ignored. Sheets 24/25 are renamed and write `pointToCity` and `cityToSaibun` |
| SeisAndVolc.ProcessSheet | tools/seis_and_volc.py:105-180 | one iteration of the sheet loop computes that sheet's output |
| SeisAndVolc.RunWrites | tools/seis_and_volc.py:105-180 | a run writes, in order, the outputs of Ok sheets. It ends without error iff every sheet succeeds, and then every non-ignored sheet is written |
| SeisAndVolc.ProcessWrites | tools/seis_and_volc.py:105-180 | the files written come from non-ignored sheets, in workbook order; an error-free run writes every non-ignored sheet |
| SeisAndVolc.ProcessWorkbook | tools/seis_and_volc.py:105-180 | the sheet loop computes the run, stopping at the first failing sheet |
| JmaxmlInfoCodes.CodeNameIsLastGiven | tools/jmaxml_info_codes.py:19-24 | after any rows, the code name is the last non-null `コード名`, or None if there was none |
| JmaxmlInfoCodes.ValueModeIsLastAttribute | tools/jmaxml_info_codes.py:20-31 | value mode is on iff the last non-null `属性` is "とりうる値" |
| JmaxmlInfoCodes.EntryKeyNormalises | tools/jmaxml_info_codes.py:36 | the key has at least two characters and parses back to the value's integer |
| JmaxmlInfoCodes.EntryKeyCanonical | tools/jmaxml_info_codes.py:36 | two values give the same key iff they denote the same integer |
| JmaxmlInfoCodes.Entry | tools/jmaxml_info_codes.py:33-40 | a row records an entry iff value mode is on, `値` is non-null and parses, and `解説` is non-null. The entry is (code name, key, `解説` without the fixed note). It fails iff value mode is on with a non-null `値` that does not parse or a null `解説` |
| JmaxmlInfoCodes.Insert | tools/jmaxml_info_codes.py:41-43 | inserting creates the code name's dictionary if needed, sets the key, and changes nothing else |
| JmaxmlInfoCodes.CollectFails | tools/jmaxml_info_codes.py:33-43 | collecting entries succeeds iff no row fails |
| JmaxmlInfoCodes.CollectKeysSound | tools/jmaxml_info_codes.py:41-43 | every code name and every key in the result comes from a recorded entry |
| JmaxmlInfoCodes.CollectKeysComplete | tools/jmaxml_info_codes.py:41-43 | every recorded entry's code name and key are in the result |
| JmaxmlInfoCodes.CollectLastWins | tools/jmaxml_info_codes.py:43 | a repeated key holds the text of its last entry |
| JmaxmlInfoCodes.ScanFails | tools/jmaxml_info_codes.py:33-40 | the scan fails iff some row's entry fails |
| JmaxmlInfoCodes.ScanKeys | tools/jmaxml_info_codes.py:18-43 | the scan's result holds exactly the code names and keys of the recorded entries |
| JmaxmlInfoCodes.ScanLastWins | tools/jmaxml_info_codes.py:41-43 | over the rows, a repeated (code name, key) holds the last row's text |
| JmaxmlInfoCodes.ScanRows | tools/jmaxml_info_codes.py:18-43 | the row loop with its two state variables computes the scan |
| Strings.Strip | tools/seis_and_volc.py:118 | `str.strip()`: no surrounding whitespace remains, and a string without any is unchanged |
| Strings.StripIsSlice | tools/seis_and_volc.py:118 | the stripped text is the input with whitespace-only ends removed |
| Strings.ZFill | tools/seis_and_volc.py:120 | `str.zfill(width)`: pads with zeros to the width, after a leading sign, and leaves a long enough string unchanged |
| Strings.ParseIntOfIntToStr | tools/jmaxml_info_codes.py:36 | `int(str(n)) == n` |
| Strings.ParseIntOfZFill | tools/jmaxml_info_codes.py:36 | zero filling `str(n)` keeps its integer value |
| Strings.RemoveAll | tools/jmaxml_info_codes.py:38-40 | removing a pattern never lengthens the text |
| Strings.RemoveAllWithoutMatch | tools/jmaxml_info_codes.py:38-40 | a text without the pattern is unchanged |
| Strings.RemoveAllCutsFirstMatch | tools/jmaxml_info_codes.py:38-40 | the removal cuts the first occurrence and continues after it, left to right |
| OrderedMaps.MapFromPairsKeys | tools/seisvolc_point.py:124 | the dict's keys are exactly the keys written |
| OrderedMaps.MapFromPairsAt | tools/seisvolc_point.py:166 | a key holds the value of its last write |
| OrderedMaps.OrderedMap.Put | tools/area_local_codes.py:105 | assigning a key sets its value; a new key goes at the end of the order and an existing key keeps its place |
| OrderedMaps.FromPairsValues | tools/seisvolc_point.py:166 | the dict built by assignments is valid, and its contents are last-write-wins |
| OrderedMaps.FromPairsOrder | tools/seisvolc_point.py:177 | keys enumerate in the order of their first write |
| OrderedMaps.PutAllPairs | tools/seis_and_volc.py:143 | a failing loop of assignments is a failing fold; a successful one builds the dict of all its pairs |
| OrderedMaps.PutAllFirstError | tools/seis_and_volc.py:114-143 | a failing loop reports its first failing step, after which nothing is assigned |

## Left out

- Network and file I/O: the HTTP fetches, the lxml/JSON/CSV parsing, `pd.read_excel`, and the `json.dump` blocks with their `sort_keys` ordering. The parsed tables are inputs, and each converter's output is its returned value.
- `tools/seis_and_volc.py:176-180`: the file of each sheet is modelled as a (table name, output) pair in the run, so the file writing itself is left out. `tools/jmaxml_info_codes.py:45-50` (one file per code name) is left out too, and `ScanRows` returns the result dictionary.
- Degree + minute / 60 coordinates (`tools/seisvolc_point.py:111-112`) are a function parameter `degMin`, and coordinates are opaque reals. Float parsing is not modelled.
- Logging and `print`: the "station not found" warning, and the sheet-35 "沖" check at `tools/seis_and_volc.py:166-167`, which only prints. Its one effect kept is the `KeyError` on a missing "name".
- `get_point_tsunami_locations` is an input map (`Sources.locs`), built from a manual JSON file and a downloaded text table.
- Inside `process` of `tools/seis_and_volc.py`, `IntensityPoints.find_station` and `get_volc_points` are inputs (`Sources.findStation`, `Sources.volc`). `SeisvolcPoint` models both on their own.
- `PREFECTURE_MAP` is written as the list of the 47 names, in the literal's order, plus a builder that keys the n-th name by its two-digit number. `PrefectureMapKeys` proves that the builder gives the keys "01".."47" and that key n names the n-th entry of the list. That the list matches the literal holds by construction and is not proved.
- find_station's `found.sort` is modelled as a stable insertion sort on values, not an in-place list sort.
- `int()` accepts ASCII and full-width digits with an optional sign and surrounding whitespace. Underscore separators and other Unicode digit sets are not modelled.
- The master sheet's `@code`, `@name` and kana columns (`tools/area_local_codes.py:101-105`) are taken to be text. The source reads them with `cast`, not `str`, so a blank cell there stays a float NaN. A NaN code would pass `verify_result` and then break the sorted JSON dump, and the model cannot represent that cell.
- Cell types: every other cell is text or NaN. Numeric cells that pandas would read as floats are not modelled.
- `td.text` being None in the scraped table is not modelled, and a K-NET name read as NaN is not modelled.
- A NaN `Code` cell in `tools/seis_and_volc.py:123` is an error (`NullCode`). The source keeps a NaN key and may fail later: at `zfill` on sheet 35, or at the sorted JSON dump when the NaN key sits beside text keys. A sheet whose codes are all NaN is dumped by the source without error.
- A column label that occurs twice after renaming is an error (`DuplicateColumn`), where pandas would hand back a Series whose truth value raises.
- An unknown sheet name, a `KeyError` in `SHEET_NAME_MAP` at `tools/seis_and_volc.py:177`, is the error `UnknownSheet`.
- In `tools/jmaxml_info_codes.py` a NaN `解説` is the error `MissingDescription`, where `.replace` on a float raises. The code name None before the first `コード名` is an ordinary key, as in the source's dict.
- The order of the nested dicts in `tools/jmaxml_info_codes.py` is not modelled, only their contents, because the output is written with `sort_keys`.
- `MatomeProps` objects mutated in place (`tools/area_local_codes.py:67, 84`) are modelled as a value update of the map entry. Nothing else holds a reference to them.
