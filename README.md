# genPOI marker aggregation, modelled in Dafny

This project models the part of Minecraft Overviewer's `genPOI` script that
turns points of interest (POIs) into the marker data of the web map. That
data is the `markers.js` index and the `markersDB.js` database. The model
covers six parts of `overviewer_core/aux_files/genPOI.py`:

- `handle_poi_result` turns one POI and one filter function's result into a
  marker record (`markers.dfy`).
- `sanitize` and `get_internal_name` name marker sets (`naming.dfy`).
- The dimension table at the head of `iter_player_pois` (`dimensions.dfy`).
- The player and spawn rule of `iter_player_pois` (`players.dfy`).
- The chunk walk of `iter_entities` (`entities.dfy`).
- The aggregation in `main`: seeding each render's marker sets, appending
  every record in place, and the progress counter (`aggregation.dfy`,
  `progress.dfy`).

`pyvalue.dfy` holds the Python values these functions exchange:

- A `Value` datatype covers None, bool, int, float, str, tuple, list and dict.
- A `Result` carries the exception a step raises.
- The module also defines truthiness, subscripting and `int()`, which
  truncates floats toward zero and parses base-10 strings.

The aggregation in `main` works by changing state, so `Aggregation.Aggregator`
is a class:

- Its fields are `markers`, `markerDb` and the marker sets registered per
  regionset.
- Its methods are proved against recursive specification functions:
  `SeedDb` for the seeding and `ApplyPois` for the append loop.
- The loops run on local copies of the maps (`SeedMarkerSets`, `ApplyAll`,
  `ApplyToPoi`). The fields are assigned once the loop completes.
- Lemmas then state what those functions do. Seeding gives each set exactly
  what its filter collects from the manual POIs. With distinct internal
  names, the regionset loop extends each set by exactly the records its
  filter gives, in POI order. Whatever the names, an entry grows by one
  record per POI and per registration of its name. A marker set registered
  twice for a regionset therefore receives every record twice.
- `ProcessRegionSet` runs both generators for a regionset, chains them and
  feeds the result to the append loop.
- The two generators, `iter_entities` and `iter_player_pois`, are loops proved
  equal to recursive folds.
- The progress counter is proved to log exactly at the counts with one
  significant digit that are at least 100.

Where the code and its documentation differ, the model follows the code:

- `get_chunk` sits outside the `try` of `iter_entities`, so as written a chunk
  that fails to load aborts the scan instead of being skipped with a warning.
  This is logged under "Findings"; the regionset loop uses the corrected scan.
- Python 2's `int()` of a str skips whitespace before the sign and again
  after it, so `int("- 5")` is -5.
- Only a `ValueError` from the UUID lookup is tolerated. A network failure
  aborts the run.
- A polyline is taken only when it is a tuple; a list is ignored. A tuple
  polyline without a `'color'` key raises `KeyError`.
- Python's `$` in `^DIM_MYST(\d+)$` also matches before one trailing newline,
  so `"DIM_MYST7\n"` resolves to 7.

## Model

| member | source | states |
|---|---|---|
| PyValue.Lookup | overviewer_core/aux_files/genPOI.py:276 | `v[key]` succeeds iff v is a dict holding key, giving its value; otherwise KeyError on a dict and TypeError on anything else |
| PyValue.Index | overviewer_core/aux_files/genPOI.py:266-268 | `v[i]` succeeds iff v is a list, tuple or string with more than i items, giving the i-th item |
| PyValue.HasSubstringAt | overviewer_core/aux_files/genPOI.py:291 | a string containing t at some position makes `t in s` true |
| PyValue.Truthy | overviewer_core/aux_files/genPOI.py:264 | a value is falsy exactly when it is None, False, 0, 0.0, or an empty str, tuple, list or dict |
| PyValue.Truncate | overviewer_core/aux_files/genPOI.py:107-109 | `int()` of a float truncates toward zero: the result lies within one of the value, on the side of zero |
| PyValue.ToInt | overviewer_core/aux_files/genPOI.py:107-109 | `int()` keeps ints, truncates floats, maps booleans to 0/1 and parses a str as ParseInt does (ValueError when that fails); any other value is a TypeError |
| PyValue.ParseInt | overviewer_core/aux_files/genPOI.py:66 | every failure of `int()` on a str is a ValueError (what it accepts: ParseIntChars, ParseIntRoundTrip, SpaceAfterSign) |
| PyValue.ParseSigned | overviewer_core/aux_files/genPOI.py:66 | every failure on a stripped str is a ValueError (what it accepts: SignedChars, SignedRoundTrip, DigitsAfterSign) |
| PyValue.SignedChars | overviewer_core/aux_files/genPOI.py:66 | a stripped str parses only when it is digits, bar an optional leading sign and whitespace after that sign |
| PyValue.StripLeft | overviewer_core/aux_files/genPOI.py:66 | `lstrip()` drops only leading whitespace, and what it leaves starts with a non-space if nonempty |
| PyValue.StripLeftSuffix | overviewer_core/aux_files/genPOI.py:66 | what `lstrip()` leaves is a suffix of its input |
| PyValue.StripRight | overviewer_core/aux_files/genPOI.py:66 | `rstrip()` leaves the prefix before the trailing whitespace, which ends with a non-space if nonempty |
| PyValue.StripRightPadded | overviewer_core/aux_files/genPOI.py:66 | stripping the right of a str that ends in a non-space followed by whitespace gives that str |
| PyValue.StripLeftPadded | overviewer_core/aux_files/genPOI.py:66 | stripping the left of whitespace followed by a str that starts with a non-space gives that str |
| PyValue.StripPadded | overviewer_core/aux_files/genPOI.py:66 | stripping both sides removes exactly the whitespace padding around a core that starts and ends with a non-space |
| PyValue.Signed | overviewer_core/aux_files/genPOI.py:107-109 | `str()` of an int is nonempty and neither starts nor ends with whitespace |
| PyValue.SignedRoundTrip | overviewer_core/aux_files/genPOI.py:107-109 | the signed numeral of n parses back to n |
| PyValue.ParseIntRoundTrip | overviewer_core/aux_files/genPOI.py:107-109 | `int()` of `str(n)` surrounded by any whitespace is n |
| PyValue.ParseIntChars | overviewer_core/aux_files/genPOI.py:66 | a str that `int()` accepts holds only whitespace, digits and signs |
| PyValue.SpaceAfterSign | overviewer_core/aux_files/genPOI.py:107-109 | whitespace between the sign and the digits is skipped: `int("-" + pad + str(n))` is -n and `int("+" + pad + str(n))` is n |
| PyValue.SignedDigits | overviewer_core/aux_files/genPOI.py:107-109 | a sign, any whitespace and a nonempty digit string parse to the digits' value, negated for '-' |
| PyValue.DigitsAfterSign | overviewer_core/aux_files/genPOI.py:66 | the same for the stripped str: after the sign the whitespace is dropped and the digits give the value |
| PyValue.SignStripped | overviewer_core/aux_files/genPOI.py:66 | a str starting with a sign and ending with a digit is unchanged by the outer strip |
| PyValue.EndKept | overviewer_core/aux_files/genPOI.py:66 | `rstrip()` keeps a str that ends with a digit |
| PyValue.SignKept | overviewer_core/aux_files/genPOI.py:66 | `lstrip()` keeps a str that starts with a sign |
| PyValue.SignDropped | overviewer_core/aux_files/genPOI.py:66 | after a sign, the digits are looked for in what follows, stripped of its leading whitespace |
| PyValue.EqualsInt | overviewer_core/aux_files/genPOI.py:103 | `v == n` for an int n: when true, `int(v)` is n; for ints and booleans it is exactly `int(v) == n`; a str, None or container never equals an int |
| PyValue.Decimal | overviewer_core/aux_files/genPOI.py:64-66 | the decimal numeral is nonempty, all digits, and has no leading zero |
| PyValue.DecimalRoundTrip | overviewer_core/aux_files/genPOI.py:66 | `int()` of the decimal numeral of n is n |
| PyValue.DigitsRoundTrip | overviewer_core/aux_files/genPOI.py:66 | a digit string without a leading zero is the decimal numeral of its value, so the digits determine the value and back |
| PyValue.LeadingZero | overviewer_core/aux_files/genPOI.py:66 | prefixing "0" to a digit string keeps its value |
| PyValue.DigitsValueZero | overviewer_core/aux_files/genPOI.py:66 | a digit string has value 0 exactly when every digit is '0' |
| Naming.Sanitize | overviewer_core/aux_files/genPOI.py:37-41 | the result has the name's length; each space or parenthesis becomes '_' and every other character is kept |
| Naming.ReplaceEach | overviewer_core/aux_files/genPOI.py:39-40 | the loop of `replace` calls leaves a character unchanged unless it is among the replaced characters, in which case it becomes '_' |
| Naming.Replace | overviewer_core/aux_files/genPOI.py:40 | `str.replace` of one character keeps the length and swaps exactly the matching positions |
| Naming.SanitizeIdempotent | overviewer_core/aux_files/genPOI.py:37-41 | sanitizing twice equals sanitizing once |
| Naming.SanitizeCollides | overviewer_core/aux_files/genPOI.py:37-41 | distinct display names ("a b", "a_b") can sanitize to the same string |
| Naming.HexDigits | overviewer_core/aux_files/genPOI.py:35 | the hex digits are nonempty and drawn from 0-9a-f |
| Naming.Hex | overviewer_core/aux_files/genPOI.py:35 | `hex()` starts with "0x" for non-negative and "-0x" for negative values |
| Naming.Last4 | overviewer_core/aux_files/genPOI.py:35 | `s[-4:]` is the last min(4, len) characters of s |
| Naming.HexIsSafe | overviewer_core/aux_files/genPOI.py:35 | neither `hex(h)` nor its last four characters contain a character that sanitize would replace |
| Naming.InternalNameSafe | overviewer_core/aux_files/genPOI.py:33-35 | the internal name contains no space or parenthesis |
| Naming.Last4Safe | overviewer_core/aux_files/genPOI.py:35 | the last four characters of a safe string are safe |
| Naming.InternalNameShape | overviewer_core/aux_files/genPOI.py:33-35 | the internal name is the sanitized name, then the last four characters of each hash's hex joined by '_'; it contains no space or parenthesis |
| Naming.GetInternalName | overviewer_core/aux_files/genPOI.py:33-35 | the internal name is 7 to 9 characters longer than the display name |
| Markers.PolylineOf | overviewer_core/aux_files/genPOI.py:283-288 | succeeds iff every point has x, y and z; then it has the same length and is point by point the reduced entry; otherwise the error is some entry's error |
| Markers.HandlePoiResult | overviewer_core/aux_files/genPOI.py:262-297 | a falsy filter result, and only that, yields no record |
| Markers.RecordPosition | overviewer_core/aux_files/genPOI.py:264-269 | for a truthy result, the record's x is `poi["x"]` when that key exists and else item 0 of `poi["Pos"]` (likewise y with 1, z with 2); with a coordinate key and Pos both missing it is a KeyError; any failing lookup's error is the result |
| Markers.Coord | overviewer_core/aux_files/genPOI.py:266-268 | a coordinate lookup succeeds iff the key exists or Pos can be indexed at i, giving the key's value first; it fails only with KeyError, IndexError or TypeError |
| Markers.Position | overviewer_core/aux_files/genPOI.py:265-269 | the position succeeds iff all three coordinate lookups do, and is their values |
| Markers.BaseRecord | overviewer_core/aux_files/genPOI.py:264-269 | a positioned record starts at the POI's position with no icon or createInfoWindow; a position error is the result |
| Markers.PointOf | overviewer_core/aux_files/genPOI.py:283-286 | a polyline point reduces iff it is a dict with x, y and z, to those three values; otherwise KeyError on a dict and TypeError on anything else |
| Markers.IconTest | overviewer_core/aux_files/genPOI.py:291 | `'icon' in r` fails with TypeError exactly on values that are not str, tuple, list or dict; on a dict it tests the keys, on a str it searches for the substring |
| Markers.PoiKeys | overviewer_core/aux_files/genPOI.py:293-296 | only icon and createInfoWindow change; the result's own icon wins, else the POI's icon if present; createInfoWindow is the POI's exactly when present |
| Markers.StringResult | overviewer_core/aux_files/genPOI.py:270-271 | a string result s gives text == hovertext == s and no polyline; once positioned it cannot fail |
| Markers.TupleResult | overviewer_core/aux_files/genPOI.py:272-273 | a tuple result succeeds iff it is a pair (a, b), giving hovertext a and text b; any other length is a ValueError |
| Markers.DictResult | overviewer_core/aux_files/genPOI.py:275-290 | a dict needs 'text' (KeyError otherwise); hovertext is 'hovertext' only when that is a string, else the text; a polyline exists iff 'polyline' is a tuple, and then it is PolylineOf of it and 'color' must exist; strokeColor is set iff 'color' is a string; a missing 'color' is a KeyError |
| Markers.OtherResult | overviewer_core/aux_files/genPOI.py:264-269 | any other truthy result gives a positioned record without text, hovertext, polyline or strokeColor |
| Markers.RecordIcon | overviewer_core/aux_files/genPOI.py:291-296 | a dict result's icon wins over the POI's icon, with neither there is no icon; createInfoWindow is the POI's when present |
| Markers.HandlePoiResultAsWritten | overviewer_core/aux_files/genPOI.py:291-292 | as written, the icon test raises TypeError for truthy numbers and booleans and for strings containing "icon"; on dicts and falsy results it agrees with HandlePoiResult |
| Markers.StringMentioningIconCrashes | overviewer_core/aux_files/genPOI.py:291-292 | for a positioned POI and result "my icon", the code as written raises TypeError while the corrected function yields a record with that text |
| Dimensions.MatchMyst | overviewer_core/aux_files/genPOI.py:64 | a match means the tag is "DIM_MYST", a nonempty run of ASCII digits d and at most one trailing newline, and the match's value is d's value |
| Dimensions.MatchMystComplete | overviewer_core/aux_files/genPOI.py:64-66 | every such tag matches, with its digits' value |
| Dimensions.ResolveDimension | overviewer_core/aux_files/genPOI.py:57-68 | the table gives None→0, "DIM-1"→-1, "DIM1"→1; resolution succeeds iff the tag is one of those or "DIM_MYST" + digits d (optionally + one newline), which gives d's value; every other tag is the re-raised KeyError; only "DIM-1" gives a negative value |
| Dimensions.MystTag | overviewer_core/aux_files/genPOI.py:64-66 | "DIM_MYST" followed by a nonempty digit string resolves to the digits' value |
| Dimensions.MystTagNewline | overviewer_core/aux_files/genPOI.py:64-66 | the same tag followed by one newline resolves to the same value |
| Dimensions.MystDimension | overviewer_core/aux_files/genPOI.py:64-66 | "DIM_MYST" + the numeral of n resolves to n, with or without one trailing newline |
| Dimensions.MystLeadingZero | overviewer_core/aux_files/genPOI.py:66 | a leading zero in the digits is ignored |
| Dimensions.OverworldTags | overviewer_core/aux_files/genPOI.py:59-66 | a tag that resolves to 0 is None or "DIM_MYST" + digits d (optionally + one newline) where every digit of d is '0' |
| Players.DatFiles | overviewer_core/aux_files/genPOI.py:77 | the kept files are exactly the listed ones whose names end in ".dat", and no more of them than were listed |
| Players.DatFilesOne | overviewer_core/aux_files/genPOI.py:77 | one listed file is kept iff its name ends in ".dat" |
| Players.DatFilesAppend | overviewer_core/aux_files/genPOI.py:77 | filtering a concatenated listing concatenates the filtered parts; with DatFilesOne, the kept files are the ".dat" files in listing order, once each |
| Players.PlayerFiles | overviewer_core/aux_files/genPOI.py:75-82 | a single-player world visits only level.dat; otherwise the files are DatFiles of the listing: the listed ".dat" files in order |
| Players.PlayerData | overviewer_core/aux_files/genPOI.py:85-88 | an unreadable file gives nothing; a player file's data is its root; level.dat's is `root["Data"]["Player"]`, which exists iff both levels are dicts with those keys, and otherwise is a KeyError or TypeError |
| Players.BaseName | overviewer_core/aux_files/genPOI.py:92 | `split(".")[0]` is the prefix of the file name up to its first dot and contains no dot |
| Players.PlayerName | overviewer_core/aux_files/genPOI.py:92-102 | single-player worlds always use "Player"; legacy files and malformed lookups use the base name; a lookup profile gives its "name" when it has one and else the base name; only an unreachable lookup service fails |
| Players.PosCoord | overviewer_core/aux_files/genPOI.py:107-109 | `int(data["Pos"][i])` succeeds iff data is a dict with Pos, Pos has an item i and `int()` accepts it, and is `int()` of that item |
| Players.LastPosition | overviewer_core/aux_files/genPOI.py:103-110 | a Player record is emitted iff the stored Dimension equals the resolved one; it is the player data with id "Player", the player's name and x/y/z the truncated Pos entries |
| Players.PlayerRecord | overviewer_core/aux_files/genPOI.py:105-109 | the Player record is the player data plus id "Player", the name and x/y/z; every other key keeps its value |
| Players.SpawnPoint | overviewer_core/aux_files/genPOI.py:111-118 | a PlayerSpawn record at SpawnX/Y/Z is emitted iff SpawnX is present and the dimension is 0 |
| Players.PlayerRecords | overviewer_core/aux_files/genPOI.py:103-118 | a player file yields records only when its data is a dict with a Dimension, and at most two of them |
| Players.FileRecords | overviewer_core/aux_files/genPOI.py:84-118 | an unreadable file contributes nothing; a readable file in a UUID directory with an unreachable lookup service aborts with the network error; a file contributes at most two records |
| Players.AllRecords | overviewer_core/aux_files/genPOI.py:84-118 | all player files together yield at most two records per file |
| Players.PlayerRecordsRule | overviewer_core/aux_files/genPOI.py:103-118 | it yields a Player record iff the stored Dimension equals the requested one, and a PlayerSpawn record iff SpawnX is present and the dimension is 0, each independently of the other; every record carries the player's name, and the Player record keeps the stored Dimension |
| Players.JoinRecords | overviewer_core/aux_files/genPOI.py:103-118 | chaining the position record before the spawn record keeps which kinds are present and what each record carries |
| Players.PlayerRecordKeys | overviewer_core/aux_files/genPOI.py:103-110 | the position record is a Player with the player's name that keeps the stored Dimension |
| Players.AllRecordsSound | overviewer_core/aux_files/genPOI.py:84-118 | every yielded POI is a Player whose Dimension matches or a PlayerSpawn of dimension 0; in single-player worlds every EntityId is "Player" |
| Players.AllRecordsCons | overviewer_core/aux_files/genPOI.py:84-118 | the players' POIs are the first file's records followed by the rest |
| Players.AllRecordsStep | overviewer_core/aux_files/genPOI.py:84-118 | one more player file either aborts the loop with its error or adds its records after those collected so far |
| Players.UnreadableFileSkipped | overviewer_core/aux_files/genPOI.py:85-91 | an unreadable player file contributes nothing: the output equals that of the listing without it |
| Players.CollectPlayerPois | overviewer_core/aux_files/genPOI.py:84-118 | the loop over player files yields exactly AllRecords |
| Players.IterPlayerPois | overviewer_core/aux_files/genPOI.py:55-118 | the dimension error is raised before anything else; otherwise the result is AllRecords over the .dat files of the player directory, or over level.dat for a single-player world; it is PlayerPois |
| Players.PlayerPois | overviewer_core/aux_files/genPOI.py:55-118 | what the generator yields: the dimension error first; on success only Player records and, when the dimension is 0, PlayerSpawn records |
| Entities.ChunkYield | overviewer_core/aux_files/genPOI.py:47-53 | a chunk yields a prefix of its tile entities followed by its entities: all of them when it is not corrupt, else the first min(k, all) where corruption was signalled at item k |
| Entities.EntitiesOf | overviewer_core/aux_files/genPOI.py:43-53 | as written: the scan succeeds iff every chunk loads; a chunk that fails to load is the CorruptChunk error |
| Entities.CorruptCoords | overviewer_core/aux_files/genPOI.py:52-53 | at most one warning per chunk |
| Entities.EntitiesSound | overviewer_core/aux_files/genPOI.py:43-53 | every yielded POI is a tile entity or an entity of some chunk |
| Entities.CorruptChunkSkipped | overviewer_core/aux_files/genPOI.py:52-53 | a chunk corrupt from the start contributes no POI and exactly one warning with its coordinates |
| Entities.CorruptChunkYieldsNothing | overviewer_core/aux_files/genPOI.py:47-53 | a chunk corrupt from the start leaves the scan's POIs as they would be without it |
| Entities.EntitiesStep | overviewer_core/aux_files/genPOI.py:45-51 | a decoded chunk contributes its yield before the rest of the scan |
| Entities.CorruptCoordsStep | overviewer_core/aux_files/genPOI.py:52-53 | one more chunk adds its coordinates to the warnings iff it is decoded and corrupt |
| Entities.CorruptCoordsAppend | overviewer_core/aux_files/genPOI.py:45-53 | the warnings for two runs of chunks are the two lists of warnings in order |
| Entities.IterEntities | overviewer_core/aux_files/genPOI.py:43-53 | as written, the generator loop yields EntitiesOf(chunks), in chunk order, and logs CorruptCoords(chunks) |
| Entities.ScanWarnings | overviewer_core/aux_files/genPOI.py:45-53 | with the load inside the `try`: at most one warning per chunk |
| Entities.ScanAgrees | overviewer_core/aux_files/genPOI.py:43-53 | where every chunk loads, the corrected scan yields what the scan as written does, with the same warnings |
| Entities.ScanSound | overviewer_core/aux_files/genPOI.py:43-53 | every POI of the corrected scan is a tile entity or an entity of some decoded chunk |
| Entities.ScanOfAppend | overviewer_core/aux_files/genPOI.py:45-51 | the corrected scan of two runs of chunks is the two scans in order |
| Entities.ScanWarningsAppend | overviewer_core/aux_files/genPOI.py:52-53 | so are its warnings |
| Entities.LoadFailedSkipped | overviewer_core/aux_files/genPOI.py:45-53 | with the load inside the `try`, a chunk that fails to load contributes no POI and exactly one warning with its coordinates |
| Entities.LoadFailedYieldsNothing | overviewer_core/aux_files/genPOI.py:45-53 | such a chunk leaves the POIs as they would be without it |
| Entities.LoadFailedWarns | overviewer_core/aux_files/genPOI.py:52-53 | and adds its coordinates to the warnings at its place |
| Entities.LoadFailureAborts | overviewer_core/aux_files/genPOI.py:45-53 | a decoded chunk with one POI p followed by a chunk that fails to load: as written the scan fails with CorruptChunk; the corrected scan yields [p] and warns about the second chunk |
| Entities.ScanEntities | overviewer_core/aux_files/genPOI.py:43-53 | the corrected generator loop yields exactly ScanOf(chunks) and logs exactly ScanWarnings(chunks) |
| Progress.Freq | overviewer_core/aux_files/genPOI.py:241-246 | freq is a multiple of 10 and at least 100 |
| Progress.FreqStep | overviewer_core/aux_files/genPOI.py:245-246 | after count c, freq becomes c exactly when c is ten times the previous freq |
| Progress.ReportsAtSchedule | overviewer_core/aux_files/genPOI.py:241-244 | `count % freq == 0` holds exactly at 100, 200, ..., 1000, 2000, ...: counts of at least 100 with one significant digit |
| Progress.ReportsUpTo | overviewer_core/aux_files/genPOI.py:241-244 | every logged count up to n lies in 1..n and is a report count |
| Progress.ReportsUpToMembers | overviewer_core/aux_files/genPOI.py:241-246 | the logged counts up to n are exactly the report counts in 1..n, strictly increasing |
| Progress.Tick | overviewer_core/aux_files/genPOI.py:242-246 | one POI handled: the count goes up by one, and freq and the logged counts are again Freq and ReportsUpTo of the new count |
| Progress.Schedule | overviewer_core/aux_files/genPOI.py:233-246 | the count/freq loop over n POIs logs exactly ReportsUpTo(n) |
| Progress.NotMultipleOfTen | overviewer_core/aux_files/genPOI.py:243 | a count that is not a multiple of ten never hits a freq that is |
| Progress.OneDigitUnderThousand | overviewer_core/aux_files/genPOI.py:241-244 | between 100 and 1000, one significant digit means a multiple of 100 |
| Aggregation.IndexEntryOf | overviewer_core/aux_files/genPOI.py:208-214 | the markers.js entry has the internal name, the display name, and icon, createInfoWindow and checked from the configuration, defaulting to "signpost_icon.png", True and False |
| Aggregation.InternalName | overviewer_core/aux_files/genPOI.py:207 | the marker set's internal name starts with its sanitized display name, is at least 7 characters longer, and contains no space or parenthesis |
| Aggregation.Collect | overviewer_core/aux_files/genPOI.py:218-221 | the seeded list holds at most one record per manual POI (success iff every filter call is handled is CollectFails) |
| Aggregation.CollectFails | overviewer_core/aux_files/genPOI.py:218-221 | seeding a list succeeds iff handle_poi_result succeeds on every manual POI |
| Aggregation.CollectCons | overviewer_core/aux_files/genPOI.py:218-221 | the seeded list is the first POI's record, if any, followed by the rest's list |
| Aggregation.CollectMembers | overviewer_core/aux_files/genPOI.py:218-221 | the seeded records are exactly the non-None results of handle_poi_result over the POIs |
| Aggregation.Append | overviewer_core/aux_files/genPOI.py:238-239 | appending a record changes only the named entry, and only by adding the record at the end of its raw list; no record, no change |
| Aggregation.ApplySets | overviewer_core/aux_files/genPOI.py:236-239 | one POI through all marker sets keeps the database's keys |
| Aggregation.ApplyPois | overviewer_core/aux_files/genPOI.py:235-239 | all POIs through all marker sets keep the database's keys |
| Aggregation.ApplySetsOk | overviewer_core/aux_files/genPOI.py:236-239 | one POI through all marker sets succeeds only if every set's filter result is handled without error |
| Aggregation.ApplySetsUntouched | overviewer_core/aux_files/genPOI.py:236-239 | one POI through the marker sets leaves every entry not named by a set unchanged |
| Aggregation.ApplySetsEffect | overviewer_core/aux_files/genPOI.py:236-239 | with distinct internal names, one POI appends to each set its own filter's record (if any) and changes no other entry |
| Aggregation.ApplyPoisCollects | overviewer_core/aux_files/genPOI.py:233-239 | with distinct internal names, each set's raw list is extended by exactly Collect(filter, pois), in POI order |
| Aggregation.RecordsFor | overviewer_core/aux_files/genPOI.py:236-239 | what one POI adds to an entry: at most one record per marker set, each the record of a set registered under that name |
| Aggregation.ApplySetsRecords | overviewer_core/aux_files/genPOI.py:236-239 | whatever the names, one POI extends the entry named n by one record per registration of n, in registration order, and keeps its other fields |
| Aggregation.ApplyPoisRecords | overviewer_core/aux_files/genPOI.py:233-239 | whatever the names, the regionset loop extends the entry named n by each POI's records for n, POI by POI |
| Aggregation.RegisteredTwice | overviewer_core/aux_files/genPOI.py:223-239 | a marker set registered twice for a regionset under the same name and filter receives each record twice |
| Aggregation.InternalNames | overviewer_core/aux_files/genPOI.py:206-207 | one internal name per marker set of the render, in order |
| Aggregation.SeedDb | overviewer_core/aux_files/genPOI.py:215-222 | seeding keeps the existing keys, adds every internal name of the render and no other name |
| Aggregation.SeedDbEntries | overviewer_core/aux_files/genPOI.py:215-222 | after seeding, a set whose name no later set reuses has created False, its display name and exactly its filter's records for the manual POIs |
| Aggregation.SeedDbOk | overviewer_core/aux_files/genPOI.py:215-222 | seeding succeeds only if every marker set's filter is handled on every manual POI |
| Aggregation.SeedDbUntouched | overviewer_core/aux_files/genPOI.py:215-222 | seeding leaves the entry of a name that no marker set uses unchanged |
| Aggregation.SeedDbStep | overviewer_core/aux_files/genPOI.py:215-222 | one seeding step binds the first name, or fails with the first filter's error |
| Aggregation.IndexEntries | overviewer_core/aux_files/genPOI.py:204-214 | markers.js gets one entry per marker set, in configuration order |
| Aggregation.SetRefs | overviewer_core/aux_files/genPOI.py:223-226 | the regionset gets one (internal name, filter) pair per marker set, in order |
| Aggregation.NamesInUpdate | overviewer_core/aux_files/genPOI.py:215-226 | registering a set together with its database entry keeps every registered set backed by an entry |
| Aggregation.NamesInGrow | overviewer_core/aux_files/genPOI.py:223-226 | adding database entries keeps the other regionsets' sets backed |
| Aggregation.RegionSetPois | overviewer_core/aux_files/genPOI.py:229-231 | a regionset's POIs are its entities followed by its players' POIs, or only the latter when the scan is skipped; an entity error comes first |
| Aggregation.SeedMarkerSets | overviewer_core/aux_files/genPOI.py:205-226 | the loop over marker sets fails iff SeedDb fails, with its error; otherwise it produces SeedDb's database, the index entries and the registrations in order, and every registered set has an entry |
| Aggregation.ApplyToPoi | overviewer_core/aux_files/genPOI.py:236-239 | the inner loop over marker sets fails iff ApplySets fails, with its error, and otherwise gives ApplySets' database |
| Aggregation.ApplyAll | overviewer_core/aux_files/genPOI.py:233-246 | the loop over POIs fails iff ApplyPois fails, with its error; otherwise it gives ApplyPois' database and logs at ReportsUpTo(number of POIs) |
| Aggregation.Aggregator.constructor | overviewer_core/aux_files/genPOI.py:204 | the maps start empty and the invariant holds |
| Aggregation.Aggregator.AddRender | overviewer_core/aux_files/genPOI.py:204-226 | for one render: markers[render] becomes its index entries; markersDB becomes SeedDb over the render's internal names; the regionset's list gains its sets; the invariant that every registered set has a database entry is kept; a failure leaves markers, markersDB and the registrations unchanged |
| Aggregation.Aggregator.AddMarkerSets | overviewer_core/aux_files/genPOI.py:205-226 | given the internal names, it stores exactly that and fails iff seeding fails; a failure leaves all three maps unchanged |
| Aggregation.Aggregator.ProcessRegionSet | overviewer_core/aux_files/genPOI.py:228-246 | the regionset's POIs are RegionSetPois of the corrected entity scan (ScanOf) and the player POIs; a player generator error aborts with markersDB unchanged; otherwise markersDB becomes exactly ApplyPois of the regionset's marker sets, failing iff ApplyPois fails, with its error; it leaves markers and the registrations unchanged, keeps the invariant, logs at ReportsUpTo(number of POIs) and warns exactly ScanWarnings(chunks) |

## Findings

| source | as written | input that shows it | evidently intended | confidence | as-written member | corrected member |
|---|---|---|---|---|---|---|
| overviewer_core/aux_files/genPOI.py:291-292 | `'icon' in filter_result` runs on every truthy result, so a str result is searched for the substring "icon" and then subscripted with a string; a bool, int or float result raises on the test itself | a POI with x, y and z whose filter returns the string "my icon" (a sign reading "my icon") raises TypeError | a record whose text and hover text are "my icon"; only a dict result carries its own icon | not executed | Markers.HandlePoiResultAsWritten, Markers.StringMentioningIconCrashes | Markers.HandlePoiResult |
| overviewer_core/aux_files/genPOI.py:45-53 | `rset.get_chunk(x, z)` is called before the `try`, so the `CorruptChunkError` handler never sees a chunk that fails to load, and the exception ends the whole run | a regionset whose first chunk holds one POI p and whose second chunk fails to load: the run aborts with CorruptChunkError | the POIs of the other chunks, here [p], and one warning "Ignoring POIs in corrupt chunk 1,0" | not executed | Entities.EntitiesOf, Entities.IterEntities, Entities.LoadFailureAborts | Entities.ScanEntities, Entities.ScanAgrees, Entities.LoadFailedSkipped |

## Left out

- File, NBT and JSON I/O are not modelled: `nbt.load`, `os.listdir`, `os.path.isdir`, `open` and `json.dump`. Player files, level.dat and chunk contents are inputs.
- The network is not modelled. The Mojang UUID lookup's outcome is an input per player file: a profile, a malformed answer (ValueError) or an unreachable service.
- Regionset and world internals are foreign code: `iterate_chunks`, `get_chunk` and `get_type`. Their outputs are inputs: the chunk sequence with each chunk's read outcome, and the type tag.
- The concrete values of `hash(filter)` and `hash(regionset)` depend on the interpreter. They are integer parameters; `hex()` and the slicing are modelled.
- Logging text is not modelled. The progress log is the sequence of counts at which it fires; the corrupt-chunk warnings are the chunks' coordinates.
- Command-line parsing, configuration loading, the world cache and the output files are not modelled. The render's marker definitions, manual POIs and regionset identity are inputs.
- The stale `rset` at line 229 is not modelled. For every regionset the world path comes from the last render's regionset. The model passes each regionset's player inputs directly, which matches the source only when all renders share one world.
- Filter functions are total Dafny functions from POI to value. A filter that raises is not modelled; a malformed result is, through handle_poi_result's error cases.
- Generator laziness and interleaving are not modelled. Each generator is its whole output or the first error. When a run aborts, the class's fields keep their values from before the call. The source has by then already stored the entries and records before the error. The run ends there in both. When a filter fails on an early POI and the player generator fails later, the source raises the filter's error and the model the generator's.
- Python 2 details are not modelled: subclasses of str, tuple and dict, and unicode versus byte strings. `int()` of a unicode string with non-ASCII digits or non-ASCII whitespace is a ValueError in the model.
- PyValue.ParseInt: a numeral too large for a machine int goes through Python 2's separate long parser, which the model does not distinguish; it gives such numerals the same answer as small ones.
- Aggregation.ApplyPoisCollects requires the marker sets of a regionset to have distinct internal names. Two renders of one regionset with the same marker definition register the same name twice. Aggregation.ApplyPoisRecords and Aggregation.RegisteredTwice state that case: every record is appended once per registration.
- Aggregation.SeedDbEntries describes only sets whose name no later set of the render reuses. A reused name keeps the later set's seed, which the lemma leaves implicit.
- A filter that changes the POI dict in place is not modelled. A filter is a function from POI to value. So every marker set's filter, and handle_poi_result's icon and createInfoWindow lookups (lines 293-296), see the POI as the generator produced it. In the source they see the changes of earlier filters, and a later render's seeding sees changes made to its manual POIs.
- Aggregation.ApplySetsEffect, Aggregation.ApplyPoisCollects, Aggregation.ApplyPoisRecords and Aggregation.SeedDbEntries hold for filters that leave the POI unchanged, which is the only kind the model has.
- The aggregation calls the corrected Markers.HandlePoiResult. The TypeError of lines 291-292 therefore never arises in the modelled `main`; Markers.HandlePoiResultAsWritten keeps the behaviour as written.
- Players.IterPlayerPois takes the kind of player directory (playerdata, players or none) as an input, instead of probing the file system.
