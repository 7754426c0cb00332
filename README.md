# py_dwd_weather core in Dafny

This project models the logic of `main.py` of py_dwd_weather. That module finds the
nearest Deutscher Wetterdienst (DWD) weather station and extracts its MOSMIX forecast into
a table. The model covers five pieces of `main.py`:

- **Cardinal lookup** (`Cardinal`): the 17-row compass table and the first-match search
  that turns a wind angle into a sector. Angles are a small float datatype with NaN and the
  infinities.
- **Text clean-up** (`Text`): the inline `replace('\n', '')`, `replace('  ', ' ')`,
  `strip()` expression.
- **Station registry** (`StationLocator`): fixed-width parsing of a registry line, and the
  running-best loop that finds the nearest station.
- **Parameter catalog** (`ParameterCatalog`): the lookup of a parameter code in the
  element-definition document. It is a class whose `cache` field holds the document once
  fetched, and it has the quoted-code fallback.
- **MOSMIX extraction** (`Mosmix`, with `Table` and `Units`), in stages:
  - dataset selection;
  - ProductDefinition metadata;
  - the time axis;
  - the station's placemark;
  - the forecast columns and their descriptors;
  - the `_wcd` wind-direction column;
  - the optional Pa→hPa and K→°C conversion;
  - the summary fields.

Support modules:

- `Wrappers`: Option and Result (an `Err` stands for a Python exception that propagates).
  It also has `FoldResult`, a left-to-right loop whose body may fail.
- `Strings`: Python slicing, `split()` and string ordering.
- `Xml`: the parsed document as an element tree. A preorder walk stands in for the XPath
  queries and for `itersiblings()`.

`Table` holds the pandas DataFrame: an ordered list of named columns over an index length.
Its rules follow pandas:

- assigning a column of the wrong length fails;
- assigning a non-empty column to an empty index gives the index that length;
- reading a missing column is a KeyError.

The loops of the source are methods with invariants:

- `FindNearest`, `Catalog.Describe` / `CollectFields` / `GatherMatches`;
- `ReadMetadata`, `ReadTimeAxis`, `FindStation`;
- `ScanSiblings` / `ScanForecasts` / `ScanValues`;
- `ConvertUnits`, `GetMosmixData`.

Each method is proved equal to a function, and the properties are lemmas about those
functions.

The collaborators are parameters:

- `load` is the download, unzip and parse of a bundle.
- `fetched` is the download and parse of the catalog document. It is the same answer on
  every attempt.
- `parseFloat` is Python's `float()`.
- `dist` is the haversine distance to the query point.
- `nextUpdate` is the strptime/strftime next-update computation.

## Model

| member | source | states |
|---|---|---|
| Cardinal.FirstRow | main.py:77-79 | the index of the first row at or after `from` whose interval `[Azimuth2, Azimuth3)` holds the angle; no earlier row holds it; the table length when none does |
| Cardinal.LookupIsFirstMatch | main.py:75-80 | the lookup returns the first row whose half-open interval holds the angle, and the empty sector exactly when no row does |
| Cardinal.NonFiniteHasNoSector | main.py:78-80 | NaN and the infinities give the empty sector |
| Cardinal.OutOfRangeHasNoSector | main.py:37-38 | negative angles and angles from 360 on, 360 itself included, give the empty sector |
| Cardinal.GapHasNoSector | main.py:21-37 | an angle between one row's upper bound and the next row's lower bound, such as 11.25 ≤ a < 11.26, gives the empty sector |
| Cardinal.TableOrdered | main.py:20-38 | every row is a non-empty interval and each row ends no later than any later row starts |
| Cardinal.ExactlyOneSector | main.py:75-79 | for 0 ≤ a < 360 outside the gaps exactly one row holds a, and the lookup returns it |
| Cardinal.LowerBoundSelectsRow | main.py:78 | each row's lower bound is looked up to that row: the lower bound is inclusive |
| Cardinal.NoSectorLabel | main.py:225 | the `_wcd` text of the empty sector is " ()" |
| Text.NormalizeIsClean | main.py:63 | the clean-up leaves no newline and no whitespace at either end, is never longer than its input and uses only characters of the input |
| Text.HalveRun | main.py:176 | after newline removal a run of k spaces becomes ⌈k/2⌉ spaces |
| Text.HalveRunBefore | main.py:66 | a run of k spaces inside a text becomes ⌈k/2⌉ spaces and the rest is cleaned afresh |
| Text.NotIdempotent | main.py:63 | cleaning "a    b" gives "a  b", and cleaning that again gives "a b" |
| Text.NormalizeFixesCleanText | main.py:176 | a text with no newline, no surrounding whitespace and no double space is unchanged |
| Strings.Slice | main.py:86-91 | Python slicing past the end is clamped: the length and every character of the stretch |
| Strings.Split | main.py:215 | `split()` with no argument; no contract of its own, stated by `Strings.SplitWord`, `Strings.SplitAllSpace`, `Strings.SplitAround`, `Strings.SplitTokens` and `Strings.SplitKeepsNonSpace` |
| Strings.SplitTokens | main.py:215 | the tokens of `split()` are non-empty and contain no whitespace |
| Strings.SplitKeepsNonSpace | main.py:215 | gluing the tokens back together gives the text without its whitespace |
| Strings.SplitWord | main.py:215 | a non-empty text without whitespace is a single token, itself |
| Strings.SplitAllSpace | main.py:215 | a text of whitespace alone gives no token |
| Strings.SplitAround | main.py:215 | a whitespace character separates: the tokens of the text around it are those of the left part followed by those of the right part |
| Strings.WordAppend | main.py:215 | a token ends at the first whitespace, whatever follows it |
| StationLocator.ParseStation | main.py:85-91 | id, ISAO code and name are the slices [0:5], [6:10], [11:31]; latitude, longitude and elevation are `float()` of [32:37], [39:46], [47:54], and each is missing once an earlier one failed |
| StationLocator.StationsFromDigitLines | main.py:133-134 | every station comes from a line starting with a digit, and its id is the first five characters of that line |
| StationLocator.FindNearest | main.py:121-147 | "no station found" exactly when no line starts with a digit; an error exactly when a station after the first lacks coordinates; otherwise the first station, unmeasured at 999999, unless a later station is strictly nearer, in which case the earliest nearest later station and its distance |
| StationLocator.ScanKeep | main.py:139-140 | a later station that is not strictly nearer keeps the best so far |
| StationLocator.ScanImprove | main.py:140-142 | a strictly nearer later station becomes the best, with its distance |
| StationLocator.NearestIsUnique | main.py:135-142 | any two answers meeting this promise are equal, so the promise fixes the result |
| StationLocator.SingleStationIsUnmeasured | main.py:135-137 | with a single station, that station is the answer at distance 999999 |
| ParameterCatalog.MatchesIn | main.py:61 | every match is a `ShortName` element whose text is the code, and there is none exactly when no element is one |
| ParameterCatalog.MatchesInCounts | main.py:61 | every matching node is among the matches as often as it occurs in the document, and nothing else is |
| ParameterCatalog.MatchesInOrder | main.py:61 | the matches keep document order: they are a subsequence of the walk |
| ParameterCatalog.Loaded | main.py:56-59 | a cached document is kept; an empty cache is filled exactly when the fetch succeeds, and then holds the fetched document |
| ParameterCatalog.LoadedIsStable | main.py:56 | a second lookup sees the document the first one loaded |
| ParameterCatalog.Catalog.constructor | main.py:47 | the cache starts empty and nothing has been fetched |
| ParameterCatalog.Catalog.Describe | main.py:49-73 | fetches only while the cache is empty; then the cache holds the fetched document if the fetch succeeded; the answer is the descriptor found in the cached document, or the fallback; no error escapes |
| ParameterCatalog.CollectFields | main.py:61-72 | the lookup over a document in hand computes `Collect` |
| ParameterCatalog.GatherMatches | main.py:61-66 | the two gathering loops, an exception ending both, compute `GatherAll` |
| ParameterCatalog.TwoLookups | main.py:56-59 | after a first lookup whose fetch succeeds, a second lookup answers from the same document even when its own fetch would fail |
| ParameterCatalog.FallbackWithoutMatch | main.py:71-72 | the result is `{ShortName: "code" in quotes, UnitOfMeasurement: "-", Description: ""}` when no `ShortName` text equals the code; a match was seen exactly when one exists, and then the result has a `ShortName` field |
| ParameterCatalog.FoundFieldsAreClean | main.py:63-66 | every field of a found descriptor is cleaned text |
| ParameterCatalog.LastSiblingWins | main.py:65-66 | a field holds the cleaned text of the last following sibling with that name |
| ParameterCatalog.LastMatchWins | main.py:61-66 | the siblings of the last match overwrite what earlier matches wrote |
| ParameterCatalog.CopySiblingsKeys | main.py:65-66 | copying the siblings of a match without a missing text adds exactly their local names as fields, and a field no sibling names keeps its value |
| ParameterCatalog.GatherAllKeys | main.py:61-66 | without a missing text, the gathered fields are `ShortName` and the local names of the matches' following siblings, and `ShortName` is the cleaned code unless such a sibling is itself named `ShortName` |
| ParameterCatalog.CollectKeys | main.py:61-72 | a lookup that finds the code and meets no missing text yields exactly the fields `ShortName` and the local names of the matches' following siblings; `ShortName` is the cleaned code when no such sibling is named `ShortName` |
| Xml.FindFirst | main.py:175 | the first element below the root, in document order, with the local name, or none when no element has it |
| Xml.WalkVisitsForest | main.py:202 | every root-level element of the forest is met together with exactly the siblings after it (`itersiblings()`) |
| Xml.WalkIsAllPairs | main.py:202 | at any depth, the walk meets each element of every list of siblings exactly once, together with exactly the siblings after it: it is a reordering of those pairs |
| Table.Get | main.py:226 | reading a column fails with a KeyError exactly when the name is absent, and otherwise yields that column |
| Table.AssignFacts | main.py:214 | assignment fails exactly on a length the index rejects; it keeps the table valid, stores the column, and keeps every other column in place, padded when an empty index takes the new length |
| Table.AssignExtends | main.py:188 | assignment loses no column and the assigned name is then present |
| Table.AssignNames | main.py:214 | a successful assignment adds its name to the column names and no other |
| Table.PutNames | main.py:214 | storing a column of the right length adds its name to the column names and no other |
| Table.ParseColumnFacts | main.py:214-215 | one cell per token, each classified on its own; parsing fails exactly on a digit-led token that `float()` rejects |
| Table.ClassifyCases | main.py:215 | a digit-led token becomes its number, "-" becomes missing, anything else stays text, so "-3.5" stays text |
| Table.WindLabelsFacts | main.py:224-226 | fails exactly when `DD` holds text; otherwise one cell per `DD` cell: "Name (Bearing)" of its sector for a number, missing for a missing value |
| Table.MapNumbers | main.py:232 | numbers are converted, other cells kept, length kept |
| Units.ConvertUnits | main.py:228-236 | the in-place loop over the descriptors computes `ConvertAll`, the pressure test then the temperature test on each descriptor |
| Units.ConvertKeepsShape | main.py:232-235 | whatever the flags, conversion keeps the table valid, its length and its column names |
| Units.ConvertOneSingle | main.py:231-235 | with one flag, a descriptor with unit Pa (or K without an `E_` code) converts its column; any other leaves the table alone |
| Units.ConvertedPerListing | main.py:230-236 | with one flag, every column is converted once per descriptor that lists it, so a code listed twice is converted twice; other cells and the length are kept |
| Units.DescriptorsRelabelled | main.py:233-236 | the descriptor list keeps its length and each descriptor is relabelled hPa or °C as the tests prescribe, nothing else |
| Units.ConversionExamples | main.py:232-235 | 101325 Pa is 1013.25 hPa, and 10.1325 when converted twice; 273.15 K is 0 °C |
| Mosmix.SelectDataset | main.py:155-162 | "S" gives MOSMIX_S with interval "60" and the fixed URL; anything else gives MOSMIX_L with interval "360" and the URL naming the station twice |
| Mosmix.ReadMetadata | main.py:175-181 | the metadata loop computes the fold of `MetadataStep` over the ProductDefinition children, with its three errors |
| Mosmix.MetadataKeys | main.py:176 | no key is lost and every child's local name becomes a key |
| Mosmix.MetadataNextUpdate | main.py:177-181 | an IssueTime child yields `next_update`; for the last IssueTime child with no later child named `next_update` or `interval`, `next_update` is the next-update time of its cleaned text and the final `interval` |
| Mosmix.MetadataClean | main.py:176 | a child not named `next_update` that no later child shares its name with has a text, and its entry is that text cleaned |
| Mosmix.ReadTimeAxis | main.py:184-186 | one cell per ForecastTimeSteps child, its text, in order |
| Mosmix.StationNode | main.py:192-195 | the first `name` element in document order whose text is the id; none exactly when there is none |
| Mosmix.FindStation | main.py:191-195 | the loop with its `break` finds `StationNode` |
| Mosmix.ScanValues | main.py:212-216 | the loop over a Forecast node's children computes the fold of `ValueStep`, asking the catalog once per `value` child |
| Mosmix.ScanForecasts | main.py:207-218 | the loop over an ExtendedData sibling's children computes the fold of `ForecastStep` |
| Mosmix.ScanSiblings | main.py:202-218 | the loop over the siblings after the placemark's `name` computes the fold of `SiblingStep`, and the catalog's document is the same before and after |
| Mosmix.ValueCodesAll | main.py:212-216 | a Forecast node contributes only its own code, once per `value` child, duplicates kept |
| Mosmix.ForecastCodesOrigin | main.py:208-211 | a code comes only from a Forecast node with a first attribute whose value is non-empty, and is that value |
| Mosmix.SiblingDescriptors | main.py:216 | the descriptors are the catalog's answers for the discovered codes, in discovery order |
| Mosmix.SiblingDescription | main.py:203-204 | the description is the text of the last sibling whose name ends in "description" |
| Mosmix.SiblingNoDescription | main.py:203-204 | without such a sibling the description keeps its initial value (unset) |
| Mosmix.SiblingsExtend | main.py:214 | the sibling scan keeps the table valid and loses no column |
| Mosmix.WriteCodes | main.py:207-216 | the assignments of the scan carry exactly the discovered codes, in order: one per `value` child of a qualifying Forecast node |
| Mosmix.ValueStepWrites | main.py:212-215 | a `value` child adds its code to the column names; on a table with rows it stores the classified tokens of its text under the code, which then has one cell per row |
| Mosmix.ForecastStepWrites | main.py:207-215 | a Forecast node adds the codes of its `value` children to the column names; on a table with rows it performs their assignments in order, each fitting the table |
| Mosmix.SiblingStepWrites | main.py:202-215 | an ExtendedData sibling adds the codes of its Forecast nodes to the column names; on a table with rows it performs their assignments in order; any other sibling leaves the table alone |
| Mosmix.ValueWritesApply | main.py:212-215 | a Forecast node's `value` children, one after another, add their codes to the names and on a table with rows perform their assignments in order |
| Mosmix.ForecastWritesApply | main.py:207-215 | an ExtendedData element's children, one after another, add their codes to the names and on a table with rows perform their assignments in order |
| Mosmix.SiblingWritesApply | main.py:202-215 | the siblings, one after another, add their codes to the names and on a table with rows perform their assignments in order, each fitting the table |
| Mosmix.LastIndex | main.py:214 | the position of the last assignment to a column, with none after it, or -1 when none targets it |
| Mosmix.LastWrite | main.py:214 | the last assignment to a column: none exactly when no assignment targets it; otherwise one targeting it with none after it |
| Mosmix.ReadWrites | main.py:214 | after assignments that fit, a column holds what the last assignment to it stored, and a column nobody assigned is unchanged |
| Mosmix.AddNames | main.py:214 | after assignments, the column names are the earlier names and the assigned codes |
| Mosmix.MinText | main.py:239 | the smallest text of the column by Python string order; none exactly when it has no text |
| Mosmix.MaxText | main.py:240 | the largest text of the column by Python string order; none exactly when it has no text |
| Mosmix.MinNumber | main.py:239 | the smallest number of the column; none exactly when it has no number |
| Mosmix.MaxNumber | main.py:240 | the largest number of the column; none exactly when it has no number |
| Mosmix.ColumnMin | main.py:239 | `Series.min()`: raises exactly when text stands beside a number or a missing value; a column of text gives its smallest text; a column without text gives its smallest number, or a missing value exactly when it has no number |
| Mosmix.ColumnMax | main.py:240 | `Series.max()` by the same rules, with the largest text or number |
| Mosmix.ColumnMinExamples | main.py:239 | a time axis with a text-less step beside a timestamp raises; numbers with gaps give the smallest number; an all-missing column gives a missing value |
| Mosmix.GetMosmixData | main.py:150-243 | the extraction computes `Extract` over the catalog's document, and the document stays loaded |
| Mosmix.ExtractDownload | main.py:164-171 | a failed download is the result; otherwise the downloaded bundle is processed |
| Mosmix.HeaderFacts | main.py:174-188 | the metadata holds `dataset`, `interval` and every ProductDefinition child; the table is the time axis alone, one row per time step |
| Mosmix.StationErrors | main.py:220-221 | the station stage reports a missing station exactly when no `name` element carries the id, and names that id |
| Mosmix.StationFacts | main.py:199-218 | after the station stage the table has only gained columns and the descriptors are those of the discovered codes |
| Mosmix.StationColumns | main.py:199-218 | after the station stage the columns are exactly the time axis's and the discovered codes; when there is a time step, each code holds the classified tokens of the text of the last `value` child carrying it, which parses, and the other columns are unchanged |
| Mosmix.FinishWithoutDirection | main.py:226 | a table without a `DD` column raises the KeyError |
| Mosmix.WindColumn | main.py:224-226 | the `_wcd` assignment keeps the table valid and as long, keeps `DD` and stores `_wcd` |
| Mosmix.FinishFacts | main.py:223-236 | finishing keeps every column and the length, adds `_wcd` and relabels every descriptor; without conversion `_wcd` holds the labels of `DD` |
| Mosmix.FinishKeepsOthers | main.py:224-226 | without conversion, finishing changes no column but `_wcd` |
| Mosmix.ProcessFacts | main.py:200-241 | a result names the station, counts the rows of a valid table holding `time`, `DD` and `_wcd`, carries `dataset`, `interval` and every ProductDefinition entry, and has one row per time step when there is one |
| Mosmix.ProcessDates | main.py:239-240 | `date_from` and `date_to` are `Series.min()` and `Series.max()` of the returned `time` column, and neither raised |
| Mosmix.ProcessParameters | main.py:242 | `parameter` has one descriptor per discovered code, in order: the catalog's descriptor, relabelled by the conversion |
| Mosmix.ProcessColumns | main.py:199-241 | `data` has a column for every discovered code; with a time step and no conversion, each code but `_wcd` holds the classified tokens of the text of the last `value` child carrying it |
| Mosmix.CodesWritten | main.py:214 | every discovered code is assigned at least once |
| Mosmix.ProcessDescription | main.py:204 | `description` is the text of the last description sibling, and absent when there is none |
| Mosmix.ProcessStationNotFound | main.py:220-221 | once the header is read, a bundle without a matching `name` element raises "station id not found" |
| Mosmix.OnlyMissingStation | main.py:191-221 | the missing-station error arises in no other way |
| Cardinal.SectorOf | main.py:75-80 | the lookup itself; no contract of its own, its meaning is stated by `Cardinal.LookupIsFirstMatch` and `Cardinal.ExactlyOneSector` |
| Text.Normalize | main.py:63 | the clean-up expression; no contract of its own, stated by `Text.NormalizeIsClean` and `Text.HalveRun` |
| Table.Classify | main.py:215 | one token of the comprehension; no contract of its own, stated by `Table.ClassifyCases` |
| Table.ParseColumn | main.py:214-215 | the comprehension over `split()`; no contract of its own, stated by `Table.ParseColumnFacts` |
| Table.WindLabels | main.py:224-226 | the `_wcd` comprehension; no contract of its own, stated by `Table.WindLabelsFacts` |
| Table.Assign | main.py:214 | `dataframe[key] = list`; no contract of its own, stated by `Table.AssignFacts` and `Table.AssignExtends` |
| StationLocator.Stations | main.py:130-134 | the stations of the digit-led lines, in order; never more stations than lines; stated further by `StationLocator.StationsFromDigitLines` |
| StationLocator.Distance | main.py:139 | the haversine distance of a station with coordinates; no contract of its own, `dist` stands for the formula |
| ParameterCatalog.Collect | main.py:61-72 | the lookup over a document; no contract of its own, stated by `ParameterCatalog.FallbackWithoutMatch`, `ParameterCatalog.CollectKeys`, `ParameterCatalog.LastMatchWins` and `ParameterCatalog.FoundFieldsAreClean` |
| ParameterCatalog.DescriptorFor | main.py:55-73 | the answer with or without a document; no contract of its own, computed by `ParameterCatalog.Catalog.Describe` |
| Units.ConvertOne | main.py:231-236 | one descriptor of the conversion loop; no contract of its own, stated by `Units.ConvertOneSingle` |
| Units.ConvertAll | main.py:230-236 | the conversion loop; no contract of its own, stated by `Units.ConvertKeepsShape` and `Units.ConvertedPerListing` |
| Units.Relabel | main.py:233-236 | the unit relabelling of one descriptor; no contract of its own, stated by `Units.DescriptorsRelabelled` |
| Mosmix.MetadataStep | main.py:175-181 | one ProductDefinition child; no contract of its own, stated by `Mosmix.MetadataKeys`, `Mosmix.MetadataClean` and `Mosmix.MetadataNextUpdate` (the value `next_update` gets) |
| Mosmix.ForecastCode | main.py:208-211 | the parameter code of a Forecast node; no contract of its own, stated by `Mosmix.ForecastCodesOrigin` |
| Mosmix.ValueStep | main.py:212-216 | one `value` child; no contract of its own, stated by `Mosmix.ValueStepWrites` (the column it stores), `Mosmix.ValueCodesAll` and `Mosmix.SiblingDescriptors` |
| Mosmix.ForecastStep | main.py:207-218 | one child of ExtendedData; no contract of its own, stated by `Mosmix.ForecastStepWrites` (the columns it stores) and `Mosmix.ForecastCodesOrigin` |
| Mosmix.SiblingStep | main.py:202-218 | one sibling of the placemark's `name`; no contract of its own, stated by `Mosmix.SiblingStepWrites` (the columns it stores), `Mosmix.SiblingDescription` and `Mosmix.SiblingDescriptors` |
| Mosmix.Header | main.py:174-188 | metadata and time axis; no contract of its own, stated by `Mosmix.HeaderFacts` |
| Mosmix.Station | main.py:190-221 | the station search and the sibling scan; no contract of its own, stated by `Mosmix.StationErrors`, `Mosmix.StationFacts` and `Mosmix.StationColumns` (the forecast columns) |
| Mosmix.Finish | main.py:223-236 | `_wcd` and the conversion; no contract of its own, stated by `Mosmix.FinishFacts` |
| Mosmix.Summary | main.py:238-243 | the summary entries; no contract of its own, stated by `Mosmix.ProcessFacts` and `Mosmix.ProcessDates` |
| Mosmix.Process | main.py:174-243 | everything after the download; no contract of its own, stated by the `Mosmix.Process…` lemmas, `Mosmix.ProcessColumns` for the forecast columns |
| Mosmix.Extract | main.py:150-243 | `get_mosmix_data`; no contract of its own, computed by `Mosmix.GetMosmixData` and stated by `Mosmix.ExtractDownload` |

## Left out

- The downloads, ZIP extraction and XML parsing (`urlopen`, `zipfile`, `etree.fromstring`). They are the `load` and `fetched` parameters. The catalog's fetch gives the same answer on every attempt.
- XML namespaces: elements are known by their local names, so `dwd:` and `kml:` prefixes are not checked.
- XPath texts: `text()="..."` compares the element's leading text only.
- A parameter code or a station id containing a double quote changes the XPath expression itself: an invalid expression raises, and a valid one may select other elements. The catalog swallows the exception and returns the fallback; in `get_mosmix_data` it escapes. The model reads the code and the id as plain text in both queries.
- The haversine formula and its floating-point trigonometry. They are the `dist` parameter.
- `float()` is the `parseFloat` parameter.
- `strptime`/`strftime` for `next_update` is the `nextUpdate` parameter. It yields None where `strptime` raises.
- Reals stand in for IEEE doubles: no rounding in `/ 100.0` or `- 273.15`.
- A digit-led token that `float()` turns into infinity (such as "1e999") is not modelled. Its sector would be the empty one.
- `\d` is taken as the ASCII digits.
- Windows-1252 decoding is not modelled. The registry is the sequence of lines `readline` returns before its end.
- Logging, `Station.__str__`, the `__main__` demonstration and the test scripts are not part of this model.
- pandas internals other than the column rules:
  - dtype coercion beyond what `Mosmix.ColumnMin` and `Mosmix.ColumnMax` need (None cells stay missing values, not NaN floats);
  - `np.isnan` raising on an all-None `DD` column of object dtype;
  - the `.copy()` defragmentation.
- The returned dict is a record in the model. A ProductDefinition child named like a later entry (`id`, `count`, `data`, ...) would be overwritten in the Python dict. The model keeps it apart in `meta`.
- Cardinal: the last row's nominal azimuth is 360, but its interval [348.76, 360) is half-open, so an angle of 360 gets the empty sector (`Cardinal.OutOfRangeHasNoSector`).
- Units.ConvertedPerListing: states the column values only when exactly one flag is set. With both flags set, only the shape (`Units.ConvertKeepsShape`) and the relabelling (`Units.DescriptorsRelabelled`) are proved.
- Mosmix.ProcessFacts: states `count` equals the number of time steps only when there is at least one. With none, the empty index takes the length of the first forecast column assigned.
- Mosmix.ProcessColumns: states the content of a forecast column only when there is at least one time step and no conversion. With no time step, the first non-empty `value` fixes the length and earlier columns are padded; with conversion, the values are as `Units.ConvertedPerListing` states. A code named `_wcd` is overwritten by the wind labels.
- Mosmix.StationColumns: states the content of a forecast column only for a table with rows, for the same reason.
- Comments and processing instructions are not part of the element tree. So three behaviours of the source are not modelled. First, `etree.QName` raises ValueError on such a node: the catalog swallows it and returns the fallback, and in `get_mosmix_data` it escapes. Second, `.tag.endswith` raises AttributeError on one, and that escapes. Third, a comment inside ForecastTimeSteps becomes one more time step.
- Mosmix.ProcessDates: relates the dates to the returned `time` column. A forecast parameter whose code is `time` replaces that column, so the dates are not stated as those of the time steps.
