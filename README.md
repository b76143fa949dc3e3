# TDMS slice conversion, modelled in Dafny

This project models the conversion of per-layer TDMS slice files into HDF5
containers. The storage libraries are abstracted: a TDMS file is a property
list plus named groups of channels, and an HDF5 file is a map of attributes,
slice nodes and datasets. The code's own logic around those library calls
(branches, lookups, loops, error order) is modelled as written; what the
abstraction leaves out is listed under "## Left out".

**Current converter, `tdms2h5` in `tdms2h5.py`.**
- `Discovery`: which listed paths are converted, using the search semantics of
  the pattern `Slice\d+.tdms$`, including its unescaped `.` and the `$` that
  also matches before a final newline. It also gives the slice number read
  from the stem with `Slice(\d+)`, and the node key `str(index)`.
- `Attributes`: the property loops. File-level `StartTime`/`EndTime` are
  renamed to `LayerStartTime`/`LayerEndTime` and group-level ones to
  `PartStartTime`/`PartEndTime`. Datetimes are stored as their text. The last
  write wins.
- `Container`: one container. It covers the stamps written when it is
  created, one dataset per channel copied unchanged, and the finalisation
  loop that builds the `Index` table and the `Vertices` total.
- `Run`: the whole call as functions of its inputs.
  - The file loop, the group filter and the registry of containers.
  - Finalisation of every container in creation order.
  - Closing every handle when the `ExitStack` block is left.
- `Converter`: the same call as a class whose fields are `h5_files` (with its
  insertion order) and `slice_indices`. The fields are updated in place by
  methods with loops, and each method is proved equal to its `Run` function.

**Legacy writers, `writeFilesCSV` and `writeFilesHDF5` in `src/WritingFiles.py`.**
- `LegacyBatch`: the shared batch loop.
  - Passes over the listing open one object per file until `numFiles` layers
    are open.
  - The accumulated objects are processed and released whenever the count
    of opened layers is a multiple of `batchSize` or equals `numFiles`.
  - The slice counter increases by one per processed object.
  - The function returns the count of opened layers.
- `LegacyColumns`:
  - the short names `str(ch).split("/")[-1].strip(">").strip("'")`;
  - the `names[0] in name` … `names[5] in name` dispatch into six columns;
  - the CSV data rows, where a row that some column is too short for is skipped.
- `LegacyProperties`: the ordered property dictionary. The code changes it in
  place and renames `StartTime`/`EndTime` by inserting the new keys and then
  deleting the old ones.
- `LegacyCsv` and `LegacyHdf5`: the part loops.
  - CSV file names built from the folder and the counter. The CSV writer
    finds a part's folder under `str(part)`, the group's text form (its
    `text` field), while the HDF5 writer uses `str(part.name)`; the model
    keeps the two keys apart.
  - HDF5 slice groups holding the renamed attributes and six datasets.
  - The working-directory string computed with `rfind("/")`.

Exceptions are modelled as an `Error` value that ends the loop that raised
it. Where the code leaves state behind before an exception (a group already
created, a directory already changed, a file already opened), the model
leaves it too.

**Where the model follows the code.**
- Finalisation (tdms2h5.py:87) is indented at the level of the file loop, so
  it runs inside the `with ExitStack()` block of tdms2h5.py:29. The
  containers are still open when it writes to them.
- The model tracks an open flag on every container. Writing to a closed one
  is an error (`Container.Finalise`). `Run.RunCloses` proves that a run never
  meets a closed container and that every container is closed when the call
  returns.
- The file version written is 2 (tdms2h5.py:12).
- The `Index` has two columns and its rows follow processing order, unsorted.
- `slice_indices` is appended before the group filter applies. Every
  container is therefore looked up for every selected slice, and a slice
  missing from a container fails finalisation (`Run.FinaliseAllMissingSlice`).

## Model

| member | source | states |
|---|---|---|
| Common.LastIndexOf | src/WritingFiles.py:318 | `rfind` gives -1 or a position holding the character, with none of it after |
| Common.AfterLast | src/WritingFiles.py:140-141 | `split(c)[-1]` is the longest suffix free of `c`, preceded by `c` unless it is the whole text |
| Common.NatToString | tdms2h5.py:57 | `str(n)` of a natural is non-empty, all digits, with no leading zero unless it is "0" |
| Common.IntToString | src/WritingFiles.py:170 | `str(i)` is non-empty and starts with '-' exactly when `i` is negative |
| Common.ParseOfNatToString | tdms2h5.py:40 | `int(str(n)) == n` |
| Common.ParseIgnoresLeadingZeros | tdms2h5.py:40 | leading zeros do not change `int(...)` of a digit run |
| Common.NatToStringOfParse | tdms2h5.py:40 | a canonical digit run is `str(int(ds))` |
| Common.CanonicalDecimal | tdms2h5.py:40 | `str(int(ds))` is `ds` without its leading zeros, or "0" when it is all zeros |
| Common.IntToStringInjective | src/WritingFiles.py:170 | two counters with the same decimal text are equal |
| Discovery.SelectsPathIsSearch | tdms2h5.py:26-34 | the file filter selects a path exactly when `Slice`, digits, one non-newline character and `tdms` end it, optionally before a final newline |
| Discovery.SelectsShape | tdms2h5.py:26 | `Slice` + digits + any non-newline character + `tdms` is selected, whatever precedes it |
| Discovery.UnescapedDot | tdms2h5.py:26 | the unescaped dot lets `Slice12tdms` through, with slice number 12 |
| Discovery.NoDigitsSkipped | tdms2h5.py:26 | `Slice.tdms` (no digits) is skipped |
| Discovery.Stem | tdms2h5.py:38-39 | `Path.stem` is the name or the part before its last dot |
| Discovery.FirstSliceRunLeftmost | tdms2h5.py:39 | the search finds the leftmost `Slice`+digit position, and nothing when there is none |
| Discovery.SliceDigitsAbsent | tdms2h5.py:39-40 | no slice number exactly when the stem has no `Slice` followed by a digit |
| Discovery.SliceDigitsLeftmost | tdms2h5.py:27 | the captured group is the whole digit run after the leftmost `Slice` followed by a digit |
| Discovery.SliceDigitsShape | tdms2h5.py:27 | for `Slice` + digits + a non-digit rest, the group is exactly those digits |
| Discovery.ConventionalPath | tdms2h5.py:24-40 | `dir/Slice<ds>.tdms` is selected and carries slice number `int(ds)` |
| Discovery.ZeroPaddedName | tdms2h5.py:40 | `Slice007` gives slice number 7 and node key "7" |
| Discovery.NodeKeyDropsLeadingZeros | tdms2h5.py:57 | the node key is the captured digits without leading zeros ("0" for all zeros) |
| Discovery.NodeKeyInjective | tdms2h5.py:57 | different slice numbers have different node keys |
| Attributes.WriteProperties | tdms2h5.py:61-69 | the property loop equals `WriteAll`: each property, renamed and converted, written in order |
| Attributes.WriteAllLookup | tdms2h5.py:61-81 | after the loop a key holds the value of the last property renamed to it, or its old value, and exists exactly then |
| Attributes.LastWrittenSome | tdms2h5.py:61-69 | every property lands under its renamed key |
| Attributes.LastWrittenFrom | tdms2h5.py:66-69 | a written value is the stored form (datetime as text, else unchanged) of a property renamed to that key |
| Attributes.LastPropertyWins | tdms2h5.py:61-69 | a property that no later property collides with is stored with its own value |
| Attributes.RenameKeyCases | tdms2h5.py:62-77 | `StartTime`/`EndTime` become `Layer*` at file level and `Part*` at group level; other keys are kept; a renaming never yields `StartTime`/`EndTime` |
| Attributes.NoTimesWritten | tdms2h5.py:61-81 | the renaming loops write no `StartTime`/`EndTime` key and store no datetime |
| Attributes.NeverRenamedTo | tdms2h5.py:62-65 | no property is renamed to `StartTime` or `EndTime` |
| Attributes.NodeAttributesLookup | tdms2h5.py:59-81 | a node's attributes are exactly the renamed file and group properties; on a shared key the group's value wins |
| Container.NewFile | tdms2h5.py:49-55 | a new container carries `Version`=2, `Slices.TDMS_GroupName`=group name, no node, no `Index`, and is open |
| Container.CopyChannelsSucceeds | tdms2h5.py:84-85 | copying the channels succeeds exactly when their names are distinct and new |
| Container.CopyChannelsContents | tdms2h5.py:84-85 | after copying, each channel is a dataset of its name holding its data unchanged, and no other dataset appears |
| Container.CreateDatasets | tdms2h5.py:83-85 | the channel loop equals `CopyChannels`: stops at the first existing name |
| Container.IntCell | tdms2h5.py:93 | an integer thickness is stored if it fits int64 and overflows otherwise |
| Container.BuildTable | tdms2h5.py:87-93 | a finished table has one row per listed slice; a failure is never a closed-handle error |
| Container.BuildTableRow | tdms2h5.py:90-93 | row `i` is `(slice_indices[i], thickness)` of slice `slice_indices[i]`: processing order, not sorted |
| Container.BuildTableOk | tdms2h5.py:90-93 | the loop succeeds exactly when every listed slice has its node, `X-Axis` and a storable `layerThickness` |
| Container.BuildTableFirstError | tdms2h5.py:90-93 | the error is the one of the first failing slice |
| Container.VerticesIsTotal | tdms2h5.py:88-91 | `Vertices` is the sum of the `X-Axis` sizes over the listed slices, counted once per listing |
| Container.MissingSliceFails | tdms2h5.py:91 | a listed slice without a node in the container makes finalisation fail |
| Container.IndexLoop | tdms2h5.py:88-93 | the indexed loop with `total_vertices` equals `BuildTable` |
| Container.PrefixErrorPropagates | tdms2h5.py:90-93 | an error over a prefix of the listing is the error of the whole loop |
| Container.Finalise | tdms2h5.py:87-95 | a failed finalisation leaves the container unchanged |
| Container.FinaliseEffect | tdms2h5.py:87-95 | a closed handle fails; success changes only `Vertices` (the `X-Axis` total) and `Index` (one row per listed slice, in order) |
| Run.WriteGroupSpec | tdms2h5.py:49-85 | writing a group never changes `slice_indices` and fails only on an existing node or dataset |
| Run.WriteGroupContainers | tdms2h5.py:50-56 | a container is created and stamped only on first encounter; later ones keep order, stamps and handle; other containers are untouched; an existing node is an error that changes nothing |
| Run.WriteGroupNodes | tdms2h5.py:56-85 | success exactly when the node is new and channel names distinct; only node `str(index)` appears, holding the renamed attributes and every channel's data |
| Run.WriteGroupsSpec | tdms2h5.py:45-47 | the group loop fails only on an existing node or dataset |
| Run.ConvertFileSpec | tdms2h5.py:34-41 | one file fails only on an existing node or dataset, or a missing slice number |
| Run.ConvertNumbered | tdms2h5.py:39-45 | a numbered path appends its number, then runs the group loop under key `str(index)` |
| Run.ConvertAllSpec | tdms2h5.py:34-85 | the file loop keeps the registry, the stamps, the open handles and the filter invariant |
| Run.FinaliseAllSpec | tdms2h5.py:87 | finalisation keeps the set of containers |
| Run.FinaliseAllStep | tdms2h5.py:87-95 | one container is finalised; an error stops the loop |
| Run.CloseAll | tdms2h5.py:29 | leaving the `ExitStack` closes every container and changes nothing else |
| Run.WriteGroupsInvariant | tdms2h5.py:45-56 | the group loop keeps the registry, stamps, open handles and filter invariant |
| Run.WriteGroupsIndices | tdms2h5.py:41-47 | the group loop leaves `slice_indices` alone |
| Run.WriteGroupsFrame | tdms2h5.py:45-57 | only selected groups get containers; excluded ones are untouched; nodes are only added, and only under the file's key |
| Run.WriteGroupsComplete | tdms2h5.py:45-57 | a successful group loop gives every selected group a container holding the file's node |
| Run.WriteGroupInvariant | tdms2h5.py:50-56 | writing one selected group keeps the run invariant |
| Run.WriteGroupRegistry | tdms2h5.py:50-51 | `h5_files` lists each container once, in insertion order |
| Run.ConvertFileInvariant | tdms2h5.py:34-85 | one file keeps the run invariant |
| Run.ConvertFileIndices | tdms2h5.py:40-41 | a selected numbered file appends its number once, whatever its groups do |
| Run.ConvertAllIndices | tdms2h5.py:34-41 | after the file loop `slice_indices` lists every selected file's number in processing order, before and regardless of the filter |
| Run.ConvertFileEffect | tdms2h5.py:43-57 | one file creates containers only for its selected groups, keeps others, adds only its node, and on success every selected group holds it |
| Run.ConvertFileKeys | tdms2h5.py:46-51 | a successful file adds exactly its selected groups to `h5_files` |
| Run.ConvertAllKeys | tdms2h5.py:46-51 | the keys of `h5_files` are exactly the processed group names |
| Run.FinaliseAllStamps | tdms2h5.py:53-55 | finalisation keeps every container's `Version` and `TDMS_GroupName` |
| Run.FinaliseAllOpen | tdms2h5.py:87 | finalisation keeps handles open and never fails on a closed one |
| Run.FinaliseAllNodes | tdms2h5.py:87-95 | finalisation leaves every node as it was |
| Run.FinaliseAllTables | tdms2h5.py:87-95 | a successful finalisation gives every container an `Index` with the listed numbers in order and its `Vertices` total; unlisted containers are untouched |
| Run.FinaliseAllMissingSlice | tdms2h5.py:91 | a listed slice absent from any container makes finalisation fail |
| Run.FinalisedHasAllSlices | tdms2h5.py:41-91 | after a successful finalisation every container has a node for every listed slice |
| Run.RunCloses | tdms2h5.py:29-95 | when the call returns every container is closed, stamped and selected, and no write met a closed handle |
| Run.RunKeys | tdms2h5.py:46-51 | a successful call creates exactly one container per processed group |
| Run.FinishKeys | tdms2h5.py:87-95 | finalising and closing keep the set of containers |
| Run.RunIndexed | tdms2h5.py:31-95 | a successful call leaves each container with an `Index` of the selected slice numbers in processing order, a node for each, and their `X-Axis` total |
| Run.FinalTables | tdms2h5.py:87-95 | every finalised container is indexed by `slice_indices` |
| Run.FinalTableAt | tdms2h5.py:87-95 | one finalised container is indexed by `slice_indices` |
| Run.CloseKeepsIndexed | tdms2h5.py:29 | closing keeps every `Index` and `Vertices` |
| Converter.Converter.constructor | tdms2h5.py:30-31 | `h5_files` and `slice_indices` start empty |
| Converter.Converter.WriteGroup | tdms2h5.py:49-85 | the group body changes the converter exactly as `WriteGroupSpec` says |
| Converter.Converter.ConvertFile | tdms2h5.py:34-45 | the file body changes the converter exactly as `ConvertFileSpec` says |
| Converter.Converter.ConvertNumberedFile | tdms2h5.py:38-45 | appending the number and then writing the groups is `ConvertFileSpec` |
| Converter.Converter.WriteGroups | tdms2h5.py:45-47 | the group loop, skipping excluded groups and stopping at the first error, is `WriteGroupsSpec` |
| Converter.Converter.FinaliseAll | tdms2h5.py:87-95 | the finalisation loop is `FinaliseAllSpec` and keeps the order and `slice_indices` |
| Converter.Converter.CloseEvery | tdms2h5.py:29 | the exit of the `ExitStack` leaves `CloseAll` of the containers |
| Converter.CloseLoop | tdms2h5.py:29 | closing the containers last-entered first gives `CloseAll` |
| Converter.FinaliseLoop | tdms2h5.py:87 | the loop over `h5_files.values()` is `FinaliseAllSpec` |
| Converter.FinaliseOne | tdms2h5.py:88-95 | one container's finalisation is `Finalise` |
| Converter.Tdms2H5 | tdms2h5.py:23-95 | the whole call (file loop, finalisation, closing) returns `RunSpec` |
| LegacyBatch.Opened | src/WritingFiles.py:98-101 | the opened objects are the listing over and over, one per opened layer |
| LegacyBatch.Passes | src/WritingFiles.py:94-102 | the outer loop stops at the first whole number of passes reaching `numFiles` |
| LegacyBatch.LayerTotalBounds | src/WritingFiles.py:94-102 | the returned count is 0 for `numFiles <= 0`, else the least multiple of the listing length that is at least `numFiles` |
| LegacyBatch.LastFlush | src/WritingFiles.py:106 | the last flush point is one where the test held, with no later one |
| LegacyBatch.OpenedCycles | src/WritingFiles.py:94-101 | the `k`-th opened object is file `k mod len(tdmsFiles)` |
| LegacyBatch.OpenedPrefix | src/WritingFiles.py:94-101 | fewer opened layers give a prefix of the opened objects |
| LegacyBatch.PendingStep | src/WritingFiles.py:101-106 | opening one layer either queues the object or flushes the queue with it |
| LegacyBatch.FlushedPrefix | src/WritingFiles.py:106-208 | what is processed by any point is a prefix of what the run processes |
| LegacyBatch.FoldAppend | src/WritingFiles.py:117-118 | processing `a` then `b` is processing `a + b`, counters continuing, unless `a` failed |
| LegacyBatch.FoldStops | src/WritingFiles.py:117-118 | the first exception ends the processing |
| LegacyBatch.BatchOpen | src/WritingFiles.py:101-208 | without a flush nothing is processed; with one the queue is processed with consecutive counters and emptied |
| LegacyBatch.BatchStops | src/WritingFiles.py:106-208 | an error after some opened layers is the error of the whole run |
| LegacyBatch.BatchRunFolds | src/WritingFiles.py:86-211 | a run processes exactly the objects up to the last flush, counters from `firstSliceNum` |
| LegacyBatch.BatchEnds | src/WritingFiles.py:94-211 | a loop ending in an error or after all layers gives the specified run |
| LegacyBatch.UnitBatchProcessesAll | src/WritingFiles.py:82-106 | with the default batch size 1 every opened object is processed |
| LegacyBatch.ProcessedCovers | src/WritingFiles.py:106-208 | at least `numFiles` objects are processed, and fewer than a batch of opened objects are left unwritten |
| LegacyColumns.StripLeftKeepsSuffix | src/WritingFiles.py:142-143 | `lstrip(c)` keeps a suffix not starting with `c` and drops only `c`s |
| LegacyColumns.StripRightKeepsPrefix | src/WritingFiles.py:142-143 | `rstrip(c)` keeps a prefix not ending with `c` and drops only `c`s |
| LegacyColumns.ShortNames | src/WritingFiles.py:139-144 | one short name per channel |
| LegacyColumns.ShortNamesAt | src/WritingFiles.py:139-144 | entry `i` of `names` is the short name of channel `i` |
| LegacyColumns.ChannelNames | src/WritingFiles.py:138-144 | the name loop builds `ShortNames` |
| LegacyColumns.ShortNameOfPath | src/WritingFiles.py:140-143 | a channel text ending in `/'<name>'>` yields `name` when it has no `/` and no quote at its ends |
| LegacyColumns.SlotFrom | src/WritingFiles.py:150-161 | the `elif` chain from test `k` picks a column at or after `k` |
| LegacyColumns.SlotOf | src/WritingFiles.py:150-161 | the chain picks one of the six columns or none |
| LegacyColumns.SlotFromCases | src/WritingFiles.py:150-161 | from test `k`: the first matching name wins; `IndexError` exactly when names run out first; nothing when six names fail |
| LegacyColumns.SlotOfCases | src/WritingFiles.py:150-161 | the first of `names[0..5]` contained in the channel name picks the column; `IndexError` exactly when fewer than six names exist and none matches |
| LegacyColumns.ListedNameNeverRaises | src/WritingFiles.py:150-161 | a channel name containing one of the names never raises |
| LegacyColumns.Dispatch | src/WritingFiles.py:136-161 | a successful channel loop yields six columns |
| LegacyColumns.LastInSlot | src/WritingFiles.py:150-161 | the reference reading finds the last channel sent to a column, and no later one is |
| LegacyColumns.DispatchSucceeds | src/WritingFiles.py:136-161 | the loop succeeds exactly when no channel's chain raises |
| LegacyColumns.DispatchLookup | src/WritingFiles.py:136-161 | each column holds the data of the last channel sent to it (a later match overwrites), or is still unset |
| LegacyColumns.OwnNamesNeverRaise | src/WritingFiles.py:138-161 | when every channel name contains its own short name, the loop never raises |
| LegacyColumns.ContainedNamesNeverRaise | src/WritingFiles.py:150-161 | when each channel name contains its own entry of `names`, the loop never raises |
| LegacyColumns.DispatchErrorStops | src/WritingFiles.py:136-161 | an error over a prefix of the channels is the loop's error |
| LegacyColumns.GatherColumns | src/WritingFiles.py:126-161 | the channel loop rebuilds `names` (kept when there is no channel) and fills the columns as `Dispatch` says |
| LegacyColumns.RowCount | src/WritingFiles.py:186-199 | the row count is the shortest column's length |
| LegacyColumns.RowsUpTo | src/WritingFiles.py:187-199 | among the first `n` indices, exactly the rows every column reaches are written, in order |
| LegacyColumns.CsvRows | src/WritingFiles.py:186-199 | `TypeError` exactly when the area column was never assigned; else one row per index all six columns reach, taken from the columns |
| LegacyColumns.CsvDataRows | src/WritingFiles.py:186-199 | the row loop with its `IndexError` skip is `CsvRows` |
| LegacyProperties.Lookup | src/WritingFiles.py:249 | `d[key]` finds a value exactly when the key is present |
| LegacyProperties.Put | src/WritingFiles.py:249 | assignment keeps an existing key's place or appends a new key |
| LegacyProperties.Remove | src/WritingFiles.py:251 | `del` never lengthens the dictionary |
| LegacyProperties.LookupPut | src/WritingFiles.py:249-250 | after `d[key] = v`, `d[key]` reads `v` and other keys read as before |
| LegacyProperties.LookupRemove | src/WritingFiles.py:251-252 | after `del d[key]` the key is absent and other keys read as before |
| LegacyProperties.RenameTimesEffect | src/WritingFiles.py:249-252 | the renaming succeeds exactly when both times exist; the first missing one raises `KeyError`; new names hold the old times, old names are gone, other keys unchanged |
| LegacyProperties.PropertyDict.constructor | src/WritingFiles.py:248 | the dictionary holds the object's properties |
| LegacyProperties.PropertyDict.Get | src/WritingFiles.py:249 | `d[key]` gives the stored value, or `KeyError` exactly when the key is absent |
| LegacyProperties.PropertyDict.Set | src/WritingFiles.py:249 | `d[key] = v` changes the items as `Put` says |
| LegacyProperties.PropertyDict.Delete | src/WritingFiles.py:251 | `del d[key]` removes the key, or raises `KeyError` and changes nothing |
| LegacyProperties.PropertyDict.RenameTimes | src/WritingFiles.py:259-262 | the four statements change the dictionary as `RenameTimesSpec` says |
| LegacyCsv.CsvPath | src/WritingFiles.py:169-172 | on another platform the previous file name stays; else the name starts with the folder and the platform's separator and ends with `.csv` |
| LegacyCsv.CsvPathInjective | src/WritingFiles.py:169-172 | two counters name two different files of one folder |
| LegacyCsv.CsvPartWrites | src/WritingFiles.py:136-199 | a part whose `str(part)` is a folder key, whose channels dispatch and which has an area column writes the file in `folderDictionary[str(part)]` with the header and the rows, and no other file changes |
| LegacyCsv.CsvPartContent | src/WritingFiles.py:176-199 | the file at `folderDictionary[str(part)]` is the header of short names, then one row per index all columns reach, from the columns |
| LegacyCsv.CsvContent | src/WritingFiles.py:176-199 | a file's lines are the header, then the rows of the columns |
| LegacyCsv.CsvPartFailures | src/WritingFiles.py:136-199 | the failures of one part in source order: dispatch error and `KeyError` on `str(part)` leave the files; `open("")` leaves the files; unbound `names` leaves the opened file empty; the `TypeError` of an unassigned area column leaves the file holding only the header |
| LegacyCsv.CsvPartKeys | src/WritingFiles.py:165-176 | a successful part had `str(part)` as a folder key and adds exactly the file named from `folderDictionary[str(part)]` |
| LegacyCsv.CsvPartsKeys | src/WritingFiles.py:121-176 | a successful part loop keeps every file and leaves, for each part, the file named from `folderDictionary[str(part)]` |
| LegacyCsv.CsvFoldFiles | src/WritingFiles.py:117-176 | processing objects leaves, for object `k` and each part, the file in `folderDictionary[str(part)]` of counter `counter + k` |
| LegacyCsv.CsvRunFiles | src/WritingFiles.py:82-211 | a successful run returns the layer count and wrote one file per processed object and part, in `folderDictionary[str(part)]`, counters from `firstSliceNum` |
| LegacyCsv.CsvRunEnds | src/WritingFiles.py:94-211 | the loop's ending state and error are those of `CsvRunSpec` |
| LegacyCsv.CsvPart | src/WritingFiles.py:123-199 | the part body is `CsvPartSpec` |
| LegacyCsv.SliceFileName | src/WritingFiles.py:169-172 | the `os.name` chain builds `CsvPath` |
| LegacyCsv.WriteCsv | src/WritingFiles.py:176-199 | the `with open` block writes the header, then the rows, or only the header before the `TypeError` |
| LegacyCsv.CsvParts | src/WritingFiles.py:121-199 | the part loop is `CsvPartsSpec` |
| LegacyCsv.FlushCsv | src/WritingFiles.py:117-118 | the flush processes the queue with the next counters and returns the last counter |
| LegacyCsv.CsvOpenNext | src/WritingFiles.py:101-208 | one opening keeps the queue, counter and output tied to the flushed and pending objects |
| LegacyCsv.CsvPass | src/WritingFiles.py:98-208 | one pass over the listing opens one layer per file and keeps that relation, or ends at the first error |
| LegacyCsv.CsvLayers | src/WritingFiles.py:94-208 | the outer loop opens the specified layer total and processes what was flushed, or stops at the first error |
| LegacyCsv.WriteFilesCsv | src/WritingFiles.py:82-211 | `writeFilesCSV` leaves the files and returns the result of `CsvRunSpec` |
| LegacyHdf5.WorkingDir | src/WritingFiles.py:317-319 | the directory is the text before the last `/`; without one, the last character is dropped |
| LegacyHdf5.WorkingDirOfPath | src/WritingFiles.py:318-319 | the working directory of `dir/name` is `dir` |
| LegacyHdf5.LastWrittenVerbatim | src/WritingFiles.py:333-338 | writing a dictionary verbatim stores under each key the value `d[key]` reads, converted |
| LegacyHdf5.NodeAttrsLookup | src/WritingFiles.py:326-345 | a slice group's attributes are its part's properties, else its file's, else `TDMS Group Name` |
| LegacyHdf5.RenamedLookup | src/WritingFiles.py:249-262 | a property after renaming: new names read the old times, old names are gone |
| LegacyHdf5.RenamedNodeAttrs | src/WritingFiles.py:249-345 | after both renamings the slice group's attributes are the renamed properties, the part winning over the file |
| LegacyHdf5.RenamedNodeTimes | src/WritingFiles.py:249-345 | the group carries `Part Start/End Time` and `Layer Start/End Time` with the old times, and no `StartTime`/`EndTime` |
| LegacyHdf5.SlotData | src/WritingFiles.py:293-304 | the data of the last channel sent to a column |
| LegacyHdf5.SliceDatasetsLookup | src/WritingFiles.py:293-356 | no dataset when the area data is empty; otherwise six, each holding its column's last dispatched channel data |
| LegacyHdf5.DatasetsOfColumns | src/WritingFiles.py:349-356 | the six datasets hold the six columns when the area column is non-empty |
| LegacyHdf5.ColumnIsSlotData | src/WritingFiles.py:293-304 | each column's samples are those of the last channel dispatched to it |
| LegacyHdf5.HdfPartSucceeds | src/WritingFiles.py:258-362 | a part is written exactly when both times exist, no channel raises, its file is known, the group is new and the area column was assigned |
| LegacyHdf5.AddNodeFrame | src/WritingFiles.py:326-328 | adding a group keeps every other group of every file; mode "a" creates a missing file |
| LegacyHdf5.HdfPartWrites | src/WritingFiles.py:308-362 | a written part adds its group with attributes and datasets and restores the working directory |
| LegacyHdf5.HdfPartFailures | src/WritingFiles.py:258-362 | each exception of a part, in order, and what it leaves behind (moved working directory, group without datasets) |
| LegacyHdf5.HdfPartKeys | src/WritingFiles.py:308-362 | a written part keeps every group and the working directory and holds the slice's group |
| LegacyHdf5.HdfPartsKeys | src/WritingFiles.py:257-362 | a successful part loop leaves the slice's group in every part's file |
| LegacyHdf5.HdfFoldNodes | src/WritingFiles.py:247-362 | processing objects leaves, for object `k` and each part, the group `str(counter + k)` |
| LegacyHdf5.HdfObjectKeys | src/WritingFiles.py:247-362 | one processed object leaves its group in every part's file |
| LegacyHdf5.HdfRunNodes | src/WritingFiles.py:214-372 | a successful run returns the layer count, restores the working directory, keeps every group and adds one group per processed object and part |
| LegacyHdf5.HdfRunEnds | src/WritingFiles.py:225-372 | the loop's ending state and error are those of `HdfRunSpec` |
| LegacyHdf5.WorkingDirectory | src/WritingFiles.py:318-319 | the `rfind` and the slice compute `WorkingDir` |
| LegacyHdf5.WriteDatasets | src/WritingFiles.py:349-356 | the `create_dataset` calls give `SliceDatasets` |
| LegacyHdf5.HdfPart | src/WritingFiles.py:258-362 | the part body is `HdfPartSpec` |
| LegacyHdf5.HdfParts | src/WritingFiles.py:257-362 | the part loop is `HdfPartsSpec` |
| LegacyHdf5.HdfObject | src/WritingFiles.py:247-362 | one object's renaming and part loop is `HdfObjectSpec` |
| LegacyHdf5.FlushHdf | src/WritingFiles.py:247-254 | the flush processes the queue with the next counters |
| LegacyHdf5.HdfOpenNext | src/WritingFiles.py:232-237 | one opening keeps the queue, counter and output tied to the flushed and pending objects |
| LegacyHdf5.HdfPass | src/WritingFiles.py:229-371 | one pass over the listing keeps that relation or ends at the first error |
| LegacyHdf5.HdfLayers | src/WritingFiles.py:225-371 | the outer loop opens the specified layer total, or stops at the first error |
| LegacyHdf5.WriteFilesHdf5 | src/WritingFiles.py:214-372 | `writeFilesHDF5` leaves the files and returns the result of `HdfRunSpec` |

## Left out

- Console output: verbose and progress prints and batch timing (tdms2h5.py:35-36, 97-100; src/WritingFiles.py:103, 110, 199-204, 364-367).
- `main`, argument parsing, `setup.py` and `testTdmsFile`: these parse arguments, hold packaging metadata or print. They are not part of this model.
- The directory listing: `glob` becomes a sequence of paths given as a parameter, in the order the loop sees them.
- Reading TDMS files (`nptdms`): each listed file's content is given as a value. The legacy writers receive the opened objects directly, so the source directory argument is left out.
- HDF5 storage internals (`h5py`): a container is a value holding attributes, nodes and datasets. A file is keyed by group name in `tdms2h5` and by path in the legacy writer, where the files present beforehand are a parameter.
- `np.datetime_as_string` and numpy's conversion of a non-integer thickness are uninterpreted function parameters.
- Channel samples are opaque 64-bit values, never computed on.
- CSV quoting and dialect: a file is a sequence of rows, not text.
- `groupCSV`, `csvCount` and `colNames` (src/WritingFiles.py:126, 133, 145, 162-163): they are assigned but never read.
- The working directory is a string in the state. A failing `chdir` or a relative path is not modelled.
- `Run.Selected`: `groups=None` is treated like an empty list. Both keep every group.
- `os.name is "posix"` is modelled as equality. CPython interns these literals.
- `LegacyHdf5.WriteDatasets`: a `create_dataset` failure that is caught and printed is not modelled. The six names are distinct and the group is new, so the only remaining cause is data h5py cannot store, which the opaque samples do not represent.
- `LegacyCsv.WriteFilesCsv`, `LegacyHdf5.WriteFilesHdf5`: they require a non-empty listing when `numFiles > 0`. With an empty listing the code loops forever, which no terminating model can return from.
- `LegacyBatch.ProcessedCovers`: it is proved for a positive batch size only. A negative batch size still flushes at its multiples (`FlushAt`), but the bound on unwritten objects is not stated for it.
- `\d` is modelled as the ASCII digits. Python also accepts other Unicode decimal digits.
- Strings are sequences of characters, with no Unicode normalisation.
- The finalisation and closing loops update the `h5_files` map as a value that the class method assigns back to its field. Aliasing between handles is not modelled.
