/** `writeFilesHDF5`: for every processed TDMS object and part, a group
    named after the slice counter in the part's HDF5 file, holding the
    renamed file and part properties as attributes and, when the area
    column has samples, one dataset per column. */
module LegacyHdf5 {
  import opened Common
  import opened Attributes
  import opened Container
  import opened LegacyColumns
  import opened LegacyProperties
  import opened LegacyBatch

  const GroupNameAttr: string := "TDMS Group Name"

  const AreaName: string := "Area"
  const IntensityName: string := "Intensity"
  const LaserName: string := "LaserTTL"
  const ParamName: string := "Parameter"
  const XName: string := "X-Axis"
  const YName: string := "Y-Axis"

  /** The HDF5 files by path, each a map from group name to slice group,
      and the process's working directory. */
  datatype Hdf5State = Hdf5State(files: map<string, map<string, SliceNode>>, cwd: string)

  /** `writeFileLocation[0:writeFileLocation.rfind("/")]`: the directory of
      the path; without a `/`, `rfind` gives -1 and the slice drops the
      last character. */
  function WorkingDir(loc: string): (dir: string)
    ensures '/' in loc ==> |dir| < |loc| && dir == loc[..|dir|] && loc[|dir|] == '/'
    ensures '/' in loc ==> forall j | |dir| < j < |loc| :: loc[j] != '/'
    ensures '/' !in loc ==> dir == if loc == [] then [] else loc[..|loc| - 1]
  {
    var i := LastIndexOf(loc, '/');
    if i >= 0 then loc[..i]
    else if loc == [] then []
    else loc[..|loc| - 1]
  }

  /** The working directory of `dir/name` is `dir`. */
  lemma WorkingDirOfPath(dir: string, name: string)
    requires '/' !in name
    ensures WorkingDir(dir + "/" + name) == dir
  {
    var loc := dir + "/" + name;
    assert loc[|dir|] == '/';
    assert forall j | |dir| < j < |loc| :: loc[j] == name[j - |dir| - 1];
    assert loc[..|dir|] == dir;
  }

  /** The samples of a column; an unassigned column is the empty list. */
  function ColumnSamples(c: Column): seq<Sample> {
    match c
    case Unset => []
    case Data(samples) => samples
  }

  /** The datasets of a slice group: none when the area column is empty,
      otherwise six, in the order they are created, each from its column. */
  function SliceDatasets(cols: seq<Column>): map<string, seq<Sample>>
    requires |cols| == SlotCount
  {
    if ColumnSamples(cols[AreaSlot]) == [] then map[]
    else map[AreaName := ColumnSamples(cols[AreaSlot]),
             IntensityName := ColumnSamples(cols[IntensitySlot]),
             LaserName := ColumnSamples(cols[LaserSlot]),
             ParamName := ColumnSamples(cols[ParamSlot]),
             XName := ColumnSamples(cols[XSlot]),
             YName := ColumnSamples(cols[YSlot])]
  }

  /** The attributes of a slice group: the part's name, then every file
      property, then every part property, each written over the last. */
  function NodeAttrs(name: string, fileProps: PropertyBag, partProps: PropertyBag, asText: Timestamp -> string): Attrs {
    WriteAll(WriteAll(map[GroupNameAttr := BytesValue(name)], fileProps, Verbatim, asText), partProps, Verbatim, asText)
  }

  /** The group `key` of the file at `loc`, if the file has it. */
  predicate HasNode(st: Hdf5State, loc: string, key: string) {
    loc in st.files && key in st.files[loc]
  }

  /** `files` with group `key` of the file at `loc` set to `node`; opening
      with mode `"a"` creates a missing file. */
  function AddNode(files: map<string, map<string, SliceNode>>, loc: string, key: string, node: SliceNode)
    : map<string, map<string, SliceNode>>
  {
    files[loc := (if loc in files then files[loc] else map[])[key := node]]
  }

  /** The body of the part loop, up to its first exception: rename the
      part's times, gather the columns, look up the file, change into its
      directory, create the group, write its attributes, then its datasets,
      and change back. */
  function HdfPartSpec(st: Hdf5State, fileProps: PropertyBag, g: TdmsGroup, counter: int,
                       dests: map<string, string>, asText: Timestamp -> string): (Hdf5State, Option<Error>)
  {
    var (partProps, e) := RenameTimesSpec(g.properties, PartStartName, PartEndName);
    if e.Some? then (st, e)
    else match Dispatch(ShortNames(g.channels), g.channels)
    case Err(e) => (st, Some(e))
    case Ok(cols) =>
      if g.name !in dests then (st, Some(MissingKey(g.name)))
      else
        var loc := dests[g.name];
        var key := IntToString(counter);
        var moved := st.(cwd := WorkingDir(loc));
        if HasNode(st, loc, key) then (moved, Some(NodeExists(g.name, key)))
        else
          var attrs := NodeAttrs(g.name, fileProps, partProps, asText);
          if cols[AreaSlot].Unset? then (moved.(files := AddNode(st.files, loc, key, SliceNode(attrs, map[]))), Some(AreaNotArray))
          else (st.(files := AddNode(st.files, loc, key, SliceNode(attrs, SliceDatasets(cols)))), None)
  }

  /** The part loop of one TDMS object, stopping at the first exception. */
  function HdfPartsSpec(st: Hdf5State, fileProps: PropertyBag, gs: seq<TdmsGroup>, counter: int,
                        dests: map<string, string>, asText: Timestamp -> string): (Hdf5State, Option<Error>)
    decreases |gs|
  {
    if gs == [] then (st, None)
    else
      var (st1, e) := HdfPartSpec(st, fileProps, gs[0], counter, dests, asText);
      if e.Some? then (st1, e) else HdfPartsSpec(st1, fileProps, gs[1..], counter, dests, asText)
  }

  /** One processed TDMS object: rename its times, then its part loop. */
  function HdfObjectSpec(st: Hdf5State, t: TdmsFile, counter: int,
                         dests: map<string, string>, asText: Timestamp -> string): (Hdf5State, Option<Error>)
  {
    var (fileProps, e) := RenameTimesSpec(t.properties, LayerStartName, LayerEndName);
    if e.Some? then (st, e) else HdfPartsSpec(st, fileProps, t.groups, counter, dests, asText)
  }

  function HdfStep(dests: map<string, string>, asText: Timestamp -> string)
    : (Hdf5State, TdmsFile, int) -> (Hdf5State, Option<Error>)
  {
    (st: Hdf5State, t: TdmsFile, counter: int) => HdfObjectSpec(st, t, counter, dests, asText)
  }

  /** The whole of `writeFilesHDF5`, from the files as they were and the
      working directory of the process. */
  function HdfRunSpec(dests: map<string, string>, tdmsFiles: seq<TdmsFile>, numFiles: int, batchSize: int,
                      first: int, existing: map<string, map<string, SliceNode>>, cwd: string,
                      asText: Timestamp -> string): (Hdf5State, Result<nat>)
    requires |tdmsFiles| > 0 || numFiles <= 0
  {
    BatchRun(HdfStep(dests, asText), Hdf5State(existing, cwd), tdmsFiles, numFiles, batchSize, first)
  }

  // ----- attributes -----

  /** Writing a bag verbatim stores, under each key, the value `d[key]`
      reads. */
  lemma {:induction false} LastWrittenVerbatim(bag: PropertyBag, asText: Timestamp -> string, k: string)
    ensures LastWritten(bag, Verbatim, asText, k)
            == if HasKey(bag, k) then Some(StoredValue(Lookup(bag, k).value, asText)) else None
    decreases |bag|
  {
    if bag != [] && bag[|bag| - 1].0 != k {
      LastWrittenVerbatim(bag[..|bag| - 1], asText, k);
    }
  }

  /** A slice group's attribute is the part's property of that name, or
      else the file's, or else, for `TDMS Group Name`, the part's name. */
  lemma NodeAttrsLookup(name: string, fileProps: PropertyBag, partProps: PropertyBag, asText: Timestamp -> string, k: string)
    ensures var attrs := NodeAttrs(name, fileProps, partProps, asText);
            && (k in attrs <==> HasKey(partProps, k) || HasKey(fileProps, k) || k == GroupNameAttr)
            && (HasKey(partProps, k) ==> attrs[k] == StoredValue(Lookup(partProps, k).value, asText))
            && (!HasKey(partProps, k) && HasKey(fileProps, k) ==> attrs[k] == StoredValue(Lookup(fileProps, k).value, asText))
            && (!HasKey(partProps, k) && !HasKey(fileProps, k) && k == GroupNameAttr ==> attrs[k] == BytesValue(name))
  {
    var base := map[GroupNameAttr := BytesValue(name)];
    WriteAllLookup(base, fileProps, Verbatim, asText, k);
    WriteAllLookup(WriteAll(base, fileProps, Verbatim, asText), partProps, Verbatim, asText, k);
    LastWrittenVerbatim(fileProps, asText, k);
    LastWrittenVerbatim(partProps, asText, k);
  }

  /** A property after the renaming to `startName` and `endName`: those
      two keys read the old times, `StartTime` and `EndTime` are gone, any
      other key reads as before. */
  function RenamedLookup(bag: PropertyBag, startName: string, endName: string, key: string): Option<Value> {
    if key == startName then Lookup(bag, StartTimeKey)
    else if key == endName then Lookup(bag, EndTimeKey)
    else if key == StartTimeKey || key == EndTimeKey then None
    else Lookup(bag, key)
  }

  /** The attributes of a slice group after both renamings, in terms of the
      properties as read: the part's times are under `Part Start Time` and
      `Part End Time`, the file's under `Layer Start Time` and `Layer End
      Time`, no attribute is `StartTime` or `EndTime`, the part's property
      wins over the file's of the same name, and `TDMS Group Name` holds the
      part's name unless a property overwrote it. */
  lemma RenamedNodeAttrs(name: string, fileBag: PropertyBag, partBag: PropertyBag, asText: Timestamp -> string, key: string)
    requires RenameTimesSpec(fileBag, LayerStartName, LayerEndName).1.None?
    requires RenameTimesSpec(partBag, PartStartName, PartEndName).1.None?
    ensures var attrs := NodeAttrs(name, RenameTimesSpec(fileBag, LayerStartName, LayerEndName).0,
                                   RenameTimesSpec(partBag, PartStartName, PartEndName).0, asText);
            var fromPart := RenamedLookup(partBag, PartStartName, PartEndName, key);
            var fromFile := RenamedLookup(fileBag, LayerStartName, LayerEndName, key);
            && (key in attrs <==> fromPart.Some? || fromFile.Some? || key == GroupNameAttr)
            && (fromPart.Some? ==> attrs[key] == StoredValue(fromPart.value, asText))
            && (fromPart.None? && fromFile.Some? ==> attrs[key] == StoredValue(fromFile.value, asText))
            && (fromPart.None? && fromFile.None? && key == GroupNameAttr ==> attrs[key] == BytesValue(name))
  {
    var fp := RenameTimesSpec(fileBag, LayerStartName, LayerEndName).0;
    var pp := RenameTimesSpec(partBag, PartStartName, PartEndName).0;
    RenameTimesEffect(fileBag, LayerStartName, LayerEndName, key);
    RenameTimesEffect(partBag, PartStartName, PartEndName, key);
    NodeAttrsLookup(name, fp, pp, asText, key);
  }

  /** The times of both levels reach the slice group: the renamings can only
      succeed when both bags have `StartTime` and `EndTime`. */
  lemma RenamedNodeTimes(name: string, fileBag: PropertyBag, partBag: PropertyBag, asText: Timestamp -> string)
    requires RenameTimesSpec(fileBag, LayerStartName, LayerEndName).1.None?
    requires RenameTimesSpec(partBag, PartStartName, PartEndName).1.None?
    requires !HasKey(partBag, LayerStartName) && !HasKey(partBag, LayerEndName)
    ensures var attrs := NodeAttrs(name, RenameTimesSpec(fileBag, LayerStartName, LayerEndName).0,
                                   RenameTimesSpec(partBag, PartStartName, PartEndName).0, asText);
            && HasKey(fileBag, StartTimeKey) && HasKey(fileBag, EndTimeKey)
            && HasKey(partBag, StartTimeKey) && HasKey(partBag, EndTimeKey)
            && PartStartName in attrs && attrs[PartStartName] == StoredValue(Lookup(partBag, StartTimeKey).value, asText)
            && PartEndName in attrs && attrs[PartEndName] == StoredValue(Lookup(partBag, EndTimeKey).value, asText)
            && LayerStartName in attrs && attrs[LayerStartName] == StoredValue(Lookup(fileBag, StartTimeKey).value, asText)
            && LayerEndName in attrs && attrs[LayerEndName] == StoredValue(Lookup(fileBag, EndTimeKey).value, asText)
            && StartTimeKey !in attrs && EndTimeKey !in attrs
  {
    RenameTimesEffect(fileBag, LayerStartName, LayerEndName, StartTimeKey);
    RenameTimesEffect(partBag, PartStartName, PartEndName, StartTimeKey);
    RenamedNodeAttrs(name, fileBag, partBag, asText, PartStartName);
    RenamedNodeAttrs(name, fileBag, partBag, asText, PartEndName);
    RenamedNodeAttrs(name, fileBag, partBag, asText, LayerStartName);
    RenamedNodeAttrs(name, fileBag, partBag, asText, LayerEndName);
    RenamedNodeAttrs(name, fileBag, partBag, asText, StartTimeKey);
    RenamedNodeAttrs(name, fileBag, partBag, asText, EndTimeKey);
  }

  // ----- datasets -----

  /** The data of the channel a column was taken from, or the empty list. */
  function ChannelData(chs: seq<Channel>, j: Option<nat>): seq<Sample>
    requires j.Some? ==> j.value < |chs|
  {
    match j
    case None => []
    case Some(j) => chs[j].data
  }

  /** The data of the last channel the `elif` chain sent to column `k`. */
  function SlotData(chs: seq<Channel>, k: nat): seq<Sample> {
    ChannelData(chs, LastInSlot(ShortNames(chs), chs, k))
  }

  /** The datasets of a slice group hold, each, the data of the last
      channel the `elif` chain sent to its column (empty when none was);
      there are none when that channel of the area column is missing or
      empty. */
  lemma SliceDatasetsLookup(chs: seq<Channel>)
    requires Dispatch(ShortNames(chs), chs).Ok?
    ensures var ds := SliceDatasets(Dispatch(ShortNames(chs), chs).value);
            && (SlotData(chs, AreaSlot) == [] ==> ds == map[])
            && (SlotData(chs, AreaSlot) != [] ==> ds.Keys == {AreaName, IntensityName, LaserName, ParamName, XName, YName})
            && (SlotData(chs, AreaSlot) != [] ==>
                  && ds[AreaName] == SlotData(chs, AreaSlot) && ds[IntensityName] == SlotData(chs, IntensitySlot)
                  && ds[LaserName] == SlotData(chs, LaserSlot) && ds[ParamName] == SlotData(chs, ParamSlot)
                  && ds[XName] == SlotData(chs, XSlot) && ds[YName] == SlotData(chs, YSlot))
  {
    DatasetsOfColumns(Dispatch(ShortNames(chs), chs).value);
    ColumnIsSlotData(chs, AreaSlot);
    ColumnIsSlotData(chs, IntensitySlot);
    ColumnIsSlotData(chs, LaserSlot);
    ColumnIsSlotData(chs, ParamSlot);
    ColumnIsSlotData(chs, XSlot);
    ColumnIsSlotData(chs, YSlot);
  }

  lemma DatasetsOfColumns(cols: seq<Column>)
    requires |cols| == SlotCount
    ensures var ds := SliceDatasets(cols);
            && (ColumnSamples(cols[AreaSlot]) == [] ==> ds == map[])
            && (ColumnSamples(cols[AreaSlot]) != [] ==>
                  && ds.Keys == {AreaName, IntensityName, LaserName, ParamName, XName, YName}
                  && ds[AreaName] == ColumnSamples(cols[AreaSlot]) && ds[IntensityName] == ColumnSamples(cols[IntensitySlot])
                  && ds[LaserName] == ColumnSamples(cols[LaserSlot]) && ds[ParamName] == ColumnSamples(cols[ParamSlot])
                  && ds[XName] == ColumnSamples(cols[XSlot]) && ds[YName] == ColumnSamples(cols[YSlot]))
  {
  }

  lemma ColumnIsSlotData(chs: seq<Channel>, k: nat)
    requires k < SlotCount && Dispatch(ShortNames(chs), chs).Ok?
    ensures ColumnSamples(Dispatch(ShortNames(chs), chs).value[k]) == SlotData(chs, k)
  {
    DispatchLookup(ShortNames(chs), chs, k);
  }

  // ----- one part -----

  /** A part is written exactly when both its times are present, no channel
      raises, its file is known, the slice's group is new and the area
      column was assigned. */
  lemma HdfPartSucceeds(st: Hdf5State, fileProps: PropertyBag, g: TdmsGroup, counter: int,
                        dests: map<string, string>, asText: Timestamp -> string)
    ensures var d := Dispatch(ShortNames(g.channels), g.channels);
            HdfPartSpec(st, fileProps, g, counter, dests, asText).1.None? <==>
              HasKey(g.properties, StartTimeKey) && HasKey(g.properties, EndTimeKey) && d.Ok?
              && g.name in dests && !HasNode(st, dests[g.name], IntToString(counter)) && d.value[AreaSlot].Data?
  {
    RenameTimesEffect(g.properties, PartStartName, PartEndName, StartTimeKey);
  }

  /** Adding a group to a file keeps every other group of every file. */
  lemma AddNodeFrame(files: map<string, map<string, SliceNode>>, loc: string, key: string, node: SliceNode)
    ensures var out := AddNode(files, loc, key, node);
            && out.Keys == files.Keys + {loc}
            && (forall p | p in files && p != loc :: out[p] == files[p])
            && out[loc].Keys == (if loc in files then files[loc].Keys else {}) + {key}
            && out[loc][key] == node
            && (loc in files ==> forall k | k in files[loc] && k != key :: out[loc][k] == files[loc][k])
  {
  }

  /** A written part restores the working directory and adds the slice's
      group, with the attributes and the datasets, to the part's file. */
  lemma HdfPartWrites(st: Hdf5State, fileProps: PropertyBag, g: TdmsGroup, counter: int,
                      dests: map<string, string>, asText: Timestamp -> string)
    requires HdfPartSpec(st, fileProps, g, counter, dests, asText).1.None?
    ensures var out := HdfPartSpec(st, fileProps, g, counter, dests, asText).0;
            && Dispatch(ShortNames(g.channels), g.channels).Ok?
            && g.name in dests && !HasNode(st, dests[g.name], IntToString(counter))
            && out == st.(files := AddNode(st.files, dests[g.name], IntToString(counter),
                            SliceNode(NodeAttrs(g.name, fileProps, RenameTimesSpec(g.properties, PartStartName, PartEndName).0, asText),
                                      SliceDatasets(Dispatch(ShortNames(g.channels), g.channels).value))))
  {
  }

  /** The exceptions of one part, in the order the code meets them. An
      exception raised after the `chdir` leaves the working directory in the
      part's folder; a missing area column leaves the new group behind with
      its attributes and no dataset. */
  lemma HdfPartFailures(st: Hdf5State, fileProps: PropertyBag, g: TdmsGroup, counter: int,
                        dests: map<string, string>, asText: Timestamp -> string)
    ensures var (out, err) := HdfPartSpec(st, fileProps, g, counter, dests, asText);
            var d := Dispatch(ShortNames(g.channels), g.channels);
            var timed := HasKey(g.properties, StartTimeKey) && HasKey(g.properties, EndTimeKey);
            var key := IntToString(counter);
            && (!HasKey(g.properties, StartTimeKey) ==> err == Some(MissingKey(StartTimeKey)) && out == st)
            && (HasKey(g.properties, StartTimeKey) && !HasKey(g.properties, EndTimeKey) ==> err == Some(MissingKey(EndTimeKey)) && out == st)
            && (timed && d.Err? ==> err == Some(d.error) && out == st)
            && (timed && d.Ok? && g.name !in dests ==> err == Some(MissingKey(g.name)) && out == st)
            && ((timed && d.Ok? && g.name in dests && HasNode(st, dests[g.name], key)) ==>
                  err == Some(NodeExists(g.name, key)) && out.files == st.files && out.cwd == WorkingDir(dests[g.name]))
            && ((timed && d.Ok? && g.name in dests && !HasNode(st, dests[g.name], key) && d.value[AreaSlot].Unset?) ==>
                  err == Some(AreaNotArray) && out.cwd == WorkingDir(dests[g.name])
                  && HasNode(out, dests[g.name], key) && out.files[dests[g.name]][key].datasets == map[])
  {
    RenameTimesEffect(g.properties, PartStartName, PartEndName, StartTimeKey);
  }

  // ----- the run -----

  /** `b` keeps every file and every group of `a`. */
  predicate Grows(a: Hdf5State, b: Hdf5State) {
    forall loc | loc in a.files :: loc in b.files && a.files[loc].Keys <= b.files[loc].Keys
  }

  lemma HdfPartKeys(st: Hdf5State, fileProps: PropertyBag, g: TdmsGroup, counter: int,
                    dests: map<string, string>, asText: Timestamp -> string)
    requires HdfPartSpec(st, fileProps, g, counter, dests, asText).1.None?
    ensures var out := HdfPartSpec(st, fileProps, g, counter, dests, asText).0;
            && Grows(st, out) && out.cwd == st.cwd
            && g.name in dests && HasNode(out, dests[g.name], IntToString(counter))
  {
    HdfPartWrites(st, fileProps, g, counter, dests, asText);
    var node :| HdfPartSpec(st, fileProps, g, counter, dests, asText).0
                == st.(files := AddNode(st.files, dests[g.name], IntToString(counter), node));
    AddNodeFrame(st.files, dests[g.name], IntToString(counter), node);
  }

  /** A successful part loop keeps every group and working directory, and
      leaves the slice's group in the file of every part. */
  lemma {:induction false} HdfPartsKeys(st: Hdf5State, fileProps: PropertyBag, gs: seq<TdmsGroup>, counter: int,
                                        dests: map<string, string>, asText: Timestamp -> string)
    requires HdfPartsSpec(st, fileProps, gs, counter, dests, asText).1.None?
    ensures var out := HdfPartsSpec(st, fileProps, gs, counter, dests, asText).0;
            && Grows(st, out) && out.cwd == st.cwd
            && forall g | g in gs :: g.name in dests && HasNode(out, dests[g.name], IntToString(counter))
    decreases |gs|
  {
    if gs != [] {
      var (st1, e) := HdfPartSpec(st, fileProps, gs[0], counter, dests, asText);
      HdfPartKeys(st, fileProps, gs[0], counter, dests, asText);
      HdfPartsKeys(st1, fileProps, gs[1..], counter, dests, asText);
      forall g | g in gs ensures g == gs[0] || g in gs[1..] {
        var i :| 0 <= i < |gs| && gs[i] == g;
        if i > 0 {
          assert gs[1..][i - 1] == g;
        }
      }
    }
  }

  /** A successful run over processed objects keeps every earlier group and
      the working directory, and leaves, for object `k` and each of its
      parts, the group named after slice `counter + k` in the part's file. */
  lemma {:induction false} HdfFoldNodes(step: (Hdf5State, TdmsFile, int) -> (Hdf5State, Option<Error>),
                                        st: Hdf5State, objs: seq<TdmsFile>, counter: int,
                                        dests: map<string, string>, asText: Timestamp -> string)
    requires RunsObjects(step, dests, asText)
    requires Fold(step, st, objs, counter).1.None?
    ensures var out := Fold(step, st, objs, counter).0;
            && Grows(st, out) && out.cwd == st.cwd
            && forall k, g | 0 <= k < |objs| && g in objs[k].groups ::
                 g.name in dests && HasNode(out, dests[g.name], IntToString(counter + k))
    decreases |objs|
  {
    if objs != [] {
      var (st1, e) := step(st, objs[0], counter);
      assert (st1, e) == HdfObjectSpec(st, objs[0], counter, dests, asText);
      HdfObjectKeys(st, objs[0], counter, dests, asText);
      HdfFoldNodes(step, st1, objs[1..], counter + 1, dests, asText);
      NodesCons(st, st1, Fold(step, st, objs, counter).0, objs, counter, dests);
    }
  }

  lemma HdfObjectKeys(st: Hdf5State, t: TdmsFile, counter: int, dests: map<string, string>, asText: Timestamp -> string)
    requires HdfObjectSpec(st, t, counter, dests, asText).1.None?
    ensures var out := HdfObjectSpec(st, t, counter, dests, asText).0;
            && Grows(st, out) && out.cwd == st.cwd
            && forall g | g in t.groups :: g.name in dests && HasNode(out, dests[g.name], IntToString(counter))
  {
    var fileProps := RenameTimesSpec(t.properties, LayerStartName, LayerEndName).0;
    HdfPartsKeys(st, fileProps, t.groups, counter, dests, asText);
  }

  /** The groups of the first object, then those of the others. */
  lemma NodesCons(st: Hdf5State, st1: Hdf5State, out: Hdf5State, objs: seq<TdmsFile>, counter: int, dests: map<string, string>)
    requires objs != []
    requires Grows(st, st1) && st1.cwd == st.cwd
    requires forall g | g in objs[0].groups :: g.name in dests && HasNode(st1, dests[g.name], IntToString(counter))
    requires Grows(st1, out) && out.cwd == st1.cwd
    requires forall k, g | 0 <= k < |objs[1..]| && g in objs[1..][k].groups ::
               g.name in dests && HasNode(out, dests[g.name], IntToString(counter + 1 + k))
    ensures Grows(st, out) && out.cwd == st.cwd
    ensures forall k, g | 0 <= k < |objs| && g in objs[k].groups ::
              g.name in dests && HasNode(out, dests[g.name], IntToString(counter + k))
  {
    forall k, g | 0 <= k < |objs| && g in objs[k].groups
      ensures g.name in dests && HasNode(out, dests[g.name], IntToString(counter + k))
    {
      if k > 0 {
        assert objs[1..][k - 1] == objs[k];
        assert counter + 1 + (k - 1) == counter + k;
      }
    }
  }

  /** A successful `writeFilesHDF5` returns the count of opened layers,
      leaves the working directory as it found it, keeps every group the
      files had, and holds, for every processed object and part, the group
      named after the object's slice counter, counted from `first`. */
  lemma HdfRunNodes(dests: map<string, string>, tdmsFiles: seq<TdmsFile>, numFiles: int, batchSize: int,
                    first: int, existing: map<string, map<string, SliceNode>>, cwd: string, asText: Timestamp -> string)
    requires |tdmsFiles| > 0 && numFiles > 0 && batchSize != 0
    requires HdfRunSpec(dests, tdmsFiles, numFiles, batchSize, first, existing, cwd, asText).1.Ok?
    ensures var (out, r) := HdfRunSpec(dests, tdmsFiles, numFiles, batchSize, first, existing, cwd, asText);
            var objs := Processed(tdmsFiles, numFiles, batchSize);
            && r.value == LayerTotal(|tdmsFiles|, numFiles)
            && out.cwd == cwd && Grows(Hdf5State(existing, cwd), out)
            && forall k, g | 0 <= k < |objs| && g in objs[k].groups ::
                 g.name in dests && HasNode(out, dests[g.name], IntToString(first + k))
  {
    HdfStepRunsObjects(dests, asText);
    HdfFoldNodes(HdfStep(dests, asText), Hdf5State(existing, cwd), Processed(tdmsFiles, numFiles, batchSize), first, dests, asText);
  }

  // ----- the writer -----

  /** `lastSlashIndex = writeFileLocation.rfind("/")`, then the slice up
      to it, where -1 counts from the end. */
  method WorkingDirectory(loc: string) returns (dir: string)
    ensures dir == WorkingDir(loc)
  {
    var lastSlashIndex := LastIndexOf(loc, '/');
    var stop := lastSlashIndex;
    if stop < 0 {
      stop := if |loc| > 0 then |loc| + stop else 0;
    }
    dir := loc[..stop];
  }

  /** The `create_dataset` calls of a slice group whose area column was
      assigned: all six when it has samples, none otherwise. */
  method WriteDatasets(attrs: Attrs, cols: seq<Column>) returns (node: SliceNode)
    requires |cols| == SlotCount && cols[AreaSlot].Data?
    ensures node == SliceNode(attrs, SliceDatasets(cols))
  {
    node := SliceNode(attrs, map[]);
    if |cols[AreaSlot].samples| > 0 {
      var ds := node.datasets;
      ds := ds[AreaName := ColumnSamples(cols[AreaSlot])];
      ds := ds[IntensityName := ColumnSamples(cols[IntensitySlot])];
      ds := ds[LaserName := ColumnSamples(cols[LaserSlot])];
      ds := ds[ParamName := ColumnSamples(cols[ParamSlot])];
      ds := ds[XName := ColumnSamples(cols[XSlot])];
      ds := ds[YName := ColumnSamples(cols[YSlot])];
      node := node.(datasets := ds);
    }
  }

  /** The body of the part loop. */
  method HdfPart(st: Hdf5State, fileProps: PropertyBag, g: TdmsGroup, counter: int,
                 dests: map<string, string>, asText: Timestamp -> string) returns (out: Hdf5State, err: Option<Error>)
    ensures (out, err) == HdfPartSpec(st, fileProps, g, counter, dests, asText)
  {
    var partProperties := new PropertyDict(g.properties);
    err := partProperties.RenameTimes(PartStartName, PartEndName);
    if err.Some? {
      return st, err;
    }
    var names, cols := GatherColumns(g.channels, None);
    if cols.Err? {
      return st, Some(cols.error);
    }
    if g.name !in dests {
      return st, Some(MissingKey(g.name));
    }
    var writeFileLocation := dests[g.name];
    var cwd := st.cwd;
    var targetWD := WorkingDirectory(writeFileLocation);
    out := st.(cwd := targetWD);
    var groupName := IntToString(counter);
    if HasNode(out, writeFileLocation, groupName) {
      return out, Some(NodeExists(g.name, groupName));
    }
    var attrs := WriteProperties(map[GroupNameAttr := BytesValue(g.name)], fileProps, Verbatim, asText);
    attrs := WriteProperties(attrs, partProperties.items, Verbatim, asText);
    if cols.value[AreaSlot].Unset? {
      out := out.(files := AddNode(out.files, writeFileLocation, groupName, SliceNode(attrs, map[])));
      return out, Some(AreaNotArray);
    }
    var node := WriteDatasets(attrs, cols.value);
    out := out.(files := AddNode(out.files, writeFileLocation, groupName, node), cwd := cwd);
    err := None;
  }

  /** The part loop of one processed object. */
  method HdfParts(st: Hdf5State, fileProps: PropertyBag, gs: seq<TdmsGroup>, counter: int,
                  dests: map<string, string>, asText: Timestamp -> string) returns (out: Hdf5State, err: Option<Error>)
    ensures (out, err) == HdfPartsSpec(st, fileProps, gs, counter, dests, asText)
  {
    out := st;
    for i := 0 to |gs|
      invariant HdfPartsSpec(out, fileProps, gs[i..], counter, dests, asText)
                == HdfPartsSpec(st, fileProps, gs, counter, dests, asText)
    {
      assert gs[i..][1..] == gs[i + 1..];
      out, err := HdfPart(out, fileProps, gs[i], counter, dests, asText);
      if err.Some? {
        return;
      }
    }
    err := None;
  }

  /** One object of the flush: its properties renamed in place, then its
      part loop. */
  method HdfObject(st: Hdf5State, t: TdmsFile, counter: int,
                   dests: map<string, string>, asText: Timestamp -> string) returns (out: Hdf5State, err: Option<Error>)
    ensures (out, err) == HdfObjectSpec(st, t, counter, dests, asText)
  {
    var properties := new PropertyDict(t.properties);
    err := properties.RenameTimes(LayerStartName, LayerEndName);
    if err.Some? {
      return st, err;
    }
    out, err := HdfParts(st, properties.items, t.groups, counter, dests, asText);
  }

  /** `step` processes a TDMS object as the object's renaming and part loop do. */
  ghost predicate RunsObjects(step: (Hdf5State, TdmsFile, int) -> (Hdf5State, Option<Error>),
                              dests: map<string, string>, asText: Timestamp -> string) {
    forall st: Hdf5State, t: TdmsFile, counter: int {:trigger HdfObjectSpec(st, t, counter, dests, asText)} ::
      step(st, t, counter) == HdfObjectSpec(st, t, counter, dests, asText)
  }

  lemma HdfStepRunsObjects(dests: map<string, string>, asText: Timestamp -> string)
    ensures RunsObjects(HdfStep(dests, asText), dests, asText)
  {
  }

  lemma RunsObjectsAgree(step: (Hdf5State, TdmsFile, int) -> (Hdf5State, Option<Error>),
                         dests: map<string, string>, asText: Timestamp -> string)
    requires RunsObjects(step, dests, asText)
    ensures forall st, t, c :: step(st, t, c) == HdfStep(dests, asText)(st, t, c)
  {
    forall st: Hdf5State, t: TdmsFile, c: int
      ensures step(st, t, c) == HdfStep(dests, asText)(st, t, c)
    {
      assert HdfStep(dests, asText)(st, t, c) == HdfObjectSpec(st, t, c, dests, asText);
    }
  }

  lemma HdfRunEnds(step: (Hdf5State, TdmsFile, int) -> (Hdf5State, Option<Error>),
                   dests: map<string, string>, asText: Timestamp -> string, existing: map<string, map<string, SliceNode>>,
                   cwd: string, tdmsFiles: seq<TdmsFile>, numFiles: int, batchSize: int, first: int,
                   n: nat, st: Hdf5State, e: Option<Error>)
    requires RunsObjects(step, dests, asText)
    requires |tdmsFiles| > 0 && numFiles > 0 && batchSize != 0 && n <= LayerTotal(|tdmsFiles|, numFiles)
    requires (st, e) == Fold(step, Hdf5State(existing, cwd), Flushed(tdmsFiles, n, numFiles, batchSize), first)
    requires e.Some? || n == LayerTotal(|tdmsFiles|, numFiles)
    ensures HdfRunSpec(dests, tdmsFiles, numFiles, batchSize, first, existing, cwd, asText)
            == (st, if e.Some? then Err(e.value) else Ok(LayerTotal(|tdmsFiles|, numFiles)))
  {
    RunsObjectsAgree(step, dests, asText);
    BatchEnds(step, HdfStep(dests, asText), Hdf5State(existing, cwd), tdmsFiles, numFiles, batchSize, first, n, st, e);
  }

  /** The flush: `for tdms in tdmsObjects`, each object taking the next
      slice counter. */
  method FlushHdf(ghost step: (Hdf5State, TdmsFile, int) -> (Hdf5State, Option<Error>),
                  st: Hdf5State, pending: seq<TdmsFile>, counter: int,
                  dests: map<string, string>, asText: Timestamp -> string)
    returns (out: Hdf5State, last: int, err: Option<Error>)
    requires RunsObjects(step, dests, asText)
    ensures (out, err) == Fold(step, st, pending, counter + 1)
    ensures err.None? ==> last == counter + |pending|
  {
    out, last, err := st, counter, None;
    for k := 0 to |pending|
      invariant (out, None) == Fold(step, st, pending[..k], counter + 1)
      invariant last == counter + k
      invariant err.None?
    {
      ghost var cur := out;
      last := last + 1;
      out, err := HdfObject(out, pending[k], last, dests, asText);
      FoldNext(step, st, pending, k, counter + 1, cur, out, err);
      if err.Some? {
        return;
      }
    }
    assert pending[..|pending|] == pending;
  }

  /** The body of `for file in tdmsFiles`: open the next object, count
      it, and flush the queue when the batch is full or `numFiles` is
      reached. */
  method HdfOpenNext(ghost step: (Hdf5State, TdmsFile, int) -> (Hdf5State, Option<Error>),
                     dests: map<string, string>, asText: Timestamp -> string, init: Hdf5State,
                     tdmsFiles: seq<TdmsFile>, numFiles: int, batchSize: int, first: int, start: nat, f: nat,
                     out0: Hdf5State, pending0: seq<TdmsFile>, counter0: int)
    returns (out: Hdf5State, pending: seq<TdmsFile>, counter: int, err: Option<Error>)
    requires RunsObjects(step, dests, asText)
    requires |tdmsFiles| > 0 && batchSize != 0
    requires Boundary(|tdmsFiles|, start) && f < |tdmsFiles|
    requires (out0, None) == Fold(step, init, Flushed(tdmsFiles, start + f, numFiles, batchSize), first)
    requires pending0 == Pending(tdmsFiles, start + f, numFiles, batchSize)
    requires counter0 == first - 1 + |Flushed(tdmsFiles, start + f, numFiles, batchSize)|
    ensures (out, err) == Fold(step, init, Flushed(tdmsFiles, start + f + 1, numFiles, batchSize), first)
    ensures err.None? ==> pending == Pending(tdmsFiles, start + f + 1, numFiles, batchSize)
    ensures err.None? ==> counter == first - 1 + |Flushed(tdmsFiles, start + f + 1, numFiles, batchSize)|
  {
    out, counter, err := out0, counter0, None;
    pending := pending0 + [tdmsFiles[f]];
    BatchOpen(step, init, tdmsFiles, numFiles, batchSize, first, start, f, out0, pending, counter0);
    if FlushAt(start + f + 1, numFiles, batchSize) {
      out, counter, err := FlushHdf(step, out, pending, counter, dests, asText);
      pending := [];
    }
  }

  /** One pass of `for file in tdmsFiles`, from `start` opened layers,
      up to the first exception. */
  method HdfPass(ghost step: (Hdf5State, TdmsFile, int) -> (Hdf5State, Option<Error>),
                 dests: map<string, string>, asText: Timestamp -> string, init: Hdf5State,
                 tdmsFiles: seq<TdmsFile>, numFiles: int, batchSize: int, first: int, start: nat,
                 out0: Hdf5State, pending0: seq<TdmsFile>, counter0: int)
    returns (out: Hdf5State, pending: seq<TdmsFile>, counter: int, numLayers: nat, err: Option<Error>)
    requires RunsObjects(step, dests, asText)
    requires |tdmsFiles| > 0 && batchSize != 0 && Boundary(|tdmsFiles|, start)
    requires (out0, None) == Fold(step, init, Flushed(tdmsFiles, start, numFiles, batchSize), first)
    requires pending0 == Pending(tdmsFiles, start, numFiles, batchSize)
    requires counter0 == first - 1 + |Flushed(tdmsFiles, start, numFiles, batchSize)|
    ensures start < numLayers <= start + |tdmsFiles|
    ensures (out, err) == Fold(step, init, Flushed(tdmsFiles, numLayers, numFiles, batchSize), first)
    ensures err.None? ==> numLayers == start + |tdmsFiles|
    ensures err.None? ==> pending == Pending(tdmsFiles, numLayers, numFiles, batchSize)
    ensures err.None? ==> counter == first - 1 + |Flushed(tdmsFiles, numLayers, numFiles, batchSize)|
  {
    out, pending, counter, numLayers, err := out0, pending0, counter0, start, None;
    for f := 0 to |tdmsFiles|
      invariant numLayers == start + f
      invariant pending == Pending(tdmsFiles, numLayers, numFiles, batchSize)
      invariant (out, None) == Fold(step, init, Flushed(tdmsFiles, numLayers, numFiles, batchSize), first)
      invariant counter == first - 1 + |Flushed(tdmsFiles, numLayers, numFiles, batchSize)|
      invariant err.None?
    {
      out, pending, counter, err := HdfOpenNext(step, dests, asText, init, tdmsFiles, numFiles, batchSize, first,
                                                start, f, out, pending, counter);
      numLayers := numLayers + 1;
      if err.Some? {
        return;
      }
    }
  }

  /** `while numLayers < numFiles: for file in tdmsFiles: ...`, up to the
      first exception: the objects opened so far, and the flushed ones
      processed. */
  method HdfLayers(ghost step: (Hdf5State, TdmsFile, int) -> (Hdf5State, Option<Error>),
                   dests: map<string, string>, asText: Timestamp -> string, init: Hdf5State,
                   tdmsFiles: seq<TdmsFile>, numFiles: int, batchSize: int, first: int)
    returns (out: Hdf5State, numLayers: nat, err: Option<Error>)
    requires RunsObjects(step, dests, asText)
    requires |tdmsFiles| > 0 && numFiles > 0 && batchSize != 0
    ensures numLayers <= LayerTotal(|tdmsFiles|, numFiles)
    ensures (out, err) == Fold(step, init, Flushed(tdmsFiles, numLayers, numFiles, batchSize), first)
    ensures err.None? ==> numLayers == LayerTotal(|tdmsFiles|, numFiles)
  {
    out, numLayers, err := init, 0, None;
    var pending: seq<TdmsFile> := [];
    var counter := first - 1;
    var total := LayerTotal(|tdmsFiles|, numFiles);
    while numLayers < numFiles
      invariant Boundary(|tdmsFiles|, numLayers)
      invariant Passes(|tdmsFiles|, numFiles, numLayers) == total
      invariant pending == Pending(tdmsFiles, numLayers, numFiles, batchSize)
      invariant (out, None) == Fold(step, init, Flushed(tdmsFiles, numLayers, numFiles, batchSize), first)
      invariant counter == first - 1 + |Flushed(tdmsFiles, numLayers, numFiles, batchSize)|
      invariant err.None?
      decreases numFiles - numLayers
    {
      var start := numLayers;
      assert Passes(|tdmsFiles|, numFiles, start + |tdmsFiles|) == total;
      out, pending, counter, numLayers, err := HdfPass(step, dests, asText, init, tdmsFiles, numFiles, batchSize, first,
                                                     start, out, pending, counter);
      if err.Some? {
        return;
      }
      assert Boundary(|tdmsFiles|, numLayers) by {
        assert numLayers - |tdmsFiles| == start;
      }
    }
  }

  /** `writeFilesHDF5(destinationDictionary, tdmsFiles, ..., numFiles,
      batchSize, firstSliceNum)`, with the listing's TDMS objects given as
      read, the files as they were before and the working directory. */
  method WriteFilesHdf5(dests: map<string, string>, tdmsFiles: seq<TdmsFile>, numFiles: int, batchSize: int,
                        first: int, existing: map<string, map<string, SliceNode>>, cwd: string,
                        asText: Timestamp -> string)
    returns (out: Hdf5State, r: Result<nat>)
    requires |tdmsFiles| > 0 || numFiles <= 0
    ensures (out, r) == HdfRunSpec(dests, tdmsFiles, numFiles, batchSize, first, existing, cwd, asText)
  {
    out := Hdf5State(existing, cwd);
    if numFiles <= 0 {
      return out, Ok(0);
    }
    if batchSize == 0 {
      return out, Err(ZeroBatchSize);
    }
    HdfStepRunsObjects(dests, asText);
    ghost var step: (Hdf5State, TdmsFile, int) -> (Hdf5State, Option<Error>) :| RunsObjects(step, dests, asText);
    var numLayers, err;
    out, numLayers, err := HdfLayers(step, dests, asText, out, tdmsFiles, numFiles, batchSize, first);
    HdfRunEnds(step, dests, asText, existing, cwd, tdmsFiles, numFiles, batchSize, first, numLayers, out, err);
    if err.Some? {
      return out, Err(err.value);
    }
    return out, Ok(numLayers);
  }
}
