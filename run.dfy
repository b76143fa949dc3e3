/** What one call of `tdms2h5` does, as functions of its inputs: the state
    after each converted file, the finalisation of every container, and the
    closing of every handle when the `ExitStack` block is left. */
module Run {
  import opened Common
  import opened Discovery
  import opened Attributes
  import opened Container

  /** The converter's variables: `h5_files` (its keys in insertion order) and
      `slice_indices`. */
  datatype RunState = RunState(files: map<string, H5File>, order: seq<string>, sliceIndices: seq<nat>)

  const Start: RunState := RunState(map[], [], [])

  /** One input file: the path the directory listing gave and its content. */
  datatype InputFile = InputFile(path: string, content: TdmsFile)

  /** What a call leaves behind: every container (closed), their creation
      order, and the exception that ended the call, if any. */
  datatype Outcome = Outcome(files: map<string, H5File>, order: seq<string>, error: Option<Error>)

  /** The group filter: no list (or an empty one) keeps every group. */
  predicate Selected(groups: seq<string>, name: string) {
    |groups| == 0 || name in groups
  }

  /** `order` lists the containers exactly once each. */
  predicate Registry(st: RunState) {
    && (forall k | k in st.files :: k in st.order)
    && (forall i | 0 <= i < |st.order| :: st.order[i] in st.files)
    && (forall i, j | 0 <= i < j < |st.order| :: st.order[i] != st.order[j])
  }

  /** Every container carries the stamps of its creation. */
  predicate Stamped(files: map<string, H5File>) {
    forall k | k in files ::
      && VersionKey in files[k].attrs && files[k].attrs[VersionKey] == IntValue(FileVersion)
      && GroupNameKey in files[k].slicesAttrs && files[k].slicesAttrs[GroupNameKey] == TextValue(k)
  }

  predicate AllOpen(files: map<string, H5File>) {
    forall k | k in files :: files[k].isOpen
  }

  /** What holds of the state between two files of a run. */
  predicate Invariant(st: RunState, groups: seq<string>) {
    && Registry(st) && Stamped(st.files) && AllOpen(st.files)
    && (forall k | k in st.files :: Selected(groups, k))
  }

  /** One pass of the group loop body: the container on first encounter,
      then the node `Slices/<key>` with its attributes and datasets. */
  function WriteGroupSpec(st: RunState, key: string, fileProps: PropertyBag, g: TdmsGroup,
                          asText: Timestamp -> string): (r: (RunState, Option<Error>))
    ensures r.0.sliceIndices == st.sliceIndices
    ensures r.1.None? || r.1.value.NodeExists? || r.1.value.DatasetExists?
  {
    var st1 := if g.name in st.files then st
               else st.(files := st.files[g.name := NewFile(g.name)], order := st.order + [g.name]);
    var f := st1.files[g.name];
    if key in f.nodes then (st1, Some(NodeExists(g.name, key)))
    else
      var (ds, err) := CopyChannels(map[], g.channels);
      var node := SliceNode(NodeAttributes(fileProps, g.properties, asText), ds);
      (st1.(files := st1.files[g.name := f.(nodes := f.nodes[key := node])]), err)
  }

  /** One group creates its container (stamped and open) on first encounter
      and leaves every other container as it was; an existing node `key`
      is an error that changes nothing. */
  lemma WriteGroupContainers(st: RunState, key: string, fileProps: PropertyBag, g: TdmsGroup,
                             asText: Timestamp -> string)
    ensures var r := WriteGroupSpec(st, key, fileProps, g, asText);
            && g.name in r.0.files
            && (forall k | k in r.0.files :: k in st.files || k == g.name)
            && (forall k | k in st.files && k != g.name :: k in r.0.files && r.0.files[k] == st.files[k])
            && (g.name in st.files ==> && r.0.order == st.order
                                       && r.0.files[g.name].attrs == st.files[g.name].attrs
                                       && r.0.files[g.name].slicesAttrs == st.files[g.name].slicesAttrs
                                       && r.0.files[g.name].isOpen == st.files[g.name].isOpen)
            && (g.name !in st.files ==> && r.0.order == st.order + [g.name]
                                        && r.0.files[g.name].attrs == NewFile(g.name).attrs
                                        && r.0.files[g.name].slicesAttrs == NewFile(g.name).slicesAttrs
                                        && r.0.files[g.name].isOpen)
            && (g.name in st.files && key in st.files[g.name].nodes ==> r == (st, Some(NodeExists(g.name, key))))
  {
  }

  /** Inside the group's container only the node `key` can appear, and the
      call succeeds exactly when that node is new and the channel names are
      distinct; the node then holds the renamed attributes and one dataset
      per channel with its samples. */
  lemma WriteGroupNodes(st: RunState, key: string, fileProps: PropertyBag, g: TdmsGroup,
                        asText: Timestamp -> string)
    ensures var r := WriteGroupSpec(st, key, fileProps, g, asText);
            && g.name in r.0.files
            && (r.1.None? <==> (g.name !in st.files || key !in st.files[g.name].nodes) && DistinctNames(g.channels))
            && (g.name in st.files ==> forall k | k in st.files[g.name].nodes ::
                                         k in r.0.files[g.name].nodes && r.0.files[g.name].nodes[k] == st.files[g.name].nodes[k])
            && (forall k | k in r.0.files[g.name].nodes :: k == key || (g.name in st.files && k in st.files[g.name].nodes))
    ensures var r := WriteGroupSpec(st, key, fileProps, g, asText);
            r.1.None? ==> && key in r.0.files[g.name].nodes
                          && r.0.files[g.name].nodes[key].attrs == NodeAttributes(fileProps, g.properties, asText)
                          && forall i | 0 <= i < |g.channels| ::
                               && g.channels[i].name in r.0.files[g.name].nodes[key].datasets
                               && r.0.files[g.name].nodes[key].datasets[g.channels[i].name] == g.channels[i].data
  {
    CopyChannelsSucceeds(map[], g.channels);
    if CopyChannels(map[], g.channels).1.None? {
      CopyChannelsContents(map[], g.channels);
    }
  }

  /** The group loop of one file: excluded groups are skipped, the first
      error ends the loop. */
  function WriteGroupsSpec(st: RunState, key: string, fileProps: PropertyBag, gs: seq<TdmsGroup>,
                           groups: seq<string>, asText: Timestamp -> string): (r: (RunState, Option<Error>))
    ensures r.1.None? || r.1.value.NodeExists? || r.1.value.DatasetExists?
    decreases |gs|
  {
    if gs == [] then (st, None)
    else if !Selected(groups, gs[0].name) then WriteGroupsSpec(st, key, fileProps, gs[1..], groups, asText)
    else
      var (st1, err) := WriteGroupSpec(st, key, fileProps, gs[0], asText);
      if err.Some? then (st1, err) else WriteGroupsSpec(st1, key, fileProps, gs[1..], groups, asText)
  }

  /** What the file loop makes of a path: skipped by the file pattern,
      selected without a slice number in its stem, or selected with one. */
  datatype Listing = Skipped | Unnumbered | Numbered(index: nat)

  function Classify(path: string): Listing {
    if !SelectsPath(path) then Skipped
    else match SliceIndexOfPath(path)
      case None => Unnumbered
      case Some(index) => Numbered(index)
  }

  /** One iteration of the file loop: skip a path the file pattern does not
      select; otherwise record its slice number, then write its groups. */
  function ConvertFileSpec(st: RunState, input: InputFile, groups: seq<string>,
                           asText: Timestamp -> string): (r: (RunState, Option<Error>))
    ensures r.1.None? || r.1.value.NodeExists? || r.1.value.DatasetExists? || r.1.value.NoSliceNumber?
  {
    match Classify(input.path)
    case Skipped => (st, None)
    case Unnumbered => (st, Some(NoSliceNumber(input.path)))
    case Numbered(index) =>
        WriteGroupsSpec(st.(sliceIndices := st.sliceIndices + [index]), NodeKey(index),
                        input.content.properties, input.content.groups, groups, asText)
  }

  /** On a numbered path the file loop body is the group loop on the state
      with the slice number appended. */
  lemma ConvertNumbered(st: RunState, input: InputFile, groups: seq<string>, asText: Timestamp -> string, index: nat)
    requires Classify(input.path) == Numbered(index)
    ensures ConvertFileSpec(st, input, groups, asText)
            == WriteGroupsSpec(st.(sliceIndices := st.sliceIndices + [index]), NodeKey(index),
                               input.content.properties, input.content.groups, groups, asText)
  {
  }

  /** The file loop; the first error ends the call. */
  function ConvertAllSpec(st: RunState, inputs: seq<InputFile>, groups: seq<string>,
                          asText: Timestamp -> string): (r: (RunState, Option<Error>))
    requires Invariant(st, groups)
    ensures Invariant(r.0, groups)
    ensures r.1.None? || r.1.value.NodeExists? || r.1.value.DatasetExists? || r.1.value.NoSliceNumber?
    decreases |inputs|
  {
    if inputs == [] then (st, None)
    else
      var (st1, err) := ConvertFileSpec(st, inputs[0], groups, asText);
      ConvertFileInvariant(st, inputs[0], groups, asText);
      if err.Some? then (st1, err) else ConvertAllSpec(st1, inputs[1..], groups, asText)
  }

  /** The finalisation loop over the containers, in creation order. */
  function FinaliseAllSpec(files: map<string, H5File>, names: seq<string>, indices: seq<nat>,
                           conv: Conversions): (r: (map<string, H5File>, Option<Error>))
    requires forall i | 0 <= i < |names| :: names[i] in files
    ensures r.0.Keys == files.Keys
    decreases |names|
  {
    if names == [] then (files, None)
    else
      var (f, err) := Finalise(names[0], files[names[0]], indices, conv);
      var files1 := files[names[0] := f];
      if err.Some? then (files1, err) else FinaliseAllSpec(files1, names[1..], indices, conv)
  }

  /** One step of the finalisation loop. */
  lemma FinaliseAllStep(files: map<string, H5File>, names: seq<string>, indices: seq<nat>, conv: Conversions)
    requires names != [] && forall i | 0 <= i < |names| :: names[i] in files
    ensures var (f, err) := Finalise(names[0], files[names[0]], indices, conv);
            && (err.Some? ==> FinaliseAllSpec(files, names, indices, conv) == (files[names[0] := f], err))
            && (err.None? ==> FinaliseAllSpec(files, names, indices, conv)
                               == FinaliseAllSpec(files[names[0] := f], names[1..], indices, conv))
  {
  }

  /** Leaving the `ExitStack` block closes every container. */
  function CloseAll(files: map<string, H5File>): (r: map<string, H5File>)
    ensures r.Keys == files.Keys
    ensures forall k | k in r :: !r[k].isOpen && r[k] == files[k].(isOpen := false)
  {
    map k | k in files :: files[k].(isOpen := false)
  }

  /** One call of `tdms2h5` on the listed files. */
  function RunSpec(inputs: seq<InputFile>, groups: seq<string>, conv: Conversions): Outcome {
    Finish(ConvertAllSpec(Start, inputs, groups, conv.asText), conv)
  }

  /** After the file loop: finalisation when it succeeded, then closing. */
  function Finish(converted: (RunState, Option<Error>), conv: Conversions): Outcome
    requires Registry(converted.0)
  {
    var st := converted.0;
    if converted.1.Some? then Outcome(CloseAll(st.files), st.order, converted.1)
    else
      var (files, err) := FinaliseAllSpec(st.files, st.order, st.sliceIndices, conv);
      Outcome(CloseAll(files), st.order, err)
  }

  // ----- the group loop -----

  lemma AppendAssoc<T>(a: seq<T>, b: seq<T>, c: seq<T>)
    ensures a + b + c == a + (b + c)
  {
  }

  /** The names of the groups of a file that pass the filter. */
  function SelectedNames(gs: seq<TdmsGroup>, groups: seq<string>): set<string> {
    set i | 0 <= i < |gs| && Selected(groups, gs[i].name) :: gs[i].name
  }

  lemma SelectedNamesCons(gs: seq<TdmsGroup>, groups: seq<string>)
    requires gs != []
    ensures SelectedNames(gs, groups)
            == (if Selected(groups, gs[0].name) then {gs[0].name} else {}) + SelectedNames(gs[1..], groups)
  {
    var rest := gs[1..];
    forall n | n in SelectedNames(gs, groups)
      ensures n in (if Selected(groups, gs[0].name) then {gs[0].name} else {}) + SelectedNames(rest, groups)
    {
      var i :| 0 <= i < |gs| && Selected(groups, gs[i].name) && gs[i].name == n;
      if i > 0 { assert rest[i - 1] == gs[i]; }
    }
    forall n | n in SelectedNames(rest, groups) ensures n in SelectedNames(gs, groups) {
      var i :| 0 <= i < |rest| && Selected(groups, rest[i].name) && rest[i].name == n;
      assert gs[i + 1] == rest[i];
    }
  }

  /** The group loop keeps the invariant and the slice list. */
  lemma {:induction false} WriteGroupsInvariant(st: RunState, key: string, fileProps: PropertyBag, gs: seq<TdmsGroup>,
                                                groups: seq<string>, asText: Timestamp -> string)
    requires Invariant(st, groups)
    ensures Invariant(WriteGroupsSpec(st, key, fileProps, gs, groups, asText).0, groups)
    decreases |gs|
  {
    if gs != [] {
      if !Selected(groups, gs[0].name) {
        WriteGroupsInvariant(st, key, fileProps, gs[1..], groups, asText);
      } else {
        WriteGroupInvariant(st, key, fileProps, gs[0], groups, asText);
        var (st1, err) := WriteGroupSpec(st, key, fileProps, gs[0], asText);
        if err.None? {
          WriteGroupsInvariant(st1, key, fileProps, gs[1..], groups, asText);
        }
      }
    }
  }

  /** The group loop leaves the slice list alone. */
  lemma {:induction false} WriteGroupsIndices(st: RunState, key: string, fileProps: PropertyBag, gs: seq<TdmsGroup>,
                                              groups: seq<string>, asText: Timestamp -> string)
    ensures WriteGroupsSpec(st, key, fileProps, gs, groups, asText).0.sliceIndices == st.sliceIndices
    decreases |gs|
  {
    if gs != [] {
      if !Selected(groups, gs[0].name) {
        WriteGroupsIndices(st, key, fileProps, gs[1..], groups, asText);
      } else {
        var (st1, err) := WriteGroupSpec(st, key, fileProps, gs[0], asText);
        if err.None? {
          WriteGroupsIndices(st1, key, fileProps, gs[1..], groups, asText);
        }
      }
    }
  }

  /** The group loop creates containers only for the file's selected groups,
      leaves every other container as it was, and only adds nodes. */
  lemma WriteGroupsFrame(st: RunState, key: string, fileProps: PropertyBag, gs: seq<TdmsGroup>,
                         groups: seq<string>, asText: Timestamp -> string)
    ensures var r := WriteGroupsSpec(st, key, fileProps, gs, groups, asText).0;
            && r.files.Keys <= st.files.Keys + SelectedNames(gs, groups)
            && (forall k | k in st.files :: k in r.files && st.files[k].nodes.Keys <= r.files[k].nodes.Keys)
            && (forall k | k in st.files && k !in SelectedNames(gs, groups) :: k in r.files && r.files[k] == st.files[k])
            && (forall k | k in r.files :: r.files[k].nodes.Keys <= (if k in st.files then st.files[k].nodes.Keys else {}) + {key})
  {
    var r := WriteGroupsSpec(st, key, fileProps, gs, groups, asText).0;
    var names := SelectedNames(gs, groups);
    forall k | k in r.files
      ensures k in st.files.Keys + names
      ensures r.files[k].nodes.Keys <= (if k in st.files then st.files[k].nodes.Keys else {}) + {key}
    {
      WriteGroupsFrameAt(st, key, fileProps, gs, groups, asText, k);
    }
    forall k | k in st.files
      ensures k in r.files && st.files[k].nodes.Keys <= r.files[k].nodes.Keys
      ensures k !in names ==> k in r.files && r.files[k] == st.files[k]
    {
      WriteGroupsFrameAt(st, key, fileProps, gs, groups, asText, k);
    }
  }

  /** What the group loop leaves of container `k`, for `names` the selected
      groups and `key` the node it writes. */
  predicate FrameAt(st: RunState, r: RunState, k: string, names: set<string>, key: string) {
    && (k in r.files ==> k in st.files || k in names)
    && (k in st.files ==> k in r.files && st.files[k].nodes.Keys <= r.files[k].nodes.Keys)
    && (k in st.files && k !in names ==> k in r.files && r.files[k] == st.files[k])
    && (k in r.files ==> r.files[k].nodes.Keys <= (if k in st.files then st.files[k].nodes.Keys else {}) + {key})
  }

  lemma {:induction false} WriteGroupsFrameAt(st: RunState, key: string, fileProps: PropertyBag, gs: seq<TdmsGroup>,
                                              groups: seq<string>, asText: Timestamp -> string, k: string)
    ensures FrameAt(st, WriteGroupsSpec(st, key, fileProps, gs, groups, asText).0, k, SelectedNames(gs, groups), key)
    decreases |gs|
  {
    if gs != [] {
      SelectedNamesCons(gs, groups);
      if !Selected(groups, gs[0].name) {
        WriteGroupsFrameAt(st, key, fileProps, gs[1..], groups, asText, k);
      } else {
        WriteGroupContainers(st, key, fileProps, gs[0], asText);
        WriteGroupNodes(st, key, fileProps, gs[0], asText);
        var (st1, err) := WriteGroupSpec(st, key, fileProps, gs[0], asText);
        if err.None? {
          WriteGroupsFrameAt(st1, key, fileProps, gs[1..], groups, asText, k);
        }
      }
    }
  }

  /** A group loop that succeeds gives every selected group of the file a
      container holding the node `key`. */
  lemma WriteGroupsComplete(st: RunState, key: string, fileProps: PropertyBag, gs: seq<TdmsGroup>,
                            groups: seq<string>, asText: Timestamp -> string)
    requires WriteGroupsSpec(st, key, fileProps, gs, groups, asText).1.None?
    ensures var r := WriteGroupsSpec(st, key, fileProps, gs, groups, asText).0;
            && r.files.Keys == st.files.Keys + SelectedNames(gs, groups)
            && forall k | k in SelectedNames(gs, groups) :: k in r.files && key in r.files[k].nodes
  {
    var r := WriteGroupsSpec(st, key, fileProps, gs, groups, asText).0;
    var names := SelectedNames(gs, groups);
    forall k | k in r.files ensures k in st.files.Keys + names {
      WriteGroupsCompleteAt(st, key, fileProps, gs, groups, asText, k);
    }
    forall k | k in st.files.Keys + names ensures k in r.files {
      WriteGroupsCompleteAt(st, key, fileProps, gs, groups, asText, k);
    }
    forall k | k in names ensures k in r.files && key in r.files[k].nodes {
      WriteGroupsCompleteAt(st, key, fileProps, gs, groups, asText, k);
    }
  }

  /** Container `k` after a successful group loop. */
  predicate CompleteAt(st: RunState, r: RunState, k: string, names: set<string>, key: string) {
    && (k in r.files <==> k in st.files || k in names)
    && (k in names ==> k in r.files && key in r.files[k].nodes)
  }

  lemma {:induction false} WriteGroupsCompleteAt(st: RunState, key: string, fileProps: PropertyBag, gs: seq<TdmsGroup>,
                                                 groups: seq<string>, asText: Timestamp -> string, k: string)
    requires WriteGroupsSpec(st, key, fileProps, gs, groups, asText).1.None?
    ensures CompleteAt(st, WriteGroupsSpec(st, key, fileProps, gs, groups, asText).0, k, SelectedNames(gs, groups), key)
    decreases |gs|
  {
    if gs != [] {
      SelectedNamesCons(gs, groups);
      if !Selected(groups, gs[0].name) {
        WriteGroupsCompleteAt(st, key, fileProps, gs[1..], groups, asText, k);
      } else {
        WriteGroupContainers(st, key, fileProps, gs[0], asText);
        WriteGroupNodes(st, key, fileProps, gs[0], asText);
        var st1 := WriteGroupSpec(st, key, fileProps, gs[0], asText).0;
        WriteGroupsCompleteAt(st1, key, fileProps, gs[1..], groups, asText, k);
        WriteGroupsFrameAt(st1, key, fileProps, gs[1..], groups, asText, k);
      }
    }
  }

  /** Writing one selected group keeps the invariant. */
  lemma WriteGroupInvariant(st: RunState, key: string, fileProps: PropertyBag, g: TdmsGroup,
                            groups: seq<string>, asText: Timestamp -> string)
    requires Invariant(st, groups) && Selected(groups, g.name)
    ensures Invariant(WriteGroupSpec(st, key, fileProps, g, asText).0, groups)
  {
    var r := WriteGroupSpec(st, key, fileProps, g, asText).0;
    WriteGroupContainers(st, key, fileProps, g, asText);
    WriteGroupRegistry(st, key, fileProps, g, asText);
    assert Stamped(r.files) by {
      forall k | k in r.files
        ensures && VersionKey in r.files[k].attrs && r.files[k].attrs[VersionKey] == IntValue(FileVersion)
                && GroupNameKey in r.files[k].slicesAttrs && r.files[k].slicesAttrs[GroupNameKey] == TextValue(k)
      {
        if k != g.name { assert r.files[k] == st.files[k]; }
      }
    }
  }

  lemma WriteGroupRegistry(st: RunState, key: string, fileProps: PropertyBag, g: TdmsGroup, asText: Timestamp -> string)
    requires Registry(st)
    ensures Registry(WriteGroupSpec(st, key, fileProps, g, asText).0)
  {
    WriteGroupContainers(st, key, fileProps, g, asText);
    if g.name !in st.files {
      assert forall i | 0 <= i < |st.order| :: st.order[i] != g.name;
    }
  }

  /** One file keeps the invariant. */
  lemma ConvertFileInvariant(st: RunState, input: InputFile, groups: seq<string>, asText: Timestamp -> string)
    requires Invariant(st, groups)
    ensures Invariant(ConvertFileSpec(st, input, groups, asText).0, groups)
  {
    if Classify(input.path).Numbered? {
      var index := Classify(input.path).index;
      WriteGroupsInvariant(st.(sliceIndices := st.sliceIndices + [index]), NodeKey(index),
                           input.content.properties, input.content.groups, groups, asText);
    }
  }

  // ----- the file loop -----

  /** The slice numbers of the selected files, in listing order. */
  function ListedIndices(inputs: seq<InputFile>): seq<nat>
    decreases |inputs|
  {
    if inputs == [] then []
    else
      (if Classify(inputs[0].path).Numbered? then [Classify(inputs[0].path).index] else [])
        + ListedIndices(inputs[1..])
  }

  /** The groups that pass the filter in the selected files. */
  function ProcessedNames(inputs: seq<InputFile>, groups: seq<string>): set<string>
    decreases |inputs|
  {
    if inputs == [] then {}
    else
      (if Classify(inputs[0].path).Numbered? then SelectedNames(inputs[0].content.groups, groups) else {})
        + ProcessedNames(inputs[1..], groups)
  }

  /** One file appends its slice number (when it is selected and has one)
      whatever its groups and whatever the group loop does. */
  lemma ConvertFileIndices(st: RunState, input: InputFile, groups: seq<string>, asText: Timestamp -> string)
    ensures ConvertFileSpec(st, input, groups, asText).0.sliceIndices
              == st.sliceIndices + (if Classify(input.path).Numbered? then [Classify(input.path).index] else [])
  {
    if Classify(input.path).Numbered? {
      var index := Classify(input.path).index;
      var st0 := st.(sliceIndices := st.sliceIndices + [index]);
      assert ConvertFileSpec(st, input, groups, asText)
             == WriteGroupsSpec(st0, NodeKey(index), input.content.properties, input.content.groups, groups, asText);
      WriteGroupsIndices(st0, NodeKey(index), input.content.properties, input.content.groups, groups, asText);
    }
  }

  /** A successful file loop lists every selected file's slice number once,
      in processing order, before and regardless of the group filter. */
  lemma {:induction false} ConvertAllIndices(st: RunState, inputs: seq<InputFile>, groups: seq<string>,
                                             asText: Timestamp -> string)
    requires Invariant(st, groups)
    requires ConvertAllSpec(st, inputs, groups, asText).1.None?
    ensures ConvertAllSpec(st, inputs, groups, asText).0.sliceIndices == st.sliceIndices + ListedIndices(inputs)
    decreases |inputs|
  {
    if inputs != [] {
      var (st1, err) := ConvertFileSpec(st, inputs[0], groups, asText);
      ConvertFileIndices(st, inputs[0], groups, asText);
      ConvertFileInvariant(st, inputs[0], groups, asText);
      ConvertAllIndices(st1, inputs[1..], groups, asText);
      var head := if Classify(inputs[0].path).Numbered? then [Classify(inputs[0].path).index] else [];
      AppendAssoc(st.sliceIndices, head, ListedIndices(inputs[1..]));
    }
  }

  /** One file creates containers only for its selected groups, leaves the
      other containers as they were, and when it succeeds every selected
      group's container holds the file's node. */
  lemma ConvertFileEffect(st: RunState, input: InputFile, groups: seq<string>, asText: Timestamp -> string)
    requires Classify(input.path).Numbered?
    ensures var (r, err) := ConvertFileSpec(st, input, groups, asText);
            var names := SelectedNames(input.content.groups, groups);
            var key := NodeKey(Classify(input.path).index);
            && r.files.Keys <= st.files.Keys + names
            && (forall k | k in st.files && k !in names :: k in r.files && r.files[k] == st.files[k])
            && (forall k | k in r.files :: r.files[k].nodes.Keys <= (if k in st.files then st.files[k].nodes.Keys else {}) + {key})
            && (err.None? ==> r.files.Keys == st.files.Keys + names)
            && (err.None? ==> forall k | k in names :: k in r.files && key in r.files[k].nodes)
  {
    var index := Classify(input.path).index;
    var st0 := st.(sliceIndices := st.sliceIndices + [index]);
    var w := WriteGroupsSpec(st0, NodeKey(index), input.content.properties, input.content.groups, groups, asText);
    assert ConvertFileSpec(st, input, groups, asText) == w;
    WriteGroupsFrame(st0, NodeKey(index), input.content.properties, input.content.groups, groups, asText);
    if w.1.None? {
      WriteGroupsComplete(st0, NodeKey(index), input.content.properties, input.content.groups, groups, asText);
    }
  }

  /** The keys of `h5_files` after a successful file loop are exactly the
      names of the groups that passed the filter in the selected files. */
  lemma {:induction false} ConvertAllKeys(st: RunState, inputs: seq<InputFile>, groups: seq<string>,
                                          asText: Timestamp -> string)
    requires Invariant(st, groups)
    requires ConvertAllSpec(st, inputs, groups, asText).1.None?
    ensures ConvertAllSpec(st, inputs, groups, asText).0.files.Keys == st.files.Keys + ProcessedNames(inputs, groups)
    decreases |inputs|
  {
    if inputs != [] {
      var (st1, err) := ConvertFileSpec(st, inputs[0], groups, asText);
      ConvertFileInvariant(st, inputs[0], groups, asText);
      ConvertFileKeys(st, inputs[0], groups, asText);
      ConvertAllKeys(st1, inputs[1..], groups, asText);
      UnionAssoc(st.files.Keys,
                 if Classify(inputs[0].path).Numbered? then SelectedNames(inputs[0].content.groups, groups) else {},
                 ProcessedNames(inputs[1..], groups));
    }
  }

  lemma ConvertFileKeys(st: RunState, input: InputFile, groups: seq<string>, asText: Timestamp -> string)
    requires ConvertFileSpec(st, input, groups, asText).1.None?
    ensures ConvertFileSpec(st, input, groups, asText).0.files.Keys
              == st.files.Keys + (if Classify(input.path).Numbered? then SelectedNames(input.content.groups, groups) else {})
  {
    if Classify(input.path).Numbered? {
      ConvertFileEffect(st, input, groups, asText);
    }
  }

  lemma UnionAssoc<T>(a: set<T>, b: set<T>, c: set<T>)
    ensures a + b + c == a + (b + c)
  {
  }

  lemma AppendEmpty<T>(a: seq<T>)
    ensures [] + a == a
  {
  }

  // ----- finalisation and closing -----

  /** Finalisation keeps every container's creation stamps. */
  lemma {:induction false} FinaliseAllStamps(files: map<string, H5File>, names: seq<string>, indices: seq<nat>,
                                             conv: Conversions)
    requires forall i | 0 <= i < |names| :: names[i] in files
    requires Stamped(files)
    ensures Stamped(FinaliseAllSpec(files, names, indices, conv).0)
    decreases |names|
  {
    if names != [] {
      var (f, err) := Finalise(names[0], files[names[0]], indices, conv);
      FinaliseEffect(names[0], files[names[0]], indices, conv);
      if err.None? {
        FinaliseAllStamps(files[names[0] := f], names[1..], indices, conv);
      }
    }
  }

  /** Finalisation keeps every handle open, so it never meets a closed one. */
  lemma {:induction false} FinaliseAllOpen(files: map<string, H5File>, names: seq<string>, indices: seq<nat>,
                                           conv: Conversions)
    requires forall i | 0 <= i < |names| :: names[i] in files
    requires AllOpen(files)
    ensures AllOpen(FinaliseAllSpec(files, names, indices, conv).0)
    ensures FinaliseAllSpec(files, names, indices, conv).1.None? || !FinaliseAllSpec(files, names, indices, conv).1.value.ContainerClosed?
    decreases |names|
  {
    if names != [] {
      var (f, err) := Finalise(names[0], files[names[0]], indices, conv);
      FinaliseEffect(names[0], files[names[0]], indices, conv);
      if err.None? {
        FinaliseAllOpen(files[names[0] := f], names[1..], indices, conv);
      }
    }
  }

  /** Finalisation leaves every node as it was. */
  lemma {:induction false} FinaliseAllNodes(files: map<string, H5File>, names: seq<string>, indices: seq<nat>,
                                            conv: Conversions)
    requires forall i | 0 <= i < |names| :: names[i] in files
    ensures forall k | k in files :: FinaliseAllSpec(files, names, indices, conv).0[k].nodes == files[k].nodes
    decreases |names|
  {
    if names != [] {
      var (f, err) := Finalise(names[0], files[names[0]], indices, conv);
      FinaliseEffect(names[0], files[names[0]], indices, conv);
      if err.None? {
        FinaliseAllNodes(files[names[0] := f], names[1..], indices, conv);
      }
    }
  }

  /** A successful finalisation gives every listed container an `Index` with
      one row per listed slice, in listing order, and its `Vertices` total. */
  lemma {:induction false} FinaliseAllTables(files: map<string, H5File>, names: seq<string>, indices: seq<nat>,
                                             conv: Conversions)
    requires forall i | 0 <= i < |names| :: names[i] in files
    requires FinaliseAllSpec(files, names, indices, conv).1.None?
    ensures var r := FinaliseAllSpec(files, names, indices, conv).0;
            forall i | 0 <= i < |names| ::
              && r[names[i]].index.Some? && |r[names[i]].index.value| == |indices|
              && (forall j | 0 <= j < |indices| :: r[names[i]].index.value[j].0 == indices[j])
              && VerticesKey in r[names[i]].slicesAttrs
              && r[names[i]].slicesAttrs[VerticesKey] == IntValue(TotalSize(files[names[i]].nodes, indices))
    ensures var r := FinaliseAllSpec(files, names, indices, conv).0;
            forall k | k in files && forall i | 0 <= i < |names| :: names[i] != k :: r[k] == files[k]
    decreases |names|
  {
    if names != [] {
      var (f, err) := Finalise(names[0], files[names[0]], indices, conv);
      FinaliseEffect(names[0], files[names[0]], indices, conv);
      var files1 := files[names[0] := f];
      FinaliseAllTables(files1, names[1..], indices, conv);
      FinaliseAllNodes(files1, names[1..], indices, conv);
      var r := FinaliseAllSpec(files, names, indices, conv).0;
      forall i | 0 <= i < |names|
        ensures && r[names[i]].index.Some? && |r[names[i]].index.value| == |indices|
                && (forall j | 0 <= j < |indices| :: r[names[i]].index.value[j].0 == indices[j])
                && VerticesKey in r[names[i]].slicesAttrs
                && r[names[i]].slicesAttrs[VerticesKey] == IntValue(TotalSize(files[names[i]].nodes, indices))
      {
        if names[i] == names[0] {
          if !(exists j | 0 <= j < |names[1..]| :: names[1..][j] == names[0]) {
            assert r[names[0]] == files1[names[0]];
          } else {
            var j :| 0 <= j < |names[1..]| && names[1..][j] == names[0];
            assert files1[names[0]].nodes == files[names[0]].nodes;
          }
        } else {
          assert names[i] == names[1..][i - 1];
        }
      }
    }
  }

  /** A listed slice missing from a container makes finalisation fail. */
  lemma {:induction false} FinaliseAllMissingSlice(files: map<string, H5File>, names: seq<string>, indices: seq<nat>,
                                                   conv: Conversions, n: nat, i: nat)
    requires forall j | 0 <= j < |names| :: names[j] in files
    requires n < |names| && i < |indices| && NodeKey(indices[i]) !in files[names[n]].nodes
    ensures FinaliseAllSpec(files, names, indices, conv).1.Some?
    decreases |names|
  {
    var (f, err) := Finalise(names[0], files[names[0]], indices, conv);
    FinaliseEffect(names[0], files[names[0]], indices, conv);
    if n == 0 {
      if files[names[0]].isOpen {
        MissingSliceFails(files[names[0]], indices, conv, i);
      }
    } else if err.None? {
      var files1 := files[names[0] := f];
      assert names[n] == names[1..][n - 1];
      FinaliseAllMissingSlice(files1, names[1..], indices, conv, n - 1, i);
    }
  }

  // ----- the whole call -----

  /** Every container is closed when the call returns, still carries the
      stamps of its creation, and the call never writes to a closed one. */
  lemma RunCloses(inputs: seq<InputFile>, groups: seq<string>, conv: Conversions)
    ensures var out := RunSpec(inputs, groups, conv);
            && (forall k | k in out.files :: !out.files[k].isOpen)
            && Stamped(out.files)
            && (out.error.None? || !out.error.value.ContainerClosed?)
            && (forall k | k in out.files :: Selected(groups, k))
  {
    var (st, err) := ConvertAllSpec(Start, inputs, groups, conv.asText);
    if err.None? {
      FinaliseAllStamps(st.files, st.order, st.sliceIndices, conv);
      FinaliseAllOpen(st.files, st.order, st.sliceIndices, conv);
    }
  }

  /** Every container has an `Index` whose rows list `listed` in order, a
      node for every listed slice, and the `Vertices` total of their
      `X-Axis` sizes. */
  predicate IndexedBy(files: map<string, H5File>, listed: seq<nat>) {
    forall k | k in files :: IndexedAt(files, k, listed)
  }

  predicate IndexedAt(files: map<string, H5File>, k: string, listed: seq<nat>)
    requires k in files
  {
    && files[k].index.Some? && |files[k].index.value| == |listed|
    && (forall j | 0 <= j < |listed| :: files[k].index.value[j].0 == listed[j])
    && (forall j | 0 <= j < |listed| :: NodeKey(listed[j]) in files[k].nodes)
    && VerticesKey in files[k].slicesAttrs
    && files[k].slicesAttrs[VerticesKey] == IntValue(TotalSize(files[k].nodes, listed))
  }

  /** A successful call creates one container per group that passed the
      filter in some selected file. */
  lemma RunKeys(inputs: seq<InputFile>, groups: seq<string>, conv: Conversions)
    requires RunSpec(inputs, groups, conv).error.None?
    ensures RunSpec(inputs, groups, conv).files.Keys == ProcessedNames(inputs, groups)
  {
    var converted := ConvertAllSpec(Start, inputs, groups, conv.asText);
    ConvertAllKeys(Start, inputs, groups, conv.asText);
    FinishKeys(converted, conv);
    assert Start.files.Keys == {};
  }

  /** Finalising and closing keep the set of containers. */
  lemma FinishKeys(converted: (RunState, Option<Error>), conv: Conversions)
    requires Registry(converted.0)
    ensures Finish(converted, conv).files.Keys == converted.0.files.Keys
  {
  }

  /** A successful call gives each container an `Index` whose rows list the
      selected files' slice numbers in processing order, with the `Vertices`
      total of their `X-Axis` sizes. */
  lemma RunIndexed(inputs: seq<InputFile>, groups: seq<string>, conv: Conversions)
    requires RunSpec(inputs, groups, conv).error.None?
    ensures IndexedBy(RunSpec(inputs, groups, conv).files, ListedIndices(inputs))
  {
    var st := ConvertAllSpec(Start, inputs, groups, conv.asText).0;
    ConvertAllIndices(Start, inputs, groups, conv.asText);
    AppendEmpty(ListedIndices(inputs));
    FinalTables(st, conv);
    CloseKeepsIndexed(FinaliseAllSpec(st.files, st.order, st.sliceIndices, conv).0, st.sliceIndices);
  }

  /** The finalised containers of a converted state. */
  lemma FinalTables(st: RunState, conv: Conversions)
    requires Registry(st)
    requires FinaliseAllSpec(st.files, st.order, st.sliceIndices, conv).1.None?
    ensures IndexedBy(FinaliseAllSpec(st.files, st.order, st.sliceIndices, conv).0, st.sliceIndices)
  {
    var files := FinaliseAllSpec(st.files, st.order, st.sliceIndices, conv).0;
    forall k | k in files ensures IndexedAt(files, k, st.sliceIndices) {
      FinalTableAt(st, conv, k);
    }
  }

  lemma FinalTableAt(st: RunState, conv: Conversions, k: string)
    requires Registry(st)
    requires FinaliseAllSpec(st.files, st.order, st.sliceIndices, conv).1.None?
    requires k in st.files
    ensures IndexedAt(FinaliseAllSpec(st.files, st.order, st.sliceIndices, conv).0, k, st.sliceIndices)
  {
    var n :| 0 <= n < |st.order| && st.order[n] == k;
    FinaliseAllTables(st.files, st.order, st.sliceIndices, conv);
    FinaliseAllNodes(st.files, st.order, st.sliceIndices, conv);
    FinalisedHasAllSlices(st, conv);
  }

  lemma CloseKeepsIndexed(files: map<string, H5File>, listed: seq<nat>)
    requires IndexedBy(files, listed)
    ensures IndexedBy(CloseAll(files), listed)
  {
  }

  /** After a successful finalisation every container holds a node for every
      listed slice. */
  lemma FinalisedHasAllSlices(st: RunState, conv: Conversions)
    requires Registry(st)
    requires FinaliseAllSpec(st.files, st.order, st.sliceIndices, conv).1.None?
    ensures forall k, j | k in st.files && 0 <= j < |st.sliceIndices| :: NodeKey(st.sliceIndices[j]) in st.files[k].nodes
  {
    forall k, j | k in st.files && 0 <= j < |st.sliceIndices|
      ensures NodeKey(st.sliceIndices[j]) in st.files[k].nodes
    {
      var n :| 0 <= n < |st.order| && st.order[n] == k;
      if NodeKey(st.sliceIndices[j]) !in st.files[k].nodes {
        FinaliseAllMissingSlice(st.files, st.order, st.sliceIndices, conv, n, j);
      }
    }
  }
}
