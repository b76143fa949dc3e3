/** The converter itself: the variables `h5_files` and `slice_indices` of one
    `tdms2h5` call, updated in place by its loops, each loop proved to do
    what the functions of module `Run` say. */
module Converter {
  import opened Common
  import opened Discovery
  import opened Attributes
  import opened Container
  import opened Run

  class Converter {
    /** `h5_files`: the open container of each group name met so far. */
    var h5Files: map<string, H5File>
    /** The insertion order of `h5_files`, which `values()` follows. */
    var order: seq<string>
    /** `slice_indices`, in processing order. */
    var sliceIndices: seq<nat>
    /** The group filter. */
    const groups: seq<string>
    /** The numpy conversions the writes apply. */
    const conv: Conversions

    function State(): RunState
      reads this
    {
      RunState(h5Files, order, sliceIndices)
    }

    constructor (groups: seq<string>, conv: Conversions)
      ensures State() == Start
      ensures this.groups == groups && this.conv == conv
    {
      h5Files := map[];
      order := [];
      sliceIndices := [];
      this.groups := groups;
      this.conv := conv;
    }

    /** The body of the group loop for a group that passed the filter: open
        and stamp its container on first encounter, create the node `key`,
        write both property loops, then one dataset per channel. */
    method WriteGroup(key: string, fileProps: PropertyBag, g: TdmsGroup) returns (err: Option<Error>)
      modifies this
      ensures (State(), err) == WriteGroupSpec(old(State()), key, fileProps, g, conv.asText)
    {
      if g.name !in h5Files {
        h5Files := h5Files[g.name := NewFile(g.name)];
        order := order + [g.name];
      }
      var f := h5Files[g.name];
      if key in f.nodes {
        return Some(NodeExists(g.name, key));
      }
      var attrs := WriteProperties(map[], fileProps, LayerKeys, conv.asText);
      attrs := WriteProperties(attrs, g.properties, PartKeys, conv.asText);
      var datasets;
      datasets, err := CreateDatasets(g.channels);
      h5Files := h5Files[g.name := f.(nodes := f.nodes[key := SliceNode(attrs, datasets)])];
    }

    /** One pass of the file loop: a path the pattern rejects is skipped;
        otherwise its slice number is appended, then its groups are written. */
    method ConvertFile(input: InputFile) returns (err: Option<Error>)
      modifies this
      ensures (State(), err) == ConvertFileSpec(old(State()), input, groups, conv.asText)
    {
      match Classify(input.path)
      case Skipped =>
        err := None;
      case Unnumbered =>
        err := Some(NoSliceNumber(input.path));
      case Numbered(index) =>
        err := ConvertNumberedFile(input, index);
    }

    /** A selected file with a slice number: the number is appended to
        `slice_indices`, then the groups are written under its key. */
    method ConvertNumberedFile(input: InputFile, index: nat) returns (err: Option<Error>)
      requires Classify(input.path) == Numbered(index)
      modifies this
      ensures (State(), err) == ConvertFileSpec(old(State()), input, groups, conv.asText)
    {
      ConvertNumbered(State(), input, groups, conv.asText, index);
      sliceIndices := sliceIndices + [index];
      err := WriteGroups(NodeKey(index), input.content.properties, input.content.groups);
    }

    /** The group loop of one file: groups the filter excludes are skipped,
        the first error ends the loop. */
    method WriteGroups(key: string, fileProps: PropertyBag, gs: seq<TdmsGroup>) returns (err: Option<Error>)
      modifies this
      ensures (State(), err) == WriteGroupsSpec(old(State()), key, fileProps, gs, groups, conv.asText)
    {
      err := None;
      var i := 0;
      while i < |gs|
        invariant 0 <= i <= |gs|
        invariant WriteGroupsSpec(State(), key, fileProps, gs[i..], groups, conv.asText)
                  == WriteGroupsSpec(old(State()), key, fileProps, gs, groups, conv.asText)
        invariant err.None?
      {
        assert gs[i..][1..] == gs[i + 1..];
        if Selected(groups, gs[i].name) {
          err := WriteGroup(key, fileProps, gs[i]);
          if err.Some? {
            return;
          }
        }
        i := i + 1;
      }
    }

    /** The finalisation loop: each container in insertion order, until the
        first error. */
    method FinaliseAll() returns (err: Option<Error>)
      requires Registry(State())
      modifies this
      ensures (h5Files, err) == FinaliseAllSpec(old(h5Files), old(order), old(sliceIndices), conv)
      ensures order == old(order) && sliceIndices == old(sliceIndices)
    {
      h5Files, err := FinaliseLoop(h5Files, order, sliceIndices, conv);
    }

    /** Leaving the `ExitStack` block: every container is closed, the last
        opened first. */
    method CloseEvery()
      requires Registry(State())
      modifies this
      ensures h5Files == CloseAll(old(h5Files))
      ensures order == old(order) && sliceIndices == old(sliceIndices)
    {
      h5Files := CloseLoop(h5Files, order);
    }
  }

  /** The exits of the `ExitStack`, the last container entered closed first. */
  method CloseLoop(files: map<string, H5File>, names: seq<string>) returns (out: map<string, H5File>)
    requires forall i | 0 <= i < |names| :: names[i] in files
    requires forall k | k in files :: k in names
    ensures out == CloseAll(files)
  {
    out := files;
    var j := |names|;
    while j > 0
      invariant 0 <= j <= |names|
      invariant out.Keys == files.Keys
      invariant forall k | k in out :: out[k] == if k in names[j..] then files[k].(isOpen := false) else files[k]
    {
      j := j - 1;
      var name := names[j];
      out := out[name := out[name].(isOpen := false)];
    }
    assert names[0..] == names;
  }

  /** One call of `tdms2h5` on the files its directory listing gave, in
      listing order. */
  method Tdms2H5(inputs: seq<InputFile>, groups: seq<string>, conv: Conversions) returns (out: Outcome)
    ensures out == RunSpec(inputs, groups, conv)
  {
    var c := new Converter(groups, conv);
    var err: Option<Error> := None;
    var i := 0;
    while i < |inputs| && err.None?
      invariant 0 <= i <= |inputs|
      invariant c.groups == groups && c.conv == conv
      invariant Invariant(c.State(), groups)
      invariant err.None? ==> ConvertAllSpec(c.State(), inputs[i..], groups, conv.asText)
                              == ConvertAllSpec(Start, inputs, groups, conv.asText)
      invariant err.Some? ==> (c.State(), err) == ConvertAllSpec(Start, inputs, groups, conv.asText)
    {
      ghost var before := c.State();
      assert inputs[i..][1..] == inputs[i + 1..];
      ConvertFileInvariant(before, inputs[i], groups, conv.asText);
      err := c.ConvertFile(inputs[i]);
      i := i + 1;
    }
    if err.None? {
      err := c.FinaliseAll();
    }
    c.CloseEvery();
    out := Outcome(c.h5Files, c.order, err);
  }

  /** The loop over `h5_files.values()`: each container in insertion order,
      until the first error. */
  method FinaliseLoop(files: map<string, H5File>, names: seq<string>, indices: seq<nat>, conv: Conversions)
    returns (out: map<string, H5File>, err: Option<Error>)
    requires forall i | 0 <= i < |names| :: names[i] in files
    ensures (out, err) == FinaliseAllSpec(files, names, indices, conv)
  {
    out, err := files, None;
    var rest := names;
    while rest != []
      invariant forall i | 0 <= i < |rest| :: rest[i] in out
      invariant FinaliseAllSpec(out, rest, indices, conv) == FinaliseAllSpec(files, names, indices, conv)
      invariant err.None?
      decreases |rest|
    {
      var name := rest[0];
      FinaliseAllStep(out, rest, indices, conv);
      var f;
      f, err := FinaliseOne(name, out[name], indices, conv);
      out := out[name := f];
      if err.Some? {
        return;
      }
      rest := rest[1..];
    }
  }

  /** The body of the finalisation loop for one container: the `Index`
      table of the listed slices, then `Vertices` and `Index` are stored; a
      closed container cannot be written. */
  method FinaliseOne(name: string, f: H5File, indices: seq<nat>, conv: Conversions) returns (g: H5File, err: Option<Error>)
    ensures (g, err) == Finalise(name, f, indices, conv)
  {
    if !f.isOpen {
      return f, Some(ContainerClosed(name));
    }
    var table := IndexLoop(f, indices, conv);
    if table.Err? {
      return f, Some(table.error);
    }
    g := f.(slicesAttrs := f.slicesAttrs[VerticesKey := IntValue(table.value.vertices)], index := Some(table.value.rows));
    err := None;
  }
}
