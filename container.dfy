/** The HDF5 container `tdms2h5` writes for one TDMS group: root attributes,
    the `Slices` group with one node per slice, and the `Index` table that
    finalisation adds. */
module Container {
  import opened Common
  import opened Discovery
  import opened Attributes

  const FileVersion: int := 2
  const VersionKey: string := "Version"
  const SlicesKey: string := "Slices"
  const IndexKey: string := "Index"
  const GroupNameKey: string := "TDMS_GroupName"
  const VerticesKey: string := "Vertices"
  const XAxisKey: string := "X-Axis"
  const ThicknessKey: string := "layerThickness"

  /** Bounds of a numpy `int` (int64) cell. */
  const Int64Min: int := -0x8000_0000_0000_0000
  const Int64Bound: int := 0x8000_0000_0000_0000

  /** How numpy turns values into the cells of the integer `Index` table:
      `asText` is the datetime formatting of the attribute writer and
      `asInt` the conversion of a non-integer value (None where numpy raises). */
  datatype Conversions = Conversions(asText: Timestamp -> string, asInt: Value -> Option<int>)

  /** One node `Slices/<index>`: its attributes and its datasets by name. */
  datatype SliceNode = SliceNode(attrs: Attrs, datasets: map<string, seq<Sample>>)

  /** One row of `Index`: the slice number and its layer thickness. */
  type IndexRow = (int, int)

  /** One output file: root attributes, the `Slices` group's attributes and
      nodes, the `Index` dataset once written, and whether the handle is open. */
  datatype H5File = H5File(attrs: Attrs, slicesAttrs: Attrs, nodes: map<string, SliceNode>,
                           index: Option<seq<IndexRow>>, isOpen: bool)

  /** A freshly created container for group `name`, stamped with the file
      version and the group's name. */
  function NewFile(name: string): (f: H5File)
    ensures f.attrs == map[VersionKey := IntValue(FileVersion)]
    ensures f.slicesAttrs == map[GroupNameKey := TextValue(name)]
    ensures f.nodes == map[] && f.index.None? && f.isOpen
  {
    H5File(map[VersionKey := IntValue(FileVersion)], map[GroupNameKey := TextValue(name)], map[], None, true)
  }

  /** The datasets after `create_dataset(channel.name, data=channel.data)` for
      each channel in order; the first name already present stops the loop. */
  function CopyChannels(ds: map<string, seq<Sample>>, chs: seq<Channel>): (r: (map<string, seq<Sample>>, Option<Error>))
    ensures r.1.None? || r.1.value.DatasetExists?
    decreases |chs|
  {
    if chs == [] then (ds, None)
    else if chs[0].name in ds then (ds, Some(DatasetExists(chs[0].name)))
    else CopyChannels(ds[chs[0].name := chs[0].data], chs[1..])
  }

  /** The channel names are pairwise distinct. */
  predicate DistinctNames(chs: seq<Channel>) {
    forall i, j | 0 <= i < j < |chs| :: chs[i].name != chs[j].name
  }

  /** Copying succeeds exactly when the channel names are distinct and new. */
  lemma {:induction false} CopyChannelsSucceeds(ds: map<string, seq<Sample>>, chs: seq<Channel>)
    ensures CopyChannels(ds, chs).1.None? <==> DistinctNames(chs) && forall i | 0 <= i < |chs| :: chs[i].name !in ds
    decreases |chs|
  {
    if chs != [] && chs[0].name !in ds {
      var rest := chs[1..];
      CopyChannelsSucceeds(ds[chs[0].name := chs[0].data], rest);
      assert forall i | 1 <= i < |chs| :: chs[i] == rest[i - 1];
    }
  }

  /** On success every channel is a dataset of its own name holding its data
      unchanged, earlier datasets stay, and no other dataset appears. */
  lemma {:induction false} CopyChannelsContents(ds: map<string, seq<Sample>>, chs: seq<Channel>)
    requires CopyChannels(ds, chs).1.None?
    ensures var out := CopyChannels(ds, chs).0;
            && (forall i | 0 <= i < |chs| :: chs[i].name in out && out[chs[i].name] == chs[i].data)
            && (forall k | k in ds :: k in out && out[k] == ds[k])
            && (forall k | k in out :: k in ds || exists i | 0 <= i < |chs| :: chs[i].name == k)
    decreases |chs|
  {
    if chs != [] {
      var c := chs[0];
      var rest := chs[1..];
      CopyChannelsSucceeds(ds, chs);
      CopyChannelsContents(ds[c.name := c.data], rest);
      var out := CopyChannels(ds[c.name := c.data], rest).0;
      assert forall i | 1 <= i < |chs| :: chs[i] == rest[i - 1];
      forall k | k in out && k !in ds
        ensures exists i | 0 <= i < |chs| :: chs[i].name == k
      {
        if k == c.name {
          assert chs[0].name == k;
        } else {
          var i :| 0 <= i < |rest| && rest[i].name == k;
          assert chs[i + 1].name == k;
        }
      }
    }
  }

  /** `create_dataset` for each channel, in order. */
  method CreateDatasets(chs: seq<Channel>) returns (ds: map<string, seq<Sample>>, err: Option<Error>)
    ensures (ds, err) == CopyChannels(map[], chs)
  {
    ds := map[];
    var i := 0;
    while i < |chs|
      invariant 0 <= i <= |chs|
      invariant CopyChannels(ds, chs[i..]) == CopyChannels(map[], chs)
    {
      assert chs[i..][1..] == chs[i + 1..];
      if chs[i].name in ds {
        return ds, Some(DatasetExists(chs[i].name));
      }
      ds := ds[chs[i].name := chs[i].data];
      i := i + 1;
    }
    err := None;
  }

  /** What storing an attribute value into an int64 cell gives: a Python
      integer out of range overflows; other values go through numpy. */
  function IntCell(key: string, v: Value, conv: Conversions): (r: Result<int>)
    ensures v.IntValue? && Int64Min <= v.i < Int64Bound ==> r == Ok(v.i)
    ensures v.IntValue? && !(Int64Min <= v.i < Int64Bound) ==> r == Err(IntOverflow(v.i))
  {
    match v
    case IntValue(i) => if Int64Min <= i < Int64Bound then Ok(i) else Err(IntOverflow(i))
    case _ => if conv.asInt(v).Some? then Ok(conv.asInt(v).value) else Err(NotAnInteger(key, ThicknessKey))
  }

  /** One iteration of the finalisation loop for slice `index`: the size of
      its `X-Axis` dataset, then the index cell, then the thickness cell. */
  function IndexEntry(f: H5File, index: nat, conv: Conversions): Result<(IndexRow, nat)> {
    var key := NodeKey(index);
    if key !in f.nodes then Err(MissingNode(key))
    else if XAxisKey !in f.nodes[key].datasets then Err(MissingDataset(key, XAxisKey))
    else if index >= Int64Bound then Err(IntOverflow(index))
    else if ThicknessKey !in f.nodes[key].attrs then Err(MissingAttribute(key, ThicknessKey))
    else match IntCell(key, f.nodes[key].attrs[ThicknessKey], conv)
      case Err(e) => Err(e)
      case Ok(t) => Ok(((index, t), |f.nodes[key].datasets[XAxisKey]|))
  }

  /** The finished `Index` table and the `Vertices` total. */
  datatype IndexTable = IndexTable(rows: seq<IndexRow>, vertices: nat)

  /** The finalisation loop over `indices` for one container. Row `i` is
      `indices[i]` with its node's thickness, in listing order; the total is
      the sum of the `X-Axis` sizes; the first failing slice decides the error. */
  function BuildTable(f: H5File, indices: seq<nat>, conv: Conversions): (r: Result<IndexTable>)
    ensures r.Ok? ==> |r.value.rows| == |indices|
    ensures r.Err? ==> !r.error.ContainerClosed?
    decreases |indices|
  {
    if indices == [] then Ok(IndexTable([], 0))
    else
      var init := indices[..|indices| - 1];
      match BuildTable(f, init, conv)
      case Err(e) => Err(e)
      case Ok(t) =>
        match IndexEntry(f, indices[|indices| - 1], conv)
        case Err(e) => Err(e)
        case Ok(entry) => Ok(IndexTable(t.rows + [entry.0], t.vertices + entry.1))
  }

  /** Row `i` of a finished table is the entry of `indices[i]`. */
  lemma {:induction false} BuildTableRow(f: H5File, indices: seq<nat>, conv: Conversions, i: nat)
    requires i < |indices| && BuildTable(f, indices, conv).Ok?
    ensures IndexEntry(f, indices[i], conv).Ok?
    ensures BuildTable(f, indices, conv).value.rows[i] == IndexEntry(f, indices[i], conv).value.0
    decreases |indices|
  {
    var n := |indices| - 1;
    var init := indices[..n];
    if i < n {
      BuildTableRow(f, init, conv, i);
      assert init[i] == indices[i];
    }
  }

  /** The loop succeeds exactly when every listed slice gives an entry. */
  lemma {:induction false} BuildTableOk(f: H5File, indices: seq<nat>, conv: Conversions)
    ensures BuildTable(f, indices, conv).Ok? <==> forall i | 0 <= i < |indices| :: IndexEntry(f, indices[i], conv).Ok?
    decreases |indices|
  {
    if BuildTable(f, indices, conv).Ok? {
      forall i | 0 <= i < |indices| ensures IndexEntry(f, indices[i], conv).Ok? {
        BuildTableRow(f, indices, conv, i);
      }
    } else if indices != [] {
      var n := |indices| - 1;
      var init := indices[..n];
      BuildTableOk(f, init, conv);
      assert forall i | 0 <= i < |init| :: init[i] == indices[i];
    }
  }

  /** On failure the error is that of the first failing slice. */
  lemma {:induction false} BuildTableFirstError(f: H5File, indices: seq<nat>, conv: Conversions)
    requires BuildTable(f, indices, conv).Err?
    ensures exists i | 0 <= i < |indices| ::
              && (forall j | 0 <= j < i :: IndexEntry(f, indices[j], conv).Ok?)
              && IndexEntry(f, indices[i], conv) == Err(BuildTable(f, indices, conv).error)
    decreases |indices|
  {
    var n := |indices| - 1;
    var init := indices[..n];
    assert forall i | 0 <= i < |init| :: init[i] == indices[i];
    if BuildTable(f, init, conv).Err? {
      BuildTableFirstError(f, init, conv);
      var i :| 0 <= i < |init| && (forall j | 0 <= j < i :: IndexEntry(f, init[j], conv).Ok?)
                               && IndexEntry(f, init[i], conv) == Err(BuildTable(f, init, conv).error);
      assert IndexEntry(f, indices[i], conv) == Err(BuildTable(f, indices, conv).error);
    } else {
      assert IndexEntry(f, indices[n], conv) == Err(BuildTable(f, indices, conv).error);
      forall j | 0 <= j < n ensures IndexEntry(f, indices[j], conv).Ok? {
        BuildTableRow(f, init, conv, j);
        assert init[j] == indices[j];
      }
    }
  }

  /** The `X-Axis` size of a listed slice (zero for one without the dataset). */
  function XAxisSize(nodes: map<string, SliceNode>, index: nat): nat {
    var key := NodeKey(index);
    if key in nodes && XAxisKey in nodes[key].datasets then |nodes[key].datasets[XAxisKey]| else 0
  }

  /** Sum of the `X-Axis` sizes of the listed slices, in any split of the list. */
  function TotalSize(nodes: map<string, SliceNode>, indices: seq<nat>): nat
    decreases |indices|
  {
    if indices == [] then 0 else XAxisSize(nodes, indices[0]) + TotalSize(nodes, indices[1..])
  }

  lemma {:induction false} TotalSizeAppend(f: map<string, SliceNode>, a: seq<nat>, b: seq<nat>)
    ensures TotalSize(f, a + b) == TotalSize(f, a) + TotalSize(f, b)
    decreases |a|
  {
    if a == [] {
      assert a + b == b;
    } else {
      assert (a + b)[0] == a[0] && (a + b)[1..] == a[1..] + b;
      TotalSizeAppend(f, a[1..], b);
    }
  }

  /** `Vertices` is the sum of the `X-Axis` sizes over every listed slice,
      counting a slice once per listing. */
  lemma {:induction false} VerticesIsTotal(f: H5File, indices: seq<nat>, conv: Conversions)
    requires BuildTable(f, indices, conv).Ok?
    ensures BuildTable(f, indices, conv).value.vertices == TotalSize(f.nodes, indices)
    decreases |indices|
  {
    if indices != [] {
      var init := indices[..|indices| - 1];
      var last := indices[|indices| - 1];
      VerticesIsTotal(f, init, conv);
      assert indices == init + [last];
      TotalSizeAppend(f.nodes, init, [last]);
      assert TotalSize(f.nodes, [last]) == XAxisSize(f.nodes, last) by {
        assert [last][1..] == [];
      }
    }
  }

  /** A listed slice without a node in the container makes finalisation fail. */
  lemma MissingSliceFails(f: H5File, indices: seq<nat>, conv: Conversions, i: nat)
    requires i < |indices| && NodeKey(indices[i]) !in f.nodes
    ensures BuildTable(f, indices, conv).Err?
  {
    BuildTableOk(f, indices, conv);
    assert !IndexEntry(f, indices[i], conv).Ok?;
  }

  /** The finalisation loop for one container. */
  method IndexLoop(f: H5File, indices: seq<nat>, conv: Conversions) returns (r: Result<IndexTable>)
    ensures r == BuildTable(f, indices, conv)
  {
    var totalVertices: nat := 0;
    var rows: seq<IndexRow> := [];
    var i := 0;
    while i < |indices|
      invariant 0 <= i <= |indices|
      invariant BuildTable(f, indices[..i], conv) == Ok(IndexTable(rows, totalVertices))
    {
      var index := indices[i];
      var key := NodeKey(index);
      if key !in f.nodes {
        r := Err(MissingNode(key));
        EntryErrorStops(f, indices, conv, i, r.error);
        return;
      }
      var node := f.nodes[key];
      if XAxisKey !in node.datasets {
        r := Err(MissingDataset(key, XAxisKey));
        EntryErrorStops(f, indices, conv, i, r.error);
        return;
      }
      totalVertices := totalVertices + |node.datasets[XAxisKey]|;
      if index >= Int64Bound {
        r := Err(IntOverflow(index));
        EntryErrorStops(f, indices, conv, i, r.error);
        return;
      }
      if ThicknessKey !in node.attrs {
        r := Err(MissingAttribute(key, ThicknessKey));
        EntryErrorStops(f, indices, conv, i, r.error);
        return;
      }
      var cell := IntCell(key, node.attrs[ThicknessKey], conv);
      if cell.Err? {
        r := Err(cell.error);
        EntryErrorStops(f, indices, conv, i, r.error);
        return;
      }
      rows := rows + [(index, cell.value)];
      assert indices[..i + 1][..i] == indices[..i];
      i := i + 1;
    }
    assert indices[..i] == indices;
    r := Ok(IndexTable(rows, totalVertices));
  }

  /** The first failing slice decides the outcome of the whole loop. */
  lemma EntryErrorStops(f: H5File, indices: seq<nat>, conv: Conversions, i: nat, e: Error)
    requires i < |indices| && BuildTable(f, indices[..i], conv).Ok?
    requires IndexEntry(f, indices[i], conv) == Err(e)
    ensures BuildTable(f, indices, conv) == Err(e)
  {
    assert indices[..i + 1][..i] == indices[..i];
    PrefixErrorPropagates(f, indices, conv, i + 1);
  }

  /** An error on a prefix of the listing is the error of the whole loop. */
  lemma {:induction false} PrefixErrorPropagates(f: H5File, indices: seq<nat>, conv: Conversions, n: nat)
    requires n <= |indices| && BuildTable(f, indices[..n], conv).Err?
    ensures BuildTable(f, indices, conv) == BuildTable(f, indices[..n], conv)
    decreases |indices| - n
  {
    if n < |indices| {
      assert indices[..n + 1][..n] == indices[..n];
      PrefixErrorPropagates(f, indices, conv, n + 1);
    } else {
      assert indices[..n] == indices;
    }
  }

  /** Finalisation of one container: `Slices.Vertices` and the `Index`
      dataset, or the error of the loop; a closed handle cannot be written. */
  function Finalise(name: string, f: H5File, indices: seq<nat>, conv: Conversions): (r: (H5File, Option<Error>))
    ensures r.1.Some? ==> r.0 == f
  {
    if !f.isOpen then (f, Some(ContainerClosed(name)))
    else match BuildTable(f, indices, conv)
      case Err(e) => (f, Some(e))
      case Ok(t) => (f.(slicesAttrs := f.slicesAttrs[VerticesKey := IntValue(t.vertices)], index := Some(t.rows)), None)
  }

  /** A closed handle fails; a successful finalisation changes only
      `Vertices`, which becomes the total `X-Axis` size of the listed slices,
      and the `Index`, whose rows carry the listed slice numbers in order. */
  lemma FinaliseEffect(name: string, f: H5File, indices: seq<nat>, conv: Conversions)
    ensures var r := Finalise(name, f, indices, conv);
            && (!f.isOpen ==> r == (f, Some(ContainerClosed(name))))
            && (r.1.None? ==>
                  && r.0.attrs == f.attrs && r.0.nodes == f.nodes && r.0.isOpen == f.isOpen
                  && r.0.slicesAttrs == f.slicesAttrs[VerticesKey := IntValue(TotalSize(f.nodes, indices))]
                  && r.0.index.Some? && |r.0.index.value| == |indices|
                  && (forall i | 0 <= i < |indices| :: r.0.index.value[i].0 == indices[i]))
  {
    if f.isOpen && BuildTable(f, indices, conv).Ok? {
      VerticesIsTotal(f, indices, conv);
      forall i | 0 <= i < |indices| ensures BuildTable(f, indices, conv).value.rows[i].0 == indices[i] {
        BuildTableRow(f, indices, conv, i);
      }
    }
  }
}
