/** `writeFilesCSV`: one CSV file per processed TDMS object and part, named
    after the part's folder and the slice counter, holding the column
    names and then one row per sample index that every column has. */
module LegacyCsv {
  import opened Common
  import opened LegacyColumns
  import opened LegacyBatch

  /** The value of `os.name` the path test compares against. */
  datatype OsName = Posix | Nt | OtherOs

  /** A line of a CSV file: the header of channel names, or six samples. */
  datatype Row = NameRow(names: seq<string>) | SampleRow(cells: seq<Sample>)

  /** What the writer leaves behind: the content of every file it wrote,
      and the variables `sliceFileName` and `names`, which keep their
      values from one part to the next. */
  datatype CsvState = CsvState(files: map<string, seq<Row>>, sliceFileName: string, names: Option<seq<string>>)

  const CsvStart: CsvState := CsvState(map[], "", None)

  /** `sliceFileName` for a slice: the folder, the separator of the
      platform, `Slice000`, the counter in decimal, `.csv`. On any other
      platform neither branch assigns, and the previous name stays. */
  function CsvPath(folder: string, counter: int, os: OsName, previous: string): (path: string)
    ensures os.OtherOs? ==> path == previous
    ensures !os.OtherOs? ==> && |folder| + 14 <= |path|
                             && path[..|folder|] == folder
                             && path[|folder|] == (if os.Posix? then '/' else '\\')
                             && path[|path| - 4..] == ".csv"
  {
    match os
    case Posix => folder + "/Slice000" + IntToString(counter) + ".csv"
    case Nt => folder + "\\Slice000" + IntToString(counter) + ".csv"
    case OtherOs => previous
  }

  /** On POSIX and Windows, two different counters name two different
      files of the same folder. */
  lemma CsvPathInjective(folder: string, a: int, b: int, os: OsName, previous: string)
    requires !os.OtherOs? && a != b
    ensures CsvPath(folder, a, os, previous) != CsvPath(folder, b, os, previous)
  {
    var sa := IntToString(a);
    var sb := IntToString(b);
    var head := if os.Posix? then folder + "/Slice000" else folder + "\\Slice000";
    var pa := head + sa + ".csv";
    var pb := head + sb + ".csv";
    if pa == pb {
      assert |sa| == |sb|;
      assert pa[|head|..|head| + |sa|] == sa;
      assert pb[|head|..|head| + |sb|] == sb;
      IntToStringInjective(a, b);
    }
  }

  function SampleRows(rows: seq<seq<Sample>>): (r: seq<Row>)
    ensures |r| == |rows| && forall i | 0 <= i < |rows| :: r[i] == SampleRow(rows[i])
  {
    seq(|rows|, i requires 0 <= i < |rows| => SampleRow(rows[i]))
  }

  /** The body of the part loop, up to its first exception: gather the
      columns, look up the folder, name the file, open it, write the
      header, then the rows. */
  function CsvPartSpec(st: CsvState, g: TdmsGroup, counter: int, folders: map<string, string>, os: OsName)
    : (CsvState, Option<Error>)
  {
    var names := if g.channels == [] then st.names else Some(ShortNames(g.channels));
    var st1 := st.(names := names);
    match Dispatch(ShortNames(g.channels), g.channels)
    case Err(e) => (st1, Some(e))
    case Ok(cols) =>
      if g.text !in folders then (st1, Some(MissingKey(g.text)))
      else
        var path := CsvPath(folders[g.text], counter, os, st.sliceFileName);
        var st2 := st1.(sliceFileName := path);
        if path == "" then (st2, Some(CannotOpen(path)))
        else if names.None? then (st2.(files := st2.files[path := []]), Some(NamesUnbound))
        else
          var header := [NameRow(names.value)];
          match CsvRows(cols)
          case Err(e) => (st2.(files := st2.files[path := header]), Some(e))
          case Ok(rows) => (st2.(files := st2.files[path := header + SampleRows(rows)]), None)
  }

  /** The part loop of one TDMS object, stopping at the first exception. */
  function CsvPartsSpec(st: CsvState, gs: seq<TdmsGroup>, counter: int, folders: map<string, string>, os: OsName)
    : (CsvState, Option<Error>)
    decreases |gs|
  {
    if gs == [] then (st, None)
    else
      var (st1, e) := CsvPartSpec(st, gs[0], counter, folders, os);
      if e.Some? then (st1, e) else CsvPartsSpec(st1, gs[1..], counter, folders, os)
  }

  /** One processed TDMS object, given its slice counter. */
  function CsvStep(folders: map<string, string>, os: OsName): (CsvState, TdmsFile, int) -> (CsvState, Option<Error>) {
    (st: CsvState, t: TdmsFile, counter: int) => CsvPartsSpec(st, t.groups, counter, folders, os)
  }

  /** The whole of `writeFilesCSV`. */
  function CsvRunSpec(folders: map<string, string>, tdmsFiles: seq<TdmsFile>, numFiles: int,
                      batchSize: int, first: int, os: OsName): (CsvState, Result<nat>)
    requires |tdmsFiles| > 0 || numFiles <= 0
  {
    BatchRun(CsvStep(folders, os), CsvStart, tdmsFiles, numFiles, batchSize, first)
  }

  /** A part whose folder is known, whose channels all dispatch and which
      has an area column succeeds: it writes the file named after its
      folder and the slice, with the header of short names and then the
      rows of the columns, and no other file changes. */
  lemma {:induction false} CsvPartWrites(st: CsvState, g: TdmsGroup, counter: int, folders: map<string, string>, os: OsName)
    requires os.Posix? || os.Nt?
    requires g.text in folders && g.channels != []
    requires Dispatch(ShortNames(g.channels), g.channels).Ok?
    requires Dispatch(ShortNames(g.channels), g.channels).value[AreaSlot].Data?
    ensures var (out, err) := CsvPartSpec(st, g, counter, folders, os);
            var cols := Dispatch(ShortNames(g.channels), g.channels).value;
            && err.None?
            && out.files == st.files[CsvPath(folders[g.text], counter, os, st.sliceFileName)
                                       := [NameRow(ShortNames(g.channels))] + SampleRows(CsvRows(cols).value)]
  {
    var names := ShortNames(g.channels);
    var cols := Dispatch(names, g.channels).value;
    var path := CsvPath(folders[g.text], counter, os, st.sliceFileName);
    var rows := CsvRows(cols);
    assert path != "" && rows.Ok?;
    var out := st.(names := Some(names), sliceFileName := path, files := st.files[path := [NameRow(names)] + SampleRows(rows.value)]);
    assert CsvPartSpec(st, g, counter, folders, os) == (out, None);
  }

  /** The file such a part writes holds the header of short names, then
      one row per index that all six columns have, taken from the columns
      the channels were dispatched to. */
  lemma {:induction false} CsvPartContent(st: CsvState, g: TdmsGroup, counter: int, folders: map<string, string>, os: OsName)
    requires os.Posix? || os.Nt?
    requires g.text in folders && g.channels != []
    requires Dispatch(ShortNames(g.channels), g.channels).Ok?
    requires Dispatch(ShortNames(g.channels), g.channels).value[AreaSlot].Data?
    ensures var file := CsvPartSpec(st, g, counter, folders, os).0.files[CsvPath(folders[g.text], counter, os, st.sliceFileName)];
            var cols := Dispatch(ShortNames(g.channels), g.channels).value;
            && |file| == 1 + RowCount(cols)
            && file[0] == NameRow(ShortNames(g.channels))
            && (forall i | 0 < i < |file| :: RowFits(cols, i - 1) && file[i] == SampleRow(RowAt(cols, i - 1)))
  {
    var cols := Dispatch(ShortNames(g.channels), g.channels).value;
    var path := CsvPath(folders[g.text], counter, os, st.sliceFileName);
    var content := [NameRow(ShortNames(g.channels))] + SampleRows(CsvRows(cols).value);
    CsvPartWrites(st, g, counter, folders, os);
    assert CsvPartSpec(st, g, counter, folders, os).0.files[path] == content;
    CsvContent(ShortNames(g.channels), cols);
  }

  /** A file's lines: the header, then the rows of the columns. */
  lemma CsvContent(names: seq<string>, cols: seq<Column>)
    requires |cols| == SlotCount && cols[AreaSlot].Data?
    ensures var content := [NameRow(names)] + SampleRows(CsvRows(cols).value);
            && |content| == 1 + RowCount(cols)
            && content[0] == NameRow(names)
            && forall i | 0 < i < |content| :: RowFits(cols, i - 1) && content[i] == SampleRow(RowAt(cols, i - 1))
  {
    var content := [NameRow(names)] + SampleRows(CsvRows(cols).value);
    forall i | 0 < i < |content| ensures RowFits(cols, i - 1) && content[i] == SampleRow(RowAt(cols, i - 1)) {
      assert content[i] == SampleRows(CsvRows(cols).value)[i - 1];
    }
  }

  /** The failures of one part, in the order the code meets them. */
  lemma CsvPartFailures(st: CsvState, g: TdmsGroup, counter: int, folders: map<string, string>, os: OsName)
    ensures var (out, err) := CsvPartSpec(st, g, counter, folders, os);
            var d := Dispatch(ShortNames(g.channels), g.channels);
            && (d.Err? ==> err == Some(d.error) && out.files == st.files)
            && (d.Ok? && g.text !in folders ==> err == Some(MissingKey(g.text)) && out.files == st.files)
            && (d.Ok? && g.text in folders && os.OtherOs? && st.sliceFileName == "" ==>
                  err == Some(CannotOpen("")) && out.files == st.files)
            && (d.Ok? && g.text in folders && !os.OtherOs? && g.channels == [] && st.names.None? ==>
                  err == Some(NamesUnbound)
                  && out.files == st.files[CsvPath(folders[g.text], counter, os, st.sliceFileName) := []])
            && ((d.Ok? && g.text in folders && !os.OtherOs? && (st.names.Some? || g.channels != [])
                 && d.value[AreaSlot].Unset?) ==>
                  var names := if g.channels == [] then st.names.value else ShortNames(g.channels);
                  err == Some(AreaNotArray)
                  && out.files == st.files[CsvPath(folders[g.text], counter, os, st.sliceFileName) := [NameRow(names)]])
  {
    var d := Dispatch(ShortNames(g.channels), g.channels);
    if d.Ok? && g.text in folders && !os.OtherOs? {
      assert |CsvPath(folders[g.text], counter, os, st.sliceFileName)| > 0;
    }
  }

  /** A part that succeeds writes the file named after its folder and
      the slice, and keeps every other file. */
  lemma CsvPartKeys(st: CsvState, g: TdmsGroup, counter: int, folders: map<string, string>, os: OsName)
    requires CsvPartSpec(st, g, counter, folders, os).1.None?
    ensures var out := CsvPartSpec(st, g, counter, folders, os).0;
            && g.text in folders
            && out.files.Keys == st.files.Keys + {CsvPath(folders[g.text], counter, os, st.sliceFileName)}
  {
  }

  /** A successful part loop only adds files: every earlier file keeps its
      content or is rewritten by a later part of the same slice. */
  lemma {:induction false} CsvPartsKeys(st: CsvState, gs: seq<TdmsGroup>, counter: int, folders: map<string, string>, os: OsName)
    requires CsvPartsSpec(st, gs, counter, folders, os).1.None?
    ensures var out := CsvPartsSpec(st, gs, counter, folders, os).0;
            && st.files.Keys <= out.files.Keys
            && (!os.OtherOs? ==> forall g | g in gs :: g.text in folders && CsvPath(folders[g.text], counter, os, "") in out.files)
    decreases |gs|
  {
    if gs != [] {
      var (st1, e) := CsvPartSpec(st, gs[0], counter, folders, os);
      CsvPartKeys(st, gs[0], counter, folders, os);
      CsvPartsKeys(st1, gs[1..], counter, folders, os);
      forall g | g in gs ensures g == gs[0] || g in gs[1..] {
        var i :| 0 <= i < |gs| && gs[i] == g;
        if i > 0 {
          assert gs[1..][i - 1] == g;
        }
      }
    }
  }

  /** A successful run leaves, for every processed object and every part
      of it, the CSV file named after the part's folder and the object's
      slice counter: counters run from `first` in processing order. */
  lemma {:induction false} CsvFoldFiles(step: (CsvState, TdmsFile, int) -> (CsvState, Option<Error>),
                                        st: CsvState, objs: seq<TdmsFile>, counter: int, folders: map<string, string>, os: OsName)
    requires RunsParts(step, folders, os) && !os.OtherOs?
    requires Fold(step, st, objs, counter).1.None?
    ensures var out := Fold(step, st, objs, counter).0;
            && st.files.Keys <= out.files.Keys
            && forall k, g | 0 <= k < |objs| && g in objs[k].groups ::
                 g.text in folders && CsvPath(folders[g.text], counter + k, os, "") in out.files
    decreases |objs|
  {
    if objs != [] {
      var (st1, e) := step(st, objs[0], counter);
      CsvObjectKeys(step, st, objs[0], counter, folders, os);
      CsvFoldFiles(step, st1, objs[1..], counter + 1, folders, os);
      FilesCons(st, st1, Fold(step, st, objs, counter).0, objs, counter, folders, os);
    }
  }

  lemma CsvObjectKeys(step: (CsvState, TdmsFile, int) -> (CsvState, Option<Error>),
                      st: CsvState, t: TdmsFile, counter: int, folders: map<string, string>, os: OsName)
    requires RunsParts(step, folders, os)
    requires !os.OtherOs? && step(st, t, counter).1.None?
    ensures var out := step(st, t, counter).0;
            && st.files.Keys <= out.files.Keys
            && forall g | g in t.groups :: g.text in folders && CsvPath(folders[g.text], counter, os, "") in out.files
  {
    assert step(st, t, counter) == CsvPartsSpec(st, t.groups, counter, folders, os);
    CsvPartsKeys(st, t.groups, counter, folders, os);
  }

  /** The files of the first object, then those of the others. */
  lemma FilesCons(st: CsvState, st1: CsvState, out: CsvState, objs: seq<TdmsFile>, counter: int,
                  folders: map<string, string>, os: OsName)
    requires objs != []
    requires st.files.Keys <= st1.files.Keys
    requires forall g | g in objs[0].groups :: g.text in folders && CsvPath(folders[g.text], counter, os, "") in st1.files
    requires st1.files.Keys <= out.files.Keys
    requires forall k, g | 0 <= k < |objs[1..]| && g in objs[1..][k].groups ::
               g.text in folders && CsvPath(folders[g.text], counter + 1 + k, os, "") in out.files
    ensures st.files.Keys <= out.files.Keys
    ensures forall k, g | 0 <= k < |objs| && g in objs[k].groups ::
              g.text in folders && CsvPath(folders[g.text], counter + k, os, "") in out.files
  {
    forall k, g | 0 <= k < |objs| && g in objs[k].groups
      ensures g.text in folders && CsvPath(folders[g.text], counter + k, os, "") in out.files
    {
      if k > 0 {
        assert objs[1..][k - 1] == objs[k];
        assert counter + 1 + (k - 1) == counter + k;
      }
    }
  }

  /** A successful `writeFilesCSV` wrote one file per processed object and
      part, and returned the count of opened layers. */
  lemma CsvRunFiles(folders: map<string, string>, tdmsFiles: seq<TdmsFile>, numFiles: int,
                    batchSize: int, first: int, os: OsName)
    requires |tdmsFiles| > 0 && numFiles > 0 && batchSize != 0 && !os.OtherOs?
    requires CsvRunSpec(folders, tdmsFiles, numFiles, batchSize, first, os).1.Ok?
    ensures var (out, r) := CsvRunSpec(folders, tdmsFiles, numFiles, batchSize, first, os);
            var objs := Processed(tdmsFiles, numFiles, batchSize);
            && r.value == LayerTotal(|tdmsFiles|, numFiles)
            && forall k, g | 0 <= k < |objs| && g in objs[k].groups ::
                 g.text in folders && CsvPath(folders[g.text], first + k, os, "") in out.files
  {
    CsvStepRunsParts(folders, os);
    CsvFoldFiles(CsvStep(folders, os), CsvStart, Processed(tdmsFiles, numFiles, batchSize), first, folders, os);
  }

  /** The body of the part loop. */
  method CsvPart(st: CsvState, g: TdmsGroup, counter: int, folders: map<string, string>, os: OsName)
    returns (out: CsvState, err: Option<Error>)
    ensures (out, err) == CsvPartSpec(st, g, counter, folders, os)
  {
    var names, cols := GatherColumns(g.channels, st.names);
    out := st.(names := names);
    if cols.Err? {
      return out, Some(cols.error);
    }
    if g.text !in folders {
      return out, Some(MissingKey(g.text));
    }
    var path := SliceFileName(folders[g.text], counter, os, st.sliceFileName);
    out := out.(sliceFileName := path);
    if path == "" {
      return out, Some(CannotOpen(path));
    }
    if names.None? {
      out := out.(files := out.files[path := []]);
      return out, Some(NamesUnbound);
    }
    var content, e := WriteCsv(names.value, cols.value);
    out := out.(files := out.files[path := content]);
    err := e;
  }

  /** The `if os.name is ...` chain. */
  method SliceFileName(folder: string, counter: int, os: OsName, previous: string) returns (path: string)
    ensures path == CsvPath(folder, counter, os, previous)
  {
    path := previous;
    if os == Posix {
      path := folder + "/Slice000" + IntToString(counter) + ".csv";
    } else if os == Nt {
      path := folder + "\\Slice000" + IntToString(counter) + ".csv";
    }
  }

  /** The `with open(...)` block: the header, then the rows, or the header
      alone when the area column was never assigned. */
  method WriteCsv(names: seq<string>, cols: seq<Column>) returns (content: seq<Row>, err: Option<Error>)
    requires |cols| == SlotCount
    ensures CsvRows(cols).Err? ==> content == [NameRow(names)] && err == Some(CsvRows(cols).error)
    ensures CsvRows(cols).Ok? ==> content == [NameRow(names)] + SampleRows(CsvRows(cols).value) && err.None?
  {
    content := [NameRow(names)];
    var rows := CsvDataRows(cols);
    if rows.Err? {
      return content, Some(rows.error);
    }
    for i := 0 to |rows.value|
      invariant content == [NameRow(names)] + SampleRows(rows.value[..i])
    {
      assert SampleRows(rows.value[..i + 1]) == SampleRows(rows.value[..i]) + [SampleRow(rows.value[i])];
      content := content + [SampleRow(rows.value[i])];
    }
    assert rows.value[..|rows.value|] == rows.value;
    err := None;
  }

  /** The part loop of one processed object. */
  method CsvParts(st: CsvState, gs: seq<TdmsGroup>, counter: int, folders: map<string, string>, os: OsName)
    returns (out: CsvState, err: Option<Error>)
    ensures (out, err) == CsvPartsSpec(st, gs, counter, folders, os)
  {
    out := st;
    for i := 0 to |gs|
      invariant CsvPartsSpec(out, gs[i..], counter, folders, os) == CsvPartsSpec(st, gs, counter, folders, os)
    {
      assert gs[i..][1..] == gs[i + 1..];
      out, err := CsvPart(out, gs[i], counter, folders, os);
      if err.Some? {
        return;
      }
    }
    err := None;
  }

  /** `step` processes a TDMS object as its part loop does. */
  ghost predicate RunsParts(step: (CsvState, TdmsFile, int) -> (CsvState, Option<Error>), folders: map<string, string>, os: OsName) {
    forall st: CsvState, t: TdmsFile, counter: int {:trigger CsvPartsSpec(st, t.groups, counter, folders, os)} ::
      step(st, t, counter) == CsvPartsSpec(st, t.groups, counter, folders, os)
  }

  lemma CsvStepRunsParts(folders: map<string, string>, os: OsName)
    ensures RunsParts(CsvStep(folders, os), folders, os)
  {
  }

  lemma RunsPartsAgree(step: (CsvState, TdmsFile, int) -> (CsvState, Option<Error>), folders: map<string, string>, os: OsName)
    requires RunsParts(step, folders, os)
    ensures forall st, t, c :: step(st, t, c) == CsvStep(folders, os)(st, t, c)
  {
    forall st: CsvState, t: TdmsFile, c: int
      ensures step(st, t, c) == CsvStep(folders, os)(st, t, c)
    {
      assert CsvStep(folders, os)(st, t, c) == CsvPartsSpec(st, t.groups, c, folders, os);
    }
  }

  lemma CsvRunEnds(step: (CsvState, TdmsFile, int) -> (CsvState, Option<Error>), folders: map<string, string>, os: OsName,
                    tdmsFiles: seq<TdmsFile>, numFiles: int, batchSize: int, first: int, n: nat, st: CsvState, e: Option<Error>)
    requires RunsParts(step, folders, os)
    requires |tdmsFiles| > 0 && numFiles > 0 && batchSize != 0 && n <= LayerTotal(|tdmsFiles|, numFiles)
    requires (st, e) == Fold(step, CsvStart, Flushed(tdmsFiles, n, numFiles, batchSize), first)
    requires e.Some? || n == LayerTotal(|tdmsFiles|, numFiles)
    ensures CsvRunSpec(folders, tdmsFiles, numFiles, batchSize, first, os)
            == (st, if e.Some? then Err(e.value) else Ok(LayerTotal(|tdmsFiles|, numFiles)))
  {
    RunsPartsAgree(step, folders, os);
    BatchEnds(step, CsvStep(folders, os), CsvStart, tdmsFiles, numFiles, batchSize, first, n, st, e);
  }

  /** The flush: `for tdms in tdmsObjects`, each object taking the next
      slice counter. */
  method FlushCsv(ghost step: (CsvState, TdmsFile, int) -> (CsvState, Option<Error>),
                  st: CsvState, pending: seq<TdmsFile>, counter: int, folders: map<string, string>, os: OsName)
    returns (out: CsvState, last: int, err: Option<Error>)
    requires RunsParts(step, folders, os)
    ensures (out, err) == Fold(step, st, pending, counter + 1)
    ensures err.None? ==> last == counter + |pending|
  {
    out, last, err := st, counter, None;
    for k := 0 to |pending|
      invariant (out, None) == Fold(step, st, pending[..k], counter + 1)
      invariant last == counter + k
      invariant err.None?
    {
      ghost var cur := out;
      last := last + 1;
      out, err := CsvParts(out, pending[k].groups, last, folders, os);
      FoldNext(step, st, pending, k, counter + 1, cur, out, err);
      if err.Some? {
        return;
      }
    }
    assert pending[..|pending|] == pending;
  }

  /** The body of `for file in tdmsFiles`: open the next object, count
      it, and flush the queue when the batch is full or `numFiles` is
      reached. */
  method CsvOpenNext(ghost step: (CsvState, TdmsFile, int) -> (CsvState, Option<Error>),
                     folders: map<string, string>, os: OsName, tdmsFiles: seq<TdmsFile>, numFiles: int,
                     batchSize: int, first: int, start: nat, f: nat,
                     out0: CsvState, pending0: seq<TdmsFile>, counter0: int)
    returns (out: CsvState, pending: seq<TdmsFile>, counter: int, err: Option<Error>)
    requires RunsParts(step, folders, os)
    requires |tdmsFiles| > 0 && batchSize != 0
    requires Boundary(|tdmsFiles|, start) && f < |tdmsFiles|
    requires (out0, None) == Fold(step, CsvStart, Flushed(tdmsFiles, start + f, numFiles, batchSize), first)
    requires pending0 == Pending(tdmsFiles, start + f, numFiles, batchSize)
    requires counter0 == first - 1 + |Flushed(tdmsFiles, start + f, numFiles, batchSize)|
    ensures (out, err) == Fold(step, CsvStart, Flushed(tdmsFiles, start + f + 1, numFiles, batchSize), first)
    ensures err.None? ==> pending == Pending(tdmsFiles, start + f + 1, numFiles, batchSize)
    ensures err.None? ==> counter == first - 1 + |Flushed(tdmsFiles, start + f + 1, numFiles, batchSize)|
  {
    out, counter, err := out0, counter0, None;
    pending := pending0 + [tdmsFiles[f]];
    BatchOpen(step, CsvStart, tdmsFiles, numFiles, batchSize, first, start, f, out0, pending, counter0);
    if FlushAt(start + f + 1, numFiles, batchSize) {
      out, counter, err := FlushCsv(step, out, pending, counter, folders, os);
      pending := [];
    }
  }

  /** One pass of `for file in tdmsFiles`, from `start` opened layers,
      up to the first exception. */
  method CsvPass(ghost step: (CsvState, TdmsFile, int) -> (CsvState, Option<Error>),
                 folders: map<string, string>, os: OsName,
                 tdmsFiles: seq<TdmsFile>, numFiles: int, batchSize: int, first: int, start: nat,
                 out0: CsvState, pending0: seq<TdmsFile>, counter0: int)
    returns (out: CsvState, pending: seq<TdmsFile>, counter: int, numLayers: nat, err: Option<Error>)
    requires RunsParts(step, folders, os)
    requires |tdmsFiles| > 0 && batchSize != 0 && Boundary(|tdmsFiles|, start)
    requires (out0, None) == Fold(step, CsvStart, Flushed(tdmsFiles, start, numFiles, batchSize), first)
    requires pending0 == Pending(tdmsFiles, start, numFiles, batchSize)
    requires counter0 == first - 1 + |Flushed(tdmsFiles, start, numFiles, batchSize)|
    ensures start < numLayers <= start + |tdmsFiles|
    ensures (out, err) == Fold(step, CsvStart, Flushed(tdmsFiles, numLayers, numFiles, batchSize), first)
    ensures err.None? ==> numLayers == start + |tdmsFiles|
    ensures err.None? ==> pending == Pending(tdmsFiles, numLayers, numFiles, batchSize)
    ensures err.None? ==> counter == first - 1 + |Flushed(tdmsFiles, numLayers, numFiles, batchSize)|
  {
    out, pending, counter, numLayers, err := out0, pending0, counter0, start, None;
    for f := 0 to |tdmsFiles|
      invariant numLayers == start + f
      invariant pending == Pending(tdmsFiles, numLayers, numFiles, batchSize)
      invariant (out, None) == Fold(step, CsvStart, Flushed(tdmsFiles, numLayers, numFiles, batchSize), first)
      invariant counter == first - 1 + |Flushed(tdmsFiles, numLayers, numFiles, batchSize)|
      invariant err.None?
    {
      out, pending, counter, err := CsvOpenNext(step, folders, os, tdmsFiles, numFiles, batchSize, first,
                                                start, f, out, pending, counter);
      numLayers := numLayers + 1;
      if err.Some? {
        return;
      }
    }
  }

  /** `while numLayers < numFiles: for file in tdmsFiles: ...`, up to the
      first exception: the objects opened so far, and the flushed ones
      processed. */
  method CsvLayers(ghost step: (CsvState, TdmsFile, int) -> (CsvState, Option<Error>),
                   folders: map<string, string>, os: OsName,
                   tdmsFiles: seq<TdmsFile>, numFiles: int, batchSize: int, first: int)
    returns (out: CsvState, numLayers: nat, err: Option<Error>)
    requires RunsParts(step, folders, os)
    requires |tdmsFiles| > 0 && numFiles > 0 && batchSize != 0
    ensures numLayers <= LayerTotal(|tdmsFiles|, numFiles)
    ensures (out, err) == Fold(step, CsvStart, Flushed(tdmsFiles, numLayers, numFiles, batchSize), first)
    ensures err.None? ==> numLayers == LayerTotal(|tdmsFiles|, numFiles)
  {
    out, numLayers, err := CsvStart, 0, None;
    var pending: seq<TdmsFile> := [];
    var counter := first - 1;
    var total := LayerTotal(|tdmsFiles|, numFiles);
    while numLayers < numFiles
      invariant Boundary(|tdmsFiles|, numLayers)
      invariant Passes(|tdmsFiles|, numFiles, numLayers) == total
      invariant pending == Pending(tdmsFiles, numLayers, numFiles, batchSize)
      invariant (out, None) == Fold(step, CsvStart, Flushed(tdmsFiles, numLayers, numFiles, batchSize), first)
      invariant counter == first - 1 + |Flushed(tdmsFiles, numLayers, numFiles, batchSize)|
      invariant err.None?
      decreases numFiles - numLayers
    {
      var start := numLayers;
      assert Passes(|tdmsFiles|, numFiles, start + |tdmsFiles|) == total;
      out, pending, counter, numLayers, err := CsvPass(step, folders, os, tdmsFiles, numFiles, batchSize, first,
                                                     start, out, pending, counter);
      if err.Some? {
        return;
      }
      assert Boundary(|tdmsFiles|, numLayers) by {
        assert numLayers - |tdmsFiles| == start;
      }
    }
  }

  /** `writeFilesCSV(folderDictionary, tdmsFiles, ..., numFiles, batchSize,
      firstSliceNum)`, with the listing's TDMS objects given as read. */
  method WriteFilesCsv(folders: map<string, string>, tdmsFiles: seq<TdmsFile>, numFiles: int,
                       batchSize: int, first: int, os: OsName)
    returns (out: CsvState, r: Result<nat>)
    requires |tdmsFiles| > 0 || numFiles <= 0
    ensures (out, r) == CsvRunSpec(folders, tdmsFiles, numFiles, batchSize, first, os)
  {
    out := CsvStart;
    if numFiles <= 0 {
      return out, Ok(0);
    }
    if batchSize == 0 {
      return out, Err(ZeroBatchSize);
    }
    CsvStepRunsParts(folders, os);
    ghost var step: (CsvState, TdmsFile, int) -> (CsvState, Option<Error>) :| RunsParts(step, folders, os);
    var numLayers, err;
    out, numLayers, err := CsvLayers(step, folders, os, tdmsFiles, numFiles, batchSize, first);
    CsvRunEnds(step, folders, os, tdmsFiles, numFiles, batchSize, first, numLayers, out, err);
    if err.Some? {
      return out, Err(err.value);
    }
    return out, Ok(numLayers);
  }
}
