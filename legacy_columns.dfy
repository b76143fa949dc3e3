/** The per-channel loop shared by the legacy writers: the short names of a
    group's channels, the `if names[0] in name: ... elif names[5] in name`
    dispatch of each channel to one of six columns, and the data rows the
    CSV writer makes of those columns. */
module LegacyColumns {
  import opened Common

  // ----- short names -----

  /** `s.lstrip(c)`. */
  function StripLeft(s: string, c: char): string {
    if s != [] && s[0] == c then StripLeft(s[1..], c) else s
  }

  /** `s.rstrip(c)`. */
  function StripRight(s: string, c: char): string {
    if s != [] && s[|s| - 1] == c then StripRight(s[..|s| - 1], c) else s
  }

  /** `lstrip` keeps a suffix that does not start with `c` and drops only
      `c`s before it. */
  lemma {:induction false} StripLeftKeepsSuffix(s: string, c: char)
    ensures var r := StripLeft(s, c);
            && |r| <= |s| && r == s[|s| - |r|..] && (r != [] ==> r[0] != c)
            && forall i | 0 <= i < |s| - |r| :: s[i] == c
  {
    if s != [] && s[0] == c {
      StripLeftKeepsSuffix(s[1..], c);
      var r := StripLeft(s, c);
      assert forall i | 1 <= i < |s| - |r| :: s[i] == s[1..][i - 1];
    }
  }

  /** `rstrip` keeps a prefix that does not end with `c` and drops only
      `c`s after it. */
  lemma {:induction false} StripRightKeepsPrefix(s: string, c: char)
    ensures var r := StripRight(s, c);
            && |r| <= |s| && r == s[..|r|] && (r != [] ==> r[|r| - 1] != c)
            && forall i | |r| <= i < |s| :: s[i] == c
  {
    if s != [] && s[|s| - 1] == c {
      StripRightKeepsPrefix(s[..|s| - 1], c);
      var r := StripRight(s, c);
      assert forall i | |r| <= i < |s| - 1 :: s[i] == s[..|s| - 1][i];
    }
  }

  /** `s.strip(c)`: every leading and trailing `c` removed. */
  function Strip(s: string, c: char): string {
    StripRight(StripLeft(s, c), c)
  }

  /** `str(i).split("/")[-1].strip(">").strip("'")`: the channel's name as
      read back from the text of the channel object. */
  function ShortName(text: string): string {
    Strip(Strip(AfterLast(text, '/'), '>'), '\'')
  }

  /** The short names of a group's channels, in channel order. */
  function ShortNames(chs: seq<Channel>): (r: seq<string>)
    ensures |r| == |chs|
  {
    if chs == [] then [] else ShortNames(chs[..|chs| - 1]) + [ShortName(chs[|chs| - 1].text)]
  }

  /** Entry `i` is the short name of channel `i`. */
  lemma {:induction false} ShortNamesAt(chs: seq<Channel>, i: nat)
    requires i < |chs|
    ensures ShortNames(chs)[i] == ShortName(chs[i].text)
  {
    if i < |chs| - 1 {
      ShortNamesAt(chs[..|chs| - 1], i);
    }
  }

  /** The loop that rebuilds `names` from the channel texts. */
  method ChannelNames(chs: seq<Channel>) returns (names: seq<string>)
    ensures names == ShortNames(chs)
  {
    names := [];
    for i := 0 to |chs|
      invariant names == ShortNames(chs[..i])
    {
      assert chs[..i + 1][..i] == chs[..i];
      names := names + [ShortName(chs[i].text)];
    }
    assert chs[..|chs|] == chs;
  }

  lemma AfterLastOfSuffix(prefix: string, tail: string)
    requires '/' !in tail
    ensures AfterLast(prefix + "/" + tail, '/') == tail
  {
    var s := prefix + "/" + tail;
    var r := LastIndexOf(s, '/');
    assert s[|prefix|] == '/';
    forall k | |prefix| < k < |s| ensures s[k] != '/' {
      assert s[k] == tail[k - |prefix| - 1];
    }
    assert r == |prefix|;
    assert s[r + 1..] == tail;
  }

  /** A channel object whose text ends in the conventional
      `/'<group>'/'<channel>'>` path yields its channel name, provided the
      name holds no `/` and does not start or end with a quote. */
  lemma ShortNameOfPath(prefix: string, name: string)
    requires '/' !in name
    requires name == [] || (name[0] != '\'' && name[|name| - 1] != '\'')
    ensures ShortName(prefix + "/'" + name + "'>") == name
  {
    var tail := "'" + name + "'>";
    assert prefix + "/'" + name + "'>" == prefix + "/" + tail;
    AfterLastOfSuffix(prefix, tail);
    DropClosingBracket(name);
    Unquote(name);
  }

  lemma DropClosingBracket(name: string)
    ensures Strip("'" + name + "'>", '>') == "'" + name + "'"
  {
    var tail := "'" + name + "'>";
    var quoted := "'" + name + "'";
    assert StripLeft(tail, '>') == tail;
    assert tail[..|tail| - 1] == quoted;
    assert StripRight(tail, '>') == StripRight(quoted, '>') == quoted;
  }

  lemma Unquote(name: string)
    requires name == [] || (name[0] != '\'' && name[|name| - 1] != '\'')
    ensures Strip("'" + name + "'", '\'') == name
  {
    var quoted := "'" + name + "'";
    if name == [] {
      assert quoted[1..][1..] == [];
      assert StripLeft(quoted, '\'') == StripLeft(quoted[1..], '\'') == [];
    } else {
      assert quoted[1..] == name + "'";
      assert StripLeft(quoted, '\'') == name + "'";
      assert (name + "'")[..|name|] == name;
      assert StripRight(name + "'", '\'') == StripRight(name, '\'') == name;
    }
  }

  // ----- the six columns -----

  /** A column variable: still the `[]` it was reset to, or the data of the
      last channel dispatched to it. */
  datatype Column = Unset | Data(samples: seq<Sample>)

  /** The columns, in dispatch order: `areaCol`, `xCol`, `yCol`,
      `paramCol`, `intensityCol`, `laserCol`. */
  const AreaSlot: nat := 0
  const XSlot: nat := 1
  const YSlot: nat := 2
  const ParamSlot: nat := 3
  const IntensitySlot: nat := 4
  const LaserSlot: nat := 5
  const SlotCount: nat := 6

  const NoColumns: seq<Column> := [Unset, Unset, Unset, Unset, Unset, Unset]

  /** The `elif` chain from test `k` on: the first `names[j] in name`, an
      `IndexError` once `j` passes the end of `names`, nothing after six tests. */
  function SlotFrom(names: seq<string>, name: string, k: nat): (r: Result<Option<nat>>)
    requires k <= SlotCount
    ensures r.Ok? && r.value.Some? ==> k <= r.value.value < SlotCount
    decreases SlotCount - k
  {
    if k == SlotCount then Ok(None)
    else if k >= |names| then Err(NameIndexOutOfRange(k))
    else if IsSubstring(names[k], name) then Ok(Some(k))
    else SlotFrom(names, name, k + 1)
  }

  /** The column a channel named `name` is stored in. */
  function SlotOf(names: seq<string>, name: string): (r: Result<Option<nat>>)
    ensures r.Ok? && r.value.Some? ==> r.value.value < SlotCount
  {
    SlotFrom(names, name, 0)
  }

  lemma {:induction false} SlotFromCases(names: seq<string>, name: string, k: nat)
    requires k <= SlotCount
    requires k <= |names| && forall j | 0 <= j < k :: !IsSubstring(names[j], name)
    ensures var r := SlotFrom(names, name, k);
            && (r.Ok? && r.value.Some? ==>
                  && r.value.value < |names| && IsSubstring(names[r.value.value], name)
                  && forall j | 0 <= j < r.value.value :: !IsSubstring(names[j], name))
            && (r == Ok(None) <==> SlotCount <= |names| && forall j | 0 <= j < SlotCount :: !IsSubstring(names[j], name))
            && (r.Err? <==> |names| < SlotCount && forall j | 0 <= j < |names| :: !IsSubstring(names[j], name))
            && (r.Err? ==> r.error == NameIndexOutOfRange(|names|))
    decreases SlotCount - k
  {
    if k < SlotCount && k < |names| && !IsSubstring(names[k], name) {
      SlotFromCases(names, name, k + 1);
    }
  }

  /** The dispatch picks the first of the six names that occurs in the
      channel name; it raises `IndexError` exactly when fewer than six names
      exist and none of them occurs; it stores nothing when six exist and
      none occurs. */
  lemma SlotOfCases(names: seq<string>, name: string)
    ensures var r := SlotOf(names, name);
            && (r.Ok? && r.value.Some? ==>
                  && r.value.value < |names| && IsSubstring(names[r.value.value], name)
                  && forall j | 0 <= j < r.value.value :: !IsSubstring(names[j], name))
            && (r == Ok(None) <==> SlotCount <= |names| && forall j | 0 <= j < SlotCount :: !IsSubstring(names[j], name))
            && (r.Err? <==> |names| < SlotCount && forall j | 0 <= j < |names| :: !IsSubstring(names[j], name))
            && (r.Err? ==> r.error == NameIndexOutOfRange(|names|))
  {
    SlotFromCases(names, name, 0);
  }

  /** A channel whose name contains one of the names never raises. */
  lemma ListedNameNeverRaises(names: seq<string>, name: string, i: nat)
    requires i < |names| && IsSubstring(names[i], name)
    ensures SlotOf(names, name).Ok?
  {
    SlotOfCases(names, name);
  }

  /** The columns after the channel loop over `chs`. */
  function Dispatch(names: seq<string>, chs: seq<Channel>): (r: Result<seq<Column>>)
    ensures r.Ok? ==> |r.value| == SlotCount
    decreases |chs|
  {
    if chs == [] then Ok(NoColumns)
    else match Dispatch(names, chs[..|chs| - 1])
      case Err(e) => Err(e)
      case Ok(cols) =>
        match SlotOf(names, chs[|chs| - 1].name)
        case Err(e) => Err(e)
        case Ok(None) => Ok(cols)
        case Ok(Some(k)) => Ok(cols[k := Data(chs[|chs| - 1].data)])
  }

  /** Reference reading: the last channel of `chs` dispatched to column `k`. */
  function LastInSlot(names: seq<string>, chs: seq<Channel>, k: nat): (r: Option<nat>)
    ensures r.Some? ==> r.value < |chs| && SlotOf(names, chs[r.value].name) == Ok(Some(k))
    ensures forall j | (if r.Some? then r.value else -1) < j < |chs| :: SlotOf(names, chs[j].name) != Ok(Some(k))
    decreases |chs|
  {
    if chs == [] then None
    else if SlotOf(names, chs[|chs| - 1].name) == Ok(Some(k)) then Some(|chs| - 1)
    else
      var r := LastInSlot(names, chs[..|chs| - 1], k);
      assert forall j | (if r.Some? then r.value else -1) < j < |chs| - 1 :: chs[j] == chs[..|chs| - 1][j];
      r
  }

  /** The channel loop succeeds exactly when no channel's dispatch raises. */
  lemma {:induction false} DispatchSucceeds(names: seq<string>, chs: seq<Channel>)
    ensures Dispatch(names, chs).Ok? <==> forall j | 0 <= j < |chs| :: SlotOf(names, chs[j].name).Ok?
    decreases |chs|
  {
    if chs != [] {
      var init := chs[..|chs| - 1];
      DispatchSucceeds(names, init);
      assert forall j | 0 <= j < |init| :: init[j] == chs[j];
    }
  }

  /** After a successful channel loop every column holds the data of the
      last channel dispatched to it, and a column no channel reached is
      still unset. */
  lemma {:induction false} DispatchLookup(names: seq<string>, chs: seq<Channel>, k: nat)
    requires k < SlotCount && Dispatch(names, chs).Ok?
    ensures Dispatch(names, chs).value[k]
              == match LastInSlot(names, chs, k) case None => Unset case Some(j) => Data(chs[j].data)
    decreases |chs|
  {
    if chs != [] {
      var init := chs[..|chs| - 1];
      DispatchLookup(names, init, k);
      if LastInSlot(names, chs, k) != Some(|chs| - 1) {
        assert LastInSlot(names, chs, k) == LastInSlot(names, init, k);
        match LastInSlot(names, init, k) {
          case None =>
          case Some(j) => assert init[j] == chs[j];
        }
      }
    }
  }

  /** When every channel's name contains its own short name (as it does
      for the conventional channel texts) the loop never raises; the
      failure needs a channel whose name contains none of the first six
      names. */
  lemma {:induction false} OwnNamesNeverRaise(chs: seq<Channel>)
    requires forall j | 0 <= j < |chs| :: IsSubstring(ShortName(chs[j].text), chs[j].name)
    ensures Dispatch(ShortNames(chs), chs).Ok?
  {
    var names := ShortNames(chs);
    forall j | 0 <= j < |chs| ensures SlotOf(names, chs[j].name).Ok? {
      ShortNamesAt(chs, j);
      ListedNameNeverRaises(names, chs[j].name, j);
    }
    DispatchSucceeds(names, chs);
  }

  /** No channel raises when each channel's name contains its own entry. */
  lemma ContainedNamesNeverRaise(names: seq<string>, chs: seq<Channel>)
    requires |chs| <= |names|
    requires forall j | 0 <= j < |chs| :: IsSubstring(names[j], chs[j].name)
    ensures Dispatch(names, chs).Ok?
  {
    forall j | 0 <= j < |chs| ensures SlotOf(names, chs[j].name).Ok? {
      ListedNameNeverRaises(names, chs[j].name, j);
    }
    DispatchSucceeds(names, chs);
  }

  /** An error in the loop over a prefix of the channels ends the loop. */
  lemma {:induction false} DispatchErrorStops(names: seq<string>, chs: seq<Channel>, n: nat)
    requires n <= |chs| && Dispatch(names, chs[..n]).Err?
    ensures Dispatch(names, chs) == Dispatch(names, chs[..n])
    decreases |chs|
  {
    if n < |chs| {
      var init := chs[..|chs| - 1];
      assert init[..n] == chs[..n];
      DispatchErrorStops(names, init, n);
    } else {
      assert chs[..n] == chs;
    }
  }

  /** One more channel of the loop. */
  lemma DispatchStep(names: seq<string>, chs: seq<Channel>, i: nat, cols: seq<Column>)
    requires i < |chs| && Dispatch(names, chs[..i]) == Ok(cols)
    ensures Dispatch(names, chs[..i + 1])
            == match SlotOf(names, chs[i].name)
               case Err(e) => Err(e)
               case Ok(None) => Ok(cols)
               case Ok(Some(k)) => Ok(cols[k := Data(chs[i].data)])
  {
    assert chs[..i + 1][..i] == chs[..i];
  }

  /** The channel loop of one group: `names` is rebuilt on every pass (it
      keeps its old value when the group has no channel), then the channel
      is stored in the column the `elif` chain picks. */
  method GatherColumns(chs: seq<Channel>, names0: Option<seq<string>>)
    returns (names: Option<seq<string>>, r: Result<seq<Column>>)
    ensures names == if chs == [] then names0 else Some(ShortNames(chs))
    ensures r == Dispatch(ShortNames(chs), chs)
  {
    names := names0;
    var cols := NoColumns;
    for i := 0 to |chs|
      invariant i > 0 ==> names == Some(ShortNames(chs))
      invariant i == 0 ==> names == names0
      invariant Dispatch(ShortNames(chs), chs[..i]) == Ok(cols)
    {
      var current := ChannelNames(chs);
      names := Some(current);
      DispatchStep(current, chs, i, cols);
      match SlotOf(current, chs[i].name) {
        case Err(e) =>
          DispatchErrorStops(current, chs, i + 1);
          return names, Err(e);
        case Ok(None) =>
        case Ok(Some(k)) =>
          cols := cols[k := Data(chs[i].data)];
      }
    }
    assert chs[..|chs|] == chs;
    r := Ok(cols);
  }

  // ----- CSV rows -----

  function ColumnLength(c: Column): nat {
    match c
    case Unset => 0
    case Data(samples) => |samples|
  }

  /** Whether every column has an element at `row`: otherwise the row
      raises `IndexError`, which the writer catches and skips. */
  predicate RowFits(cols: seq<Column>, row: nat) {
    forall k | 0 <= k < |cols| :: row < ColumnLength(cols[k])
  }

  /** The shortest column's length. */
  function RowCount(cols: seq<Column>): (n: nat)
    ensures forall k | 0 <= k < |cols| :: n <= ColumnLength(cols[k])
    ensures cols != [] ==> exists k | 0 <= k < |cols| :: n == ColumnLength(cols[k])
  {
    if cols == [] then 0
    else if |cols| == 1 then ColumnLength(cols[0])
    else
      var rest := RowCount(cols[1..]);
      assert forall k | 1 <= k < |cols| :: cols[k] == cols[1..][k - 1];
      if ColumnLength(cols[0]) <= rest then ColumnLength(cols[0]) else rest
  }

  /** Row `row` across the six columns. */
  function RowAt(cols: seq<Column>, row: nat): (r: seq<Sample>)
    requires RowFits(cols, row)
  {
    seq(|cols|, k requires 0 <= k < |cols| => cols[k].samples[row])
  }

  /** The rows the `for rows in range(len(areaCol))` loop writes among the
      first `n`: those every column reaches, in order. */
  function RowsUpTo(cols: seq<Column>, n: nat): (r: seq<seq<Sample>>)
    requires cols != []
    ensures |r| == if n <= RowCount(cols) then n else RowCount(cols)
    ensures forall i | 0 <= i < |r| :: RowFits(cols, i) && r[i] == RowAt(cols, i)
  {
    if n == 0 then []
    else
      var prev := RowsUpTo(cols, n - 1);
      if RowFits(cols, n - 1) then prev + [RowAt(cols, n - 1)]
      else
        var k :| 0 <= k < |cols| && RowCount(cols) == ColumnLength(cols[k]);
        prev
  }

  /** The data rows of one CSV file, or the `TypeError` of `len(areaCol > 1)`
      when no channel went to the area column. */
  function CsvRows(cols: seq<Column>): (r: Result<seq<seq<Sample>>>)
    requires |cols| == SlotCount
    ensures r.Err? <==> cols[AreaSlot].Unset?
    ensures r.Err? ==> r.error == AreaNotArray
    ensures r.Ok? ==> |r.value| == RowCount(cols)
    ensures r.Ok? ==> forall i | 0 <= i < |r.value| :: RowFits(cols, i) && r.value[i] == RowAt(cols, i)
  {
    match cols[AreaSlot]
    case Unset => Err(AreaNotArray)
    case Data(area) => Ok(RowsUpTo(cols, |area|))
  }

  /** The row loop: each row index of the area column, written when every
      column reaches it. */
  method CsvDataRows(cols: seq<Column>) returns (r: Result<seq<seq<Sample>>>)
    requires |cols| == SlotCount
    ensures r == CsvRows(cols)
  {
    if cols[AreaSlot].Unset? {
      return Err(AreaNotArray);
    }
    var rows: seq<seq<Sample>> := [];
    for row := 0 to |cols[AreaSlot].samples|
      invariant rows == RowsUpTo(cols, row)
    {
      if RowFits(cols, row) {
        rows := rows + [RowAt(cols, row)];
      }
    }
    r := Ok(rows);
  }
}
