/** Shared vocabulary of the converters: the error kinds the Python code raises,
    the values a TDMS reader yields, and the decimal text conversions that
    `int(...)` and `str(...)` perform on slice numbers. */
module Common {

  datatype Option<T> = None | Some(value: T)

  datatype Result<T> = Ok(value: T) | Err(error: Error)

  /** The exceptions the converters raise, one constructor per cause. */
  datatype Error =
    | NoSliceNumber(path: string)            // `regex_name.search` found nothing: AttributeError
    | NodeExists(group: string, key: string)  // h5py `create_group` on an existing name
    | DatasetExists(name: string)             // h5py `create_dataset` on an existing name
    | ContainerClosed(group: string)          // writing to an h5py file that was closed
    | MissingNode(key: string)                // KeyError reading `Slices/<key>`
    | MissingDataset(key: string, name: string)
    | MissingAttribute(key: string, name: string)
    | NotAnInteger(key: string, name: string) // value that the int column cannot hold
    | IntOverflow(value: int)                 // OverflowError storing into an int64 column
    | ZeroBatchSize                           // ZeroDivisionError in `numLayers % batchSize`
    | NameIndexOutOfRange(index: nat)         // IndexError in `names[k]`
    | AreaNotArray                            // TypeError of `len([] > 1)`
    | MissingKey(key: string)                 // KeyError on a dictionary lookup
    | NamesUnbound                            // `names` read before any assignment
    | CannotOpen(path: string)                // `open("")`

  /** A `numpy.datetime64` value, as a count of ticks; never computed on. */
  datatype Timestamp = Timestamp(ticks: int)

  /** A TDMS property value or an HDF5 attribute value. `Bytes` is what
      `np.string_` makes of a text. */
  datatype Value =
    | IntValue(i: int)
    | FloatValue(bits: bv64)
    | TextValue(s: string)
    | TimeValue(t: Timestamp)
    | BytesValue(b: string)

  /** One sample of a channel: copied from input to output, never computed on. */
  datatype Sample = Sample(bits: bv64)

  /** An ordered property dictionary, as nptdms returns it. */
  type PropertyBag = seq<(string, Value)>

  /** A channel: its name, its `str(...)` form and its samples. */
  datatype Channel = Channel(name: string, text: string, data: seq<Sample>)

  /** A TDMS group: its name, its `str(...)` form, its properties and channels. */
  datatype TdmsGroup = TdmsGroup(name: string, text: string, properties: PropertyBag, channels: seq<Channel>)

  /** The content of one TDMS file as the reader yields it. */
  datatype TdmsFile = TdmsFile(properties: PropertyBag, groups: seq<TdmsGroup>)

  // ----- substrings (Python's `a in b` on strings) -----

  predicate OccursAt(needle: string, hay: string, i: int) {
    0 <= i <= |hay| - |needle| && hay[i..i + |needle|] == needle
  }

  predicate IsSubstring(needle: string, hay: string) {
    exists i | 0 <= i <= |hay| - |needle| :: OccursAt(needle, hay, i)
  }

  /** Python's `s.rfind(c)`: the last position of `c`, or -1. */
  function LastIndexOf(s: string, c: char): (r: int)
    ensures -1 <= r < |s|
    ensures r >= 0 ==> s[r] == c
    ensures forall k | r < k < |s| :: s[k] != c
  {
    if s == [] then -1 else if s[|s| - 1] == c then |s| - 1 else LastIndexOf(s[..|s| - 1], c)
  }

  /** Python's `s.split(c)[-1]`: the text after the last `c`. */
  function AfterLast(s: string, c: char): (r: string)
    ensures c !in r && |r| <= |s|
    ensures r == s[|s| - |r|..]
    ensures |r| < |s| ==> s[|s| - |r| - 1] == c
  {
    s[LastIndexOf(s, c) + 1..]
  }

  // ----- decimal digits -----

  predicate IsDigit(c: char) {
    '0' <= c <= '9'
  }

  predicate AllDigits(s: string) {
    forall i | 0 <= i < |s| :: IsDigit(s[i])
  }

  function DigitValue(c: char): (d: nat)
    requires IsDigit(c)
    ensures d < 10
  {
    c as int - '0' as int
  }

  function DigitChar(d: nat): (c: char)
    requires d < 10
    ensures IsDigit(c) && DigitValue(c) == d
  {
    ('0' as int + d) as char
  }

  /** Python's `int(ds)` for a run of ASCII digits (leading zeros allowed). */
  function ParseDigits(ds: string): nat
    requires AllDigits(ds)
  {
    if ds == [] then 0 else 10 * ParseDigits(ds[..|ds| - 1]) + DigitValue(ds[|ds| - 1])
  }

  /** Python's `str(n)` for a non-negative integer. */
  function NatToString(n: nat): (s: string)
    ensures |s| >= 1 && AllDigits(s)
    ensures s[0] != '0' || s == "0"
  {
    if n < 10 then [DigitChar(n)] else NatToString(n / 10) + [DigitChar(n % 10)]
  }

  /** Python's `str(i)` for any integer. */
  function IntToString(i: int): (s: string)
    ensures |s| >= 1
    ensures i < 0 <==> s[0] == '-'
  {
    if i < 0 then "-" + NatToString(-i) else NatToString(i)
  }

  /** `ds` without its leading zeros. */
  function StripLeadingZeros(ds: string): (r: string)
    ensures |r| <= |ds| && r == ds[|ds| - |r|..]
    ensures r == [] || r[0] != '0'
    ensures forall i | 0 <= i < |ds| - |r| :: ds[i] == '0'
  {
    if ds != [] && ds[0] == '0' then StripLeadingZeros(ds[1..]) else ds
  }

  lemma {:induction false} ParseOfNatToString(n: nat)
    ensures ParseDigits(NatToString(n)) == n
  {
    if n >= 10 {
      ParseOfNatToString(n / 10);
      var s := NatToString(n / 10) + [DigitChar(n % 10)];
      assert s[..|s| - 1] == NatToString(n / 10);
    }
  }

  lemma {:induction false} ParseIgnoresLeadingZeros(ds: string)
    requires AllDigits(ds)
    ensures ParseDigits(StripLeadingZeros(ds)) == ParseDigits(ds)
  {
    if ds != [] && ds[0] == '0' {
      ParseIgnoresLeadingZeros(ds[1..]);
      ParseDropsFirstZero(ds);
    }
  }

  /** A leading zero does not change the value. */
  lemma {:induction false} ParseDropsFirstZero(ds: string)
    requires AllDigits(ds) && ds != [] && ds[0] == '0'
    ensures ParseDigits(ds) == ParseDigits(ds[1..])
    decreases |ds|
  {
    if |ds| > 1 {
      var init := ds[..|ds| - 1];
      ParseDropsFirstZero(init);
      assert init[1..] == ds[1..][..|ds[1..]| - 1];
    }
  }

  /** A digit run that does not start with '0' has a value of at least one. */
  lemma {:induction false} ParsePositive(ds: string)
    requires AllDigits(ds) && ds != [] && ds[0] != '0'
    ensures ParseDigits(ds) >= 1
    decreases |ds|
  {
    if |ds| > 1 {
      ParsePositive(ds[..|ds| - 1]);
    }
  }

  /** `str(int(ds)) == ds` for a canonical decimal run. */
  lemma {:induction false} NatToStringOfParse(ds: string)
    requires AllDigits(ds) && ds != [] && (ds[0] != '0' || |ds| == 1)
    ensures NatToString(ParseDigits(ds)) == ds
    decreases |ds|
  {
    if |ds| > 1 {
      var init := ds[..|ds| - 1];
      NatToStringOfParse(init);
      ParsePositive(init);
      var n := ParseDigits(ds);
      assert n / 10 == ParseDigits(init) && n % 10 == DigitValue(ds[|ds| - 1]);
      assert ds == init + [ds[|ds| - 1]];
    }
  }

  /** `str(int(ds))` is `ds` without its leading zeros, or "0" when nothing is left. */
  lemma CanonicalDecimal(ds: string)
    requires AllDigits(ds) && ds != []
    ensures NatToString(ParseDigits(ds)) == (if StripLeadingZeros(ds) == [] then "0" else StripLeadingZeros(ds))
  {
    var r := StripLeadingZeros(ds);
    assert AllDigits(r) by {
      forall i | 0 <= i < |r| ensures IsDigit(r[i]) {
        assert r[i] == ds[|ds| - |r| + i];
      }
    }
    ParseIgnoresLeadingZeros(ds);
    var n := ParseDigits(ds);
    assert n == ParseDigits(r);
    if r == [] {
      assert n == 0;
      assert NatToString(n) == [DigitChar(0)];
    } else {
      NatToStringOfParse(r);
    }
  }

  /** Distinct integers print differently. */
  lemma IntToStringInjective(a: int, b: int)
    requires IntToString(a) == IntToString(b)
    ensures a == b
  {
    if a < 0 {
      assert IntToString(a)[1..] == NatToString(-a);
      ParseOfNatToString(-a);
      ParseOfNatToString(-b);
    } else {
      ParseOfNatToString(a);
      ParseOfNatToString(b);
    }
  }
}
