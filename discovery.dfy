/** Slice discovery in `tdms2h5`: which globbed paths are converted
    (`re.compile(r'Slice\d+.tdms$').search`) and which slice number a
    converted path carries (`int(re.compile(r'Slice(\d+)').search(stem).group(1))`). */
module Discovery {
  import opened Common

  const SliceWord: string := "Slice"
  const TdmsWord: string := "tdms"

  /** `w` occurs in `s` at position `i`. */
  predicate HasAt(s: string, i: int, w: string) {
    0 <= i && i + |w| <= |s| && s[i..i + |w|] == w
  }

  /** Every character of `s` in `[a, b)` is a digit. */
  predicate DigitsBetween(s: string, a: int, b: int)
    requires 0 <= a <= b <= |s|
  {
    forall k | a <= k < b :: IsDigit(s[k])
  }

  /** The number of digits just before position `j` of `s`. */
  function DigitsBefore(s: string, j: nat): (t: nat)
    requires j <= |s|
    ensures t <= j && DigitsBetween(s, j - t, j)
    ensures t < j ==> !IsDigit(s[j - t - 1])
  {
    if j > 0 && IsDigit(s[j - 1]) then DigitsBefore(s, j - 1) + 1 else 0
  }

  /** The number of digits from position `i` of `s` on. */
  function DigitsFrom(s: string, i: nat): (d: nat)
    requires i <= |s|
    ensures i + d <= |s| && DigitsBetween(s, i, i + d)
    ensures i + d < |s| ==> !IsDigit(s[i + d])
    decreases |s| - i
  {
    if i < |s| && IsDigit(s[i]) then DigitsFrom(s, i + 1) + 1 else 0
  }

  /** Where the pattern's `$` matches: the end of the text, or just before a
      final newline. */
  function AnchorEnd(s: string): (e: nat)
    ensures e <= |s|
  {
    if |s| > 0 && s[|s| - 1] == '\n' then |s| - 1 else |s|
  }

  /** Decides the file pattern: "Slice", one or more digits, any character
      but a newline (the `.` is not escaped), "tdms", then the end anchor. */
  predicate SelectsPath(path: string) {
    var e := AnchorEnd(path);
    && e >= 5
    && HasAt(path, e - 4, TdmsWord)
    && path[e - 5] != '\n'
    && EndsWithSliceRun(path, e - 5)
  }

  /** The text before position `j` ends with "Slice" and a non-empty digit run. */
  predicate EndsWithSliceRun(s: string, j: nat)
    requires j <= |s|
  {
    var t := DigitsBefore(s, j);
    t >= 1 && j - t >= 5 && HasAt(s, j - t - 5, SliceWord)
  }

  /** The regular-expression reading of the file pattern: a match of
      "Slice" at `i`, digits up to `j`, any non-newline character at `j`,
      "tdms", and then either the end or a final newline. */
  ghost predicate FileMatchAt(s: string, i: int, j: int) {
    && 0 <= i && i + 5 < j && j + 5 <= |s|
    && HasAt(s, i, SliceWord)
    && DigitsBetween(s, i + 5, j)
    && s[j] != '\n'
    && HasAt(s, j + 1, TdmsWord)
    && (j + 5 == |s| || (j + 6 == |s| && s[j + 5] == '\n'))
  }

  ghost predicate FileMatches(s: string) {
    exists i, j :: FileMatchAt(s, i, j)
  }

  /** The digit run ending at `j` is exactly the longest one. */
  lemma {:induction false} DigitsBeforeExact(s: string, m: nat, j: nat)
    requires m <= j <= |s| && DigitsBetween(s, m, j)
    requires m == 0 || !IsDigit(s[m - 1])
    ensures DigitsBefore(s, j) == j - m
    decreases j
  {
    if m < j {
      DigitsBeforeExact(s, m, j - 1);
    }
  }

  /** `SelectsPath` decides exactly the paths on which the pattern search succeeds. */
  lemma SelectsPathIsSearch(path: string)
    ensures SelectsPath(path) <==> FileMatches(path)
  {
    if SelectsPath(path) {
      var e := AnchorEnd(path);
      var t := DigitsBefore(path, e - 5);
      assert FileMatchAt(path, e - 5 - t - 5, e - 5);
    }
    if FileMatches(path) {
      var i, j :| FileMatchAt(path, i, j);
      MatchingPathSelected(path, i, j);
    }
  }

  lemma MatchingPathSelected(path: string, i: int, j: int)
    requires FileMatchAt(path, i, j)
    ensures SelectsPath(path)
  {
    assert path[j + 1..j + 5] == TdmsWord;
    assert path[j + 4] == path[j + 1..j + 5][3] == 's';
    if j + 5 == |path| {
      assert AnchorEnd(path) == j + 5;
    } else {
      assert path[|path| - 1] == '\n';
      assert AnchorEnd(path) == j + 5;
    }
    assert path[i..i + 5] == SliceWord;
    assert path[i + 4] == path[i..i + 5][4] == 'e';
    DigitsBeforeExact(path, i + 5, j);
  }

  /** `Path(path).name` for a path that does not end in a separator. */
  function FileName(path: string): string {
    AfterLast(path, '/')
  }

  /** `Path(...).stem`: the name without its last suffix; a leading dot or a
      final dot does not start a suffix. */
  function Stem(name: string): (stem: string)
    ensures stem == name || (stem < name && |stem| > 0 && name[|stem|] == '.')
  {
    var i := LastIndexOf(name, '.');
    if 0 < i < |name| - 1 then name[..i] else name
  }

  /** "Slice" followed by at least one digit starts at `i`. */
  predicate SliceRunAt(s: string, i: int) {
    HasAt(s, i, SliceWord) && i + 5 < |s| && IsDigit(s[i + 5])
  }

  /** Where the leftmost match of `Slice(\d+)` at or after `from` starts. */
  function FirstSliceRun(s: string, from: nat): (r: Option<nat>)
    ensures r.Some? ==> from <= r.value && SliceRunAt(s, r.value)
    decreases |s| - from
  {
    if from + 5 >= |s| then None
    else if SliceRunAt(s, from) then Some(from)
    else FirstSliceRun(s, from + 1)
  }

  /** The search finds the leftmost run at or after `from`, and finds
      nothing only when there is none. */
  lemma {:induction false} FirstSliceRunLeftmost(s: string, from: nat)
    ensures var r := FirstSliceRun(s, from);
            && (r.Some? ==> forall k | from <= k < r.value :: !SliceRunAt(s, k))
            && (r.None? ==> forall k | from <= k :: !SliceRunAt(s, k))
    decreases |s| - from
  {
    if from + 5 < |s| && !SliceRunAt(s, from) {
      FirstSliceRunLeftmost(s, from + 1);
    }
  }

  /** The text captured by `(\d+)` in the leftmost match of `Slice(\d+)`:
      the greedy digit run after the first "Slice" that has a digit after it. */
  function SliceDigits(stem: string): (r: Option<string>)
    ensures r.Some? ==> AllDigits(r.value) && r.value != []
  {
    match FirstSliceRun(stem, 0)
    case None => None
    case Some(i) =>
      var d := DigitsFrom(stem, i + 5);
      Some(stem[i + 5..i + 5 + d])
  }

  /** There is no capture exactly when no "Slice" followed by a digit occurs. */
  lemma SliceDigitsAbsent(stem: string)
    ensures SliceDigits(stem).None? <==> forall k :: !SliceRunAt(stem, k)
  {
    FirstSliceRunLeftmost(stem, 0);
  }

  /** The capture is the whole digit run after the leftmost "Slice" that has
      a digit after it. */
  lemma SliceDigitsLeftmost(stem: string)
    requires SliceDigits(stem).Some?
    ensures var ds := SliceDigits(stem).value;
            exists i :: && SliceRunAt(stem, i)
                        && (forall k | 0 <= k < i :: !SliceRunAt(stem, k))
                        && i + 5 + |ds| <= |stem|
                        && stem[i + 5..i + 5 + |ds|] == ds
                        && (i + 5 + |ds| == |stem| || !IsDigit(stem[i + 5 + |ds|]))
  {
    FirstSliceRunLeftmost(stem, 0);
    var i := FirstSliceRun(stem, 0).value;
    var d := DigitsFrom(stem, i + 5);
    var ds := stem[i + 5..i + 5 + d];
    assert SliceDigits(stem).value == ds && |ds| == d;
    assert stem[i + 5..i + 5 + |ds|] == ds;
  }

  /** The slice number of a file stem, or None when `match` would be None. */
  function SliceIndexOf(stem: string): Option<nat> {
    match SliceDigits(stem)
    case None => None
    case Some(ds) => Some(ParseDigits(ds))
  }

  /** The slice number of a path, through its name and stem. */
  function SliceIndexOfPath(path: string): Option<nat> {
    SliceIndexOf(Stem(FileName(path)))
  }

  /** The key of the slice node: `str(slice_index)`. */
  function NodeKey(index: nat): string {
    NatToString(index)
  }

  /** The node key is the captured digit run without its leading zeros
      ("0" when the run is all zeros), so it never has a leading zero. */
  lemma NodeKeyDropsLeadingZeros(stem: string)
    requires SliceDigits(stem).Some?
    ensures var ds := SliceDigits(stem).value;
            NodeKey(SliceIndexOf(stem).value)
              == (if StripLeadingZeros(ds) == [] then "0" else StripLeadingZeros(ds))
  {
    CanonicalDecimal(SliceDigits(stem).value);
  }

  /** A slice number round-trips through its node key. */
  lemma NodeKeyInjective(a: nat, b: nat)
    requires NodeKey(a) == NodeKey(b)
    ensures a == b
  {
    ParseOfNatToString(a);
    ParseOfNatToString(b);
  }

  /** Any text shaped `<pre>Slice<digits><c>tdms` with `c` not a newline is selected. */
  lemma SelectsShape(pre: string, ds: string, c: char)
    requires AllDigits(ds) && ds != [] && c != '\n'
    ensures SelectsPath(pre + SliceWord + ds + [c] + TdmsWord)
  {
    var path := pre + SliceWord + ds + [c] + TdmsWord;
    var i, j := |pre|, |pre| + 5 + |ds|;
    assert path[i..i + 5] == SliceWord;
    assert forall k | i + 5 <= k < j :: path[k] == ds[k - i - 5];
    assert path[j] == c;
    assert path[j + 1..j + 5] == TdmsWord;
    MatchingPathSelected(path, i, j);
  }

  /** The digit run starting at `i` is exactly the longest one. */
  lemma {:induction false} DigitsFromExact(s: string, i: nat, m: nat)
    requires i <= m <= |s| && DigitsBetween(s, i, m)
    requires m == |s| || !IsDigit(s[m])
    ensures DigitsFrom(s, i) == m - i
    decreases m - i
  {
    if i < m {
      DigitsFromExact(s, i + 1, m);
    }
  }

  /** In `Slice<digits><rest>` with `rest` not starting with a digit, the
      captured run is exactly `<digits>`. */
  lemma SliceDigitsShape(ds: string, rest: string)
    requires AllDigits(ds) && ds != []
    requires rest == [] || !IsDigit(rest[0])
    ensures SliceDigits(SliceWord + ds + rest) == Some(ds)
  {
    var stem := SliceWord + ds + rest;
    assert stem[0..5] == SliceWord;
    assert stem[5] == ds[0];
    assert FirstSliceRun(stem, 0) == Some(0);
    assert forall k | 5 <= k < 5 + |ds| :: stem[k] == ds[k - 5];
    assert 5 + |ds| < |stem| ==> stem[5 + |ds|] == rest[0];
    DigitsFromExact(stem, 5, 5 + |ds|);
    assert stem[5..5 + |ds|] == ds;
  }

  /** A conventionally named file `<dir>/Slice<digits>.tdms` is selected and
      carries the value of its digits. */
  lemma ConventionalPath(dir: string, ds: string)
    requires AllDigits(ds) && ds != []
    ensures var path := dir + "/" + SliceWord + ds + ".tdms";
            SelectsPath(path) && SliceIndexOfPath(path) == Some(ParseDigits(ds))
  {
    ConventionalSelected(dir, ds);
    ConventionalIndex(dir, ds);
  }

  lemma ConventionalSelected(dir: string, ds: string)
    requires AllDigits(ds) && ds != []
    ensures SelectsPath(dir + "/" + SliceWord + ds + ".tdms")
  {
    assert dir + "/" + SliceWord + ds + ".tdms" == (dir + "/") + SliceWord + ds + ['.'] + TdmsWord;
    SelectsShape(dir + "/", ds, '.');
  }

  lemma ConventionalIndex(dir: string, ds: string)
    requires AllDigits(ds) && ds != []
    ensures SliceIndexOfPath(dir + "/" + SliceWord + ds + ".tdms") == Some(ParseDigits(ds))
  {
    assert dir + "/" + SliceWord + ds + ".tdms" == (dir + "/") + (SliceWord + ds + ".tdms");
    ConventionalName(dir, ds);
    ConventionalStem(ds);
  }

  lemma ConventionalName(dir: string, ds: string)
    requires AllDigits(ds)
    ensures FileName((dir + "/") + (SliceWord + ds + ".tdms")) == SliceWord + ds + ".tdms"
  {
    var name := SliceWord + ds + ".tdms";
    assert '/' !in name by {
      forall k | 0 <= k < |name| ensures name[k] != '/' {
        if 5 <= k < 5 + |ds| { assert name[k] == ds[k - 5]; }
      }
    }
    LastSeparator(dir + "/", name);
  }

  lemma ConventionalStem(ds: string)
    requires AllDigits(ds) && ds != []
    ensures Stem(SliceWord + ds + ".tdms") == SliceWord + ds
    ensures SliceIndexOf(Stem(SliceWord + ds + ".tdms")) == Some(ParseDigits(ds))
  {
    var name := SliceWord + ds + ".tdms";
    assert name == (SliceWord + ds + ".") + TdmsWord;
    LastDotBeforeTdms(SliceWord + ds + ".");
    assert name[..5 + |ds|] == SliceWord + ds;
    assert SliceWord + ds == SliceWord + ds + [];
    SliceDigitsShape(ds, []);
  }

  lemma LastDotBeforeTdms(head: string)
    requires head != [] && head[|head| - 1] == '.'
    ensures LastIndexOf(head + TdmsWord, '.') == |head| - 1
  {
    var s := head + TdmsWord;
    assert s[..|s| - 1] == head + "tdm";
    assert (head + "tdm")[..|head| + 2] == head + "td";
    assert (head + "td")[..|head| + 1] == head + "t";
    assert (head + "t")[..|head|] == head;
  }

  lemma {:induction false} LastSeparator(head: string, tail: string)
    requires head != [] && head[|head| - 1] == '/' && '/' !in tail
    ensures LastIndexOf(head + tail, '/') == |head| - 1
    decreases |tail|
  {
    if tail == [] {
      assert head + tail == head;
    } else {
      var s := head + tail;
      assert s[..|s| - 1] == head + tail[..|tail| - 1];
      assert s[|s| - 1] == tail[|tail| - 1];
      LastSeparator(head, tail[..|tail| - 1]);
    }
  }

  /** The dot of the pattern is not escaped: "Slice12tdms" is converted too,
      its last digit standing for the dot, and it still carries slice 12. */
  lemma UnescapedDot()
    ensures SelectsPath("Slice12tdms")
    ensures SliceIndexOfPath("Slice12tdms") == Some(12)
  {
    UnescapedDotSelected();
    UnescapedDotIndex();
  }

  lemma UnescapedDotSelected()
    ensures SelectsPath("Slice12tdms")
  {
    assert "Slice12tdms" == [] + SliceWord + "1" + ['2'] + TdmsWord;
    SelectsShape([], "1", '2');
  }

  lemma UnescapedDotIndex()
    ensures SliceIndexOfPath("Slice12tdms") == Some(12)
  {
    NoSeparatorNoSuffix("Slice12tdms");
    UnescapedDotStem();
  }

  lemma UnescapedDotStem()
    ensures SliceIndexOf("Slice12tdms") == Some(12)
  {
    assert "Slice12tdms" == SliceWord + "12" + TdmsWord;
    SliceDigitsShape("12", TdmsWord);
    assert ParseDigits("12") == 12 by { assert "12"[..1] == "1"; }
  }

  /** A name without '/' or '.' is its own file name and stem. */
  lemma NoSeparatorNoSuffix(name: string)
    requires '/' !in name && '.' !in name
    ensures Stem(FileName(name)) == name
  {
    LastIndexAbsent(name, '/');
    LastIndexAbsent(name, '.');
  }

  /** Without the character, `rfind` gives -1. */
  lemma {:induction false} LastIndexAbsent(s: string, c: char)
    requires c !in s
    ensures LastIndexOf(s, c) == -1
  {
    if s != [] {
      assert s[|s| - 1] in s;
      LastIndexAbsent(s[..|s| - 1], c);
    }
  }

  /** A zero-padded slice number keys its node without the padding. */
  lemma ZeroPaddedName()
    ensures SliceIndexOf("Slice007") == Some(7) && NodeKey(7) == "7"
  {
    assert "Slice007" == SliceWord + "007" + [];
    SliceDigitsShape("007", []);
    assert ParseDigits("007") == 7 by {
      assert "007"[1..] == "07" && "07"[1..] == "7";
      ParseDropsFirstZero("007");
      ParseDropsFirstZero("07");
    }
  }

  /** Without a digit between "Slice" and the suffix a file is skipped. */
  lemma NoDigitsSkipped()
    ensures !SelectsPath("Slice.tdms")
  {
    assert "Slice.tdms"[4] == 'e';
  }
}
