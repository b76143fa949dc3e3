/** Attribute normalisation: how TDMS properties become HDF5 attributes, one
    `attrs[key] = value` at a time, with `StartTime`/`EndTime` renamed by level
    and datetimes stored as their text. */
module Attributes {
  import opened Common

  const StartTimeKey: string := "StartTime"
  const EndTimeKey: string := "EndTime"
  const LayerStartTimeKey: string := "LayerStartTime"
  const LayerEndTimeKey: string := "LayerEndTime"
  const PartStartTimeKey: string := "PartStartTime"
  const PartEndTimeKey: string := "PartEndTime"

  /** Which renaming a property loop applies: file-level properties become
      `Layer*`, group-level ones `Part*`; the legacy writer renames nothing. */
  datatype Renaming = LayerKeys | PartKeys | Verbatim

  type Attrs = map<string, Value>

  /** The key a property is stored under. */
  function RenameKey(renaming: Renaming, key: string): string {
    match renaming
    case LayerKeys =>
      if key == StartTimeKey then LayerStartTimeKey
      else if key == EndTimeKey then LayerEndTimeKey
      else key
    case PartKeys =>
      if key == StartTimeKey then PartStartTimeKey
      else if key == EndTimeKey then PartEndTimeKey
      else key
    case Verbatim => key
  }

  /** The value stored for a property: a datetime becomes the bytes of its
      text, `asText` standing for `np.datetime_as_string(.., unit='us',
      timezone='UTC')`; every other value is stored as it is. */
  function StoredValue(v: Value, asText: Timestamp -> string): Value {
    match v
    case TimeValue(t) => BytesValue(asText(t))
    case _ => v
  }

  /** The attributes after writing every property of `bag`, in order, over `attrs`. */
  function WriteAll(attrs: Attrs, bag: PropertyBag, renaming: Renaming, asText: Timestamp -> string): Attrs
    decreases |bag|
  {
    if bag == [] then attrs
    else
      var last := bag[|bag| - 1];
      WriteAll(attrs, bag[..|bag| - 1], renaming, asText)[RenameKey(renaming, last.0) := StoredValue(last.1, asText)]
  }

  /** Reference reading of the loop: the value of the last property of `bag`
      whose key is renamed to `key`, if any. */
  function LastWritten(bag: PropertyBag, renaming: Renaming, asText: Timestamp -> string, key: string): Option<Value>
    decreases |bag|
  {
    if bag == [] then None
    else if RenameKey(renaming, bag[|bag| - 1].0) == key then Some(StoredValue(bag[|bag| - 1].1, asText))
    else LastWritten(bag[..|bag| - 1], renaming, asText, key)
  }

  /** The attributes of a new slice node: the file's properties with `Layer*`
      names, then the group's with `Part*` names. */
  function NodeAttributes(fileProps: PropertyBag, groupProps: PropertyBag, asText: Timestamp -> string): Attrs {
    WriteAll(WriteAll(map[], fileProps, LayerKeys, asText), groupProps, PartKeys, asText)
  }

  /** The property loop: one assignment per property, in order. */
  method WriteProperties(attrs: Attrs, bag: PropertyBag, renaming: Renaming, asText: Timestamp -> string)
    returns (out: Attrs)
    ensures out == WriteAll(attrs, bag, renaming, asText)
  {
    out := attrs;
    var i := 0;
    while i < |bag|
      invariant 0 <= i <= |bag|
      invariant out == WriteAll(attrs, bag[..i], renaming, asText)
    {
      var (key, value) := bag[i];
      if renaming != Verbatim && key == StartTimeKey {
        key := if renaming == LayerKeys then LayerStartTimeKey else PartStartTimeKey;
      } else if renaming != Verbatim && key == EndTimeKey {
        key := if renaming == LayerKeys then LayerEndTimeKey else PartEndTimeKey;
      }
      if value.TimeValue? {
        out := out[key := BytesValue(asText(value.t))];
      } else {
        out := out[key := value];
      }
      assert bag[..i + 1][..i] == bag[..i];
      i := i + 1;
    }
    assert bag[..i] == bag;
  }

  /** Last write wins: a key holds the value of the last property renamed to
      it, and keeps its old value when no property is. */
  lemma {:induction false} WriteAllLookup(attrs: Attrs, bag: PropertyBag, renaming: Renaming,
                                          asText: Timestamp -> string, key: string)
    ensures var out := WriteAll(attrs, bag, renaming, asText);
            var w := LastWritten(bag, renaming, asText, key);
            && (key in out <==> w.Some? || key in attrs)
            && (w.Some? ==> out[key] == w.value)
            && (w.None? && key in attrs ==> out[key] == attrs[key])
    decreases |bag|
  {
    if bag != [] {
      WriteAllLookup(attrs, bag[..|bag| - 1], renaming, asText, key);
    }
  }

  /** Every property of the bag lands under its renamed key. */
  lemma {:induction false} LastWrittenSome(bag: PropertyBag, renaming: Renaming, asText: Timestamp -> string, i: nat)
    requires i < |bag|
    ensures LastWritten(bag, renaming, asText, RenameKey(renaming, bag[i].0)).Some?
    decreases |bag|
  {
    if i < |bag| - 1 {
      LastWrittenSome(bag[..|bag| - 1], renaming, asText, i);
    }
  }

  /** What `LastWritten` finds is the stored form of some property of the bag. */
  lemma {:induction false} LastWrittenFrom(bag: PropertyBag, renaming: Renaming, asText: Timestamp -> string, key: string)
    requires LastWritten(bag, renaming, asText, key).Some?
    ensures exists i | 0 <= i < |bag| :: RenameKey(renaming, bag[i].0) == key
                                         && LastWritten(bag, renaming, asText, key).value == StoredValue(bag[i].1, asText)
    decreases |bag|
  {
    if RenameKey(renaming, bag[|bag| - 1].0) != key {
      LastWrittenFrom(bag[..|bag| - 1], renaming, asText, key);
      var i :| 0 <= i < |bag| - 1 && RenameKey(renaming, bag[..|bag| - 1][i].0) == key
                                 && LastWritten(bag, renaming, asText, key).value == StoredValue(bag[..|bag| - 1][i].1, asText);
      assert bag[..|bag| - 1][i] == bag[i];
    }
  }

  /** A property whose key no later property shares is stored with its own value. */
  lemma {:induction false} LastPropertyWins(bag: PropertyBag, renaming: Renaming, asText: Timestamp -> string, i: nat)
    requires i < |bag|
    requires forall j | i < j < |bag| :: RenameKey(renaming, bag[j].0) != RenameKey(renaming, bag[i].0)
    ensures LastWritten(bag, renaming, asText, RenameKey(renaming, bag[i].0)) == Some(StoredValue(bag[i].1, asText))
    decreases |bag|
  {
    if i < |bag| - 1 {
      LastPropertyWins(bag[..|bag| - 1], renaming, asText, i);
    }
  }

  /** The renamed keys: `StartTime` and `EndTime` are replaced by the
      level's names, every other key is kept. */
  lemma RenameKeyCases(renaming: Renaming, key: string)
    ensures renaming == LayerKeys && key == StartTimeKey ==> RenameKey(renaming, key) == LayerStartTimeKey
    ensures renaming == LayerKeys && key == EndTimeKey ==> RenameKey(renaming, key) == LayerEndTimeKey
    ensures renaming == PartKeys && key == StartTimeKey ==> RenameKey(renaming, key) == PartStartTimeKey
    ensures renaming == PartKeys && key == EndTimeKey ==> RenameKey(renaming, key) == PartEndTimeKey
    ensures key != StartTimeKey && key != EndTimeKey ==> RenameKey(renaming, key) == key
    ensures renaming != Verbatim ==> RenameKey(renaming, key) != StartTimeKey && RenameKey(renaming, key) != EndTimeKey
  {
  }

  /** A renaming loop never writes a `StartTime` or `EndTime` key, and no
      datetime is stored: every written value is the stored form of a property. */
  lemma NoTimesWritten(attrs: Attrs, bag: PropertyBag, renaming: Renaming, asText: Timestamp -> string)
    requires renaming != Verbatim
    ensures var out := WriteAll(attrs, bag, renaming, asText);
            && (StartTimeKey in out <==> StartTimeKey in attrs)
            && (EndTimeKey in out <==> EndTimeKey in attrs)
            && forall k | k in out && out[k].TimeValue? :: k in attrs && out[k] == attrs[k]
  {
    var out := WriteAll(attrs, bag, renaming, asText);
    RenameKeyCases(renaming, StartTimeKey);
    RenameKeyCases(renaming, EndTimeKey);
    NeverRenamedTo(bag, renaming, asText, StartTimeKey);
    NeverRenamedTo(bag, renaming, asText, EndTimeKey);
    WriteAllLookup(attrs, bag, renaming, asText, StartTimeKey);
    WriteAllLookup(attrs, bag, renaming, asText, EndTimeKey);
    forall k | k in out && out[k].TimeValue?
      ensures k in attrs && out[k] == attrs[k]
    {
      WriteAllLookup(attrs, bag, renaming, asText, k);
      if LastWritten(bag, renaming, asText, k).Some? {
        LastWrittenFrom(bag, renaming, asText, k);
      }
    }
  }

  lemma {:induction false} NeverRenamedTo(bag: PropertyBag, renaming: Renaming, asText: Timestamp -> string, key: string)
    requires key == StartTimeKey || key == EndTimeKey
    requires renaming != Verbatim
    ensures LastWritten(bag, renaming, asText, key).None?
    decreases |bag|
  {
    if bag != [] {
      RenameKeyCases(renaming, bag[|bag| - 1].0);
      NeverRenamedTo(bag[..|bag| - 1], renaming, asText, key);
    }
  }

  /** The keys of a slice node: every renamed file property and every renamed
      group property, and nothing else; on a shared key the group's value wins. */
  lemma NodeAttributesLookup(fileProps: PropertyBag, groupProps: PropertyBag, asText: Timestamp -> string, key: string)
    ensures var attrs := NodeAttributes(fileProps, groupProps, asText);
            var fromFile := LastWritten(fileProps, LayerKeys, asText, key);
            var fromGroup := LastWritten(groupProps, PartKeys, asText, key);
            && (key in attrs <==> fromFile.Some? || fromGroup.Some?)
            && (fromGroup.Some? ==> attrs[key] == fromGroup.value)
            && (fromGroup.None? && fromFile.Some? ==> attrs[key] == fromFile.value)
  {
    WriteAllLookup(map[], fileProps, LayerKeys, asText, key);
    WriteAllLookup(WriteAll(map[], fileProps, LayerKeys, asText), groupProps, PartKeys, asText, key);
  }
}
