/** The property dictionaries of the legacy HDF5 writer: an ordered
    dictionary that the writer changes in place, renaming `StartTime` and
    `EndTime` by inserting the new keys and deleting the old ones. */
module LegacyProperties {
  import opened Common
  import opened Attributes

  const LayerStartName: string := "Layer Start Time"
  const LayerEndName: string := "Layer End Time"
  const PartStartName: string := "Part Start Time"
  const PartEndName: string := "Part End Time"

  /** Whether some entry of `bag` has key `key`. */
  predicate HasKey(bag: PropertyBag, key: string) {
    exists i | 0 <= i < |bag| :: bag[i].0 == key
  }

  /** `d[key]` read: the value of the last entry for `key`. */
  function Lookup(bag: PropertyBag, key: string): (r: Option<Value>)
    ensures r.Some? <==> HasKey(bag, key)
    decreases |bag|
  {
    if bag == [] then None
    else if bag[|bag| - 1].0 == key then Some(bag[|bag| - 1].1)
    else
      var r := Lookup(bag[..|bag| - 1], key);
      assert HasKey(bag, key) ==> HasKey(bag[..|bag| - 1], key) by {
        if HasKey(bag, key) {
          var i :| 0 <= i < |bag| && bag[i].0 == key;
          assert bag[..|bag| - 1][i].0 == key;
        }
      }
      r
  }

  /** `d[key] = v`: an existing entry keeps its place and takes the value,
      a new key is appended. */
  function Put(bag: PropertyBag, key: string, v: Value): (r: PropertyBag)
    ensures HasKey(bag, key) ==> |r| == |bag| && forall i | 0 <= i < |bag| :: r[i].0 == bag[i].0
    ensures !HasKey(bag, key) ==> r == bag + [(key, v)]
  {
    if HasKey(bag, key) then seq(|bag|, i requires 0 <= i < |bag| => if bag[i].0 == key then (key, v) else bag[i])
    else bag + [(key, v)]
  }

  /** `del d[key]`: every entry for `key` removed, the others kept in order. */
  function Remove(bag: PropertyBag, key: string): (r: PropertyBag)
    ensures |r| <= |bag|
    decreases |bag|
  {
    if bag == [] then []
    else if bag[|bag| - 1].0 == key then Remove(bag[..|bag| - 1], key)
    else Remove(bag[..|bag| - 1], key) + [bag[|bag| - 1]]
  }

  lemma {:induction false} LookupPutChanged(bag: PropertyBag, key: string, v: Value)
    requires HasKey(bag, key)
    ensures forall k :: Lookup(Put(bag, key, v), k) == if k == key then Some(v) else Lookup(bag, k)
  {
    forall k ensures Lookup(Put(bag, key, v), k) == if k == key then Some(v) else Lookup(bag, k) {
      LookupReplaced(bag, Put(bag, key, v), key, v, k);
    }
  }

  /** Looking up in a bag whose entries for `key` all took the value `v`. */
  lemma {:induction false} LookupReplaced(bag: PropertyBag, r: PropertyBag, key: string, v: Value, k: string)
    requires |r| == |bag|
    requires forall i | 0 <= i < |bag| :: r[i] == if bag[i].0 == key then (key, v) else bag[i]
    ensures Lookup(r, k) == if k != key then Lookup(bag, k) else if HasKey(bag, key) then Some(v) else None
    decreases |bag|
  {
    if bag != [] {
      var n := |bag| - 1;
      assert HasKey(bag, key) <==> bag[n].0 == key || HasKey(bag[..n], key) by {
        if HasKey(bag, key) && bag[n].0 != key {
          var i :| 0 <= i < |bag| && bag[i].0 == key;
          assert bag[..n][i].0 == key;
        }
        if HasKey(bag[..n], key) {
          var i :| 0 <= i < n && bag[..n][i].0 == key;
          assert bag[i].0 == key;
        }
      }
      LookupReplaced(bag[..n], r[..n], key, v, k);
    }
  }

  /** A write makes `d[key]` read `v` and leaves every other key as it was. */
  lemma LookupPut(bag: PropertyBag, key: string, v: Value, k: string)
    ensures Lookup(Put(bag, key, v), k) == if k == key then Some(v) else Lookup(bag, k)
  {
    if HasKey(bag, key) {
      LookupPutChanged(bag, key, v);
    } else {
      var r := bag + [(key, v)];
      assert r[..|r| - 1] == bag;
    }
  }

  /** A deletion makes `key` absent and leaves every other key as it was. */
  lemma {:induction false} LookupRemove(bag: PropertyBag, key: string, k: string)
    ensures Lookup(Remove(bag, key), k) == if k == key then None else Lookup(bag, k)
    decreases |bag|
  {
    if bag != [] {
      var n := |bag| - 1;
      LookupRemove(bag[..n], key, k);
      if bag[n].0 != key {
        var r := Remove(bag[..n], key) + [bag[n]];
        assert r[..|r| - 1] == Remove(bag[..n], key);
      }
    }
  }

  /** What the four statements of a renaming leave: the bag and the
      `KeyError` that stopped them, if any. */
  function RenameTimesSpec(bag: PropertyBag, startName: string, endName: string): (PropertyBag, Option<Error>) {
    match Lookup(bag, StartTimeKey)
    case None => (bag, Some(MissingKey(StartTimeKey)))
    case Some(start) =>
      var bag1 := Put(bag, startName, start);
      match Lookup(bag1, EndTimeKey)
      case None => (bag1, Some(MissingKey(EndTimeKey)))
      case Some(end) =>
        var bag2 := Put(bag1, endName, end);
        if !HasKey(bag2, StartTimeKey) then (bag2, Some(MissingKey(StartTimeKey)))
        else
          var bag3 := Remove(bag2, StartTimeKey);
          if !HasKey(bag3, EndTimeKey) then (bag3, Some(MissingKey(EndTimeKey)))
          else (Remove(bag3, EndTimeKey), None)
  }

  /** The renaming succeeds exactly when both `StartTime` and `EndTime` are
      present; then the new names hold their values, the old names are gone,
      and every other key reads as before. */
  lemma RenameTimesEffect(bag: PropertyBag, startName: string, endName: string, k: string)
    requires startName != endName
    requires startName != StartTimeKey && startName != EndTimeKey
    requires endName != StartTimeKey && endName != EndTimeKey
    ensures var (r, err) := RenameTimesSpec(bag, startName, endName);
            && (err.None? <==> HasKey(bag, StartTimeKey) && HasKey(bag, EndTimeKey))
            && (!HasKey(bag, StartTimeKey) ==> err == Some(MissingKey(StartTimeKey)))
            && (HasKey(bag, StartTimeKey) && !HasKey(bag, EndTimeKey) ==> err == Some(MissingKey(EndTimeKey)))
            && (err.None? ==>
                  Lookup(r, k) == if k == startName then Lookup(bag, StartTimeKey)
                                  else if k == endName then Lookup(bag, EndTimeKey)
                                  else if k == StartTimeKey || k == EndTimeKey then None
                                  else Lookup(bag, k))
  {
    if HasKey(bag, StartTimeKey) {
      var start := Lookup(bag, StartTimeKey).value;
      var bag1 := Put(bag, startName, start);
      LookupPut(bag, startName, start, EndTimeKey);
      if HasKey(bag, EndTimeKey) {
        var end := Lookup(bag1, EndTimeKey).value;
        var bag2 := Put(bag1, endName, end);
        LookupPut(bag1, endName, end, StartTimeKey);
        LookupPut(bag, startName, start, StartTimeKey);
        var bag3 := Remove(bag2, StartTimeKey);
        LookupRemove(bag2, StartTimeKey, EndTimeKey);
        LookupPut(bag1, endName, end, EndTimeKey);
        LookupRemove(bag3, EndTimeKey, k);
        LookupRemove(bag2, StartTimeKey, k);
        LookupPut(bag1, endName, end, k);
        LookupPut(bag, startName, start, k);
      }
    }
  }

  /** A property dictionary of a TDMS object, changed in place. */
  class PropertyDict {
    var items: PropertyBag

    constructor (bag: PropertyBag)
      ensures items == bag
    {
      items := bag;
    }

    /** `d[key]`, or the `KeyError` it raises. */
    function Get(key: string): (r: Result<Value>)
      reads this
      ensures r.Ok? <==> HasKey(items, key)
      ensures r.Ok? ==> Lookup(items, key) == Some(r.value)
      ensures r.Err? ==> r.error == MissingKey(key)
    {
      match Lookup(items, key)
      case Some(v) => Ok(v)
      case None => Err(MissingKey(key))
    }

    /** `d[key] = v`. */
    method Set(key: string, v: Value)
      modifies this
      ensures items == Put(old(items), key, v)
    {
      items := Put(items, key, v);
    }

    /** `del d[key]`, or the `KeyError` it raises. */
    method Delete(key: string) returns (err: Option<Error>)
      modifies this
      ensures HasKey(old(items), key) ==> items == Remove(old(items), key) && err.None?
      ensures !HasKey(old(items), key) ==> items == old(items) && err == Some(MissingKey(key))
    {
      if !HasKey(items, key) {
        return Some(MissingKey(key));
      }
      items := Remove(items, key);
      err := None;
    }

    /** `d[startName] = d["StartTime"]`, `d[endName] = d["EndTime"]`,
        `del d["StartTime"]`, `del d["EndTime"]`, stopping at the first
        `KeyError`. */
    method RenameTimes(startName: string, endName: string) returns (err: Option<Error>)
      modifies this
      ensures (items, err) == RenameTimesSpec(old(items), startName, endName)
    {
      var start := Get(StartTimeKey);
      if start.Err? {
        return Some(start.error);
      }
      Set(startName, start.value);
      var end := Get(EndTimeKey);
      if end.Err? {
        return Some(end.error);
      }
      Set(endName, end.value);
      err := Delete(StartTimeKey);
      if err.Some? {
        return;
      }
      err := Delete(EndTimeKey);
    }
  }
}
