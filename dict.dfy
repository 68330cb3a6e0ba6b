/** The Dict field (fields/dict.py): a dict whose keys are fixed by a method
    of the application, each key holding a row of sub-field values. The keys
    method is a parameter (a list of (key, title) pairs); the list of values
    the List field produces for a form, which is not part of this model, is a
    parameter too. */
module DictFields {
  import opened Wrappers

  type KeyTitle = (string, string)

  /** The field; only what `computeWidths` reads and writes is kept. */
  class DictField {
    var fields: seq<string>
    var widths: seq<string>

    constructor (fields: seq<string>)
      ensures this.fields == fields && widths == []
    {
      this.fields := fields;
      widths := [];
    }

    /** `computeWidths`: given widths are kept; without any (None or an
        empty list), one empty width for the key column and one per
        sub-field. */
    method ComputeWidths(given: Option<seq<string>>)
      modifies this
      ensures fields == old(fields)
      ensures given.Some? && given.value != [] ==> widths == given.value
      ensures !(given.Some? && given.value != []) ==>
        |widths| == |fields| + 1 && forall i :: 0 <= i < |widths| ==> widths[i] == ""
    {
      if given.None? || given.value == [] {
        widths := seq(|fields| + 1, _ => "");
      } else {
        widths := given.value;
      }
    }
  }

  /** The entry shown for one key: the stored row when the dict has the key,
      None otherwise (also for no dict at all). */
  function EntryFor<V>(value: Option<map<string, V>>, key: string): Option<V>
  {
    if value.Some? && key in value.value then Some(value.value[key]) else None
  }

  /** `getFormattedValue`: one entry per key, in the order of the keys. */
  method GetFormattedValue<V>(keys: seq<KeyTitle>, value: Option<map<string, V>>) returns (res: seq<Option<V>>)
    ensures |res| == |keys|
    ensures forall i :: 0 <= i < |keys| ==>
      (res[i].Some? <==> value.Some? && keys[i].0 in value.value) &&
      (res[i].Some? ==> res[i].value == value.value[keys[i].0])
  {
    res := [];
    var i := 0;
    while i < |keys|
      invariant 0 <= i <= |keys|
      invariant |res| == i
      invariant forall j :: 0 <= j < i ==> res[j] == EntryFor(value, keys[j].0)
    {
      var key := keys[i].0;
      if value.Some? && key in value.value {
        res := res + [Some(value.value[key])];
      } else {
        res := res + [None];
      }
      i := i + 1;
    }
  }

  /** The dict `getStorableValue` builds: key after key, the i-th key gets the
      i-th row (a later duplicate key overwrites an earlier one). */
  function Stored<V>(keys: seq<KeyTitle>, values: seq<V>): map<string, V>
    requires |keys| <= |values|
  {
    if keys == [] then map[]
    else Stored(keys[..|keys| - 1], values)[keys[|keys| - 1].0 := values[|keys| - 1]]
  }

  /** `getStorableValue`: an IndexError when there are fewer rows than keys;
      otherwise the dict pairing keys with rows. */
  method GetStorableValue<V>(keys: seq<KeyTitle>, values: seq<V>) returns (res: Result<map<string, V>, string>)
    ensures |values| < |keys| <==> res.Err?
    ensures res.Err? ==> res.error == "IndexError"
    ensures res.Ok? ==> res.value == Stored(keys, values)
  {
    var d: map<string, V> := map[];
    var i := 0;
    while i < |keys|
      invariant 0 <= i <= |keys| && i <= |values|
      invariant d == Stored(keys[..i], values)
    {
      if i >= |values| {
        return Err("IndexError");
      }
      assert keys[..i + 1][..i] == keys[..i];
      d := d[keys[i].0 := values[i]];
      i := i + 1;
    }
    assert keys[..i] == keys;
    return Ok(d);
  }

  /** The stored dict has exactly the keys. */
  lemma {:induction false} StoredKeys<V>(keys: seq<KeyTitle>, values: seq<V>)
    requires |keys| <= |values|
    ensures forall k :: k in Stored(keys, values) <==> exists i :: 0 <= i < |keys| && keys[i].0 == k
  {
    if keys != [] {
      var init := keys[..|keys| - 1];
      StoredKeys(init, values);
      forall k | k in Stored(keys, values)
        ensures exists i :: 0 <= i < |keys| && keys[i].0 == k
      {
        if k != keys[|keys| - 1].0 {
          assert k in Stored(init, values);
          var i :| 0 <= i < |init| && init[i].0 == k;
          assert keys[i].0 == k;
        }
      }
      forall k | exists i :: 0 <= i < |keys| && keys[i].0 == k
        ensures k in Stored(keys, values)
      {
        var i :| 0 <= i < |keys| && keys[i].0 == k;
        if i < |init| {
          assert init[i].0 == k;
        }
      }
    }
  }

  /** With distinct keys, key i holds row i. */
  lemma {:induction false} StoredRows<V>(keys: seq<KeyTitle>, values: seq<V>)
    requires |keys| <= |values|
    requires forall i, j :: 0 <= i < j < |keys| ==> keys[i].0 != keys[j].0
    ensures forall i :: 0 <= i < |keys| ==> keys[i].0 in Stored(keys, values) && Stored(keys, values)[keys[i].0] == values[i]
  {
    if keys != [] {
      var init := keys[..|keys| - 1];
      StoredRows(init, values);
      forall i | 0 <= i < |keys|
        ensures keys[i].0 in Stored(keys, values) && Stored(keys, values)[keys[i].0] == values[i]
      {
        if i < |init| {
          assert init[i] == keys[i];
        }
      }
    }
  }

  /** Storing the rows of a form and showing the dict gives the rows back,
      key by key, when the keys are distinct. */
  lemma StoreThenFormat<V>(keys: seq<KeyTitle>, values: seq<V>, i: nat)
    requires |keys| <= |values| && i < |keys|
    requires forall i, j :: 0 <= i < j < |keys| ==> keys[i].0 != keys[j].0
    ensures EntryFor(Some(Stored(keys, values)), keys[i].0) == Some(values[i])
  {
    StoredRows(keys, values);
  }
}
