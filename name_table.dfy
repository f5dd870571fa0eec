/** The conversion between a table indexed by an enum and a JSON object
    keyed by the enum's String() names, shared by the colour, HSV and
    Bézier tables (color_table.go, hsv_mod.go, beziercurve_data.go). Go
    arrays are values, so a table is a `seq`; a decoded JSON object is a
    `map<string, T>`. */
module NameTable {

  /** No later index has the same name as index `i`: `i` is the index a
      name-to-index map built front to back keeps for that name. */
  predicate IsLast(names: seq<string>, i: int)
    requires 0 <= i < |names|
  {
    forall j :: i < j < |names| ==> names[j] != names[i]
  }

  predicate Distinct(names: seq<string>)
  {
    forall i, j :: 0 <= i < j < |names| ==> names[i] != names[j]
  }

  /** The object built by writing `table[i]` under `names[i]` for each
      index in turn. */
  function ToMap<T>(names: seq<string>, table: seq<T>): (m: map<string, T>)
    requires |names| == |table|
    ensures forall k :: k in m <==> k in names
  {
    if names == [] then map[]
    else ToMap(names[..|names| - 1], table[..|table| - 1])[names[|names| - 1] := table[|table| - 1]]
  }

  /** The map from each name to the last index that carries it. */
  function StringToIndex(names: seq<string>): (m: map<string, int>)
    ensures forall k :: k in m <==> k in names
  {
    if names == [] then map[]
    else StringToIndex(names[..|names| - 1])[names[|names| - 1] := |names| - 1]
  }

  /** Each name maps to the last of its indices. */
  lemma {:induction false} StringToIndexLast(names: seq<string>, k: string)
    requires k in names
    ensures var i := StringToIndex(names)[k];
      0 <= i < |names| && names[i] == k && IsLast(names, i)
  {
    var n := |names| - 1;
    if names[n] != k {
      assert k in names[..n] by {
        var j :| 0 <= j < |names| && names[j] == k;
        assert names[..n][j] == k;
      }
      StringToIndexLast(names[..n], k);
    }
  }

  /** The object holds, under each name, the entry of the last index with
      that name. */
  lemma {:induction false} ToMapLast<T>(names: seq<string>, table: seq<T>, i: int)
    requires |names| == |table| && 0 <= i < |names| && IsLast(names, i)
    ensures ToMap(names, table)[names[i]] == table[i]
  {
    var n := |names| - 1;
    if i < n {
      ToMapLast(names[..n], table[..n], i);
    }
  }

  /** Two indices that are both last for their name and share it are the
      same index. */
  lemma {:induction false} LastUnique(names: seq<string>, i: int, j: int)
    requires 0 <= i < |names| && 0 <= j < |names| && IsLast(names, i) && IsLast(names, j)
    requires names[i] == names[j]
    ensures i == j
  {
  }

  // ---------------------------------------------------------------
  // The two decoders
  // ---------------------------------------------------------------

  /** Decoding by walking the object's keys (ColorTableFromJson): the
      last index of each name present in the object gets its value; every
      other index keeps the zero value. */
  function DecodeByKeys<T>(names: seq<string>, m: map<string, T>, zero: T): (t: seq<T>)
    ensures |t| == |names|
  {
    seq(|names|, i requires 0 <= i < |names| =>
      if names[i] in m && IsLast(names, i) then m[names[i]] else zero)
  }

  /** Decoding by walking the name-to-index map (HSVmodTableFromJson,
      BezierTableFromJson): the last index of every name gets the
      object's value, or `missing` when the object lacks the name; an
      index shadowed by a later one with the same name keeps the zero
      value. */
  function DecodeByNames<T>(names: seq<string>, m: map<string, T>, missing: T, zero: T): (t: seq<T>)
    ensures |t| == |names|
  {
    seq(|names|, i requires 0 <= i < |names| =>
      if !IsLast(names, i) then zero else if names[i] in m then m[names[i]] else missing)
  }

  /** With distinct names, decoding the encoded table gives it back. */
  lemma {:induction false} RoundTripByKeys<T>(names: seq<string>, table: seq<T>, zero: T)
    requires |names| == |table| && Distinct(names)
    ensures DecodeByKeys(names, ToMap(names, table), zero) == table
  {
    forall i | 0 <= i < |names|
      ensures DecodeByKeys(names, ToMap(names, table), zero)[i] == table[i]
    {
      ToMapLast(names, table, i);
    }
  }

  lemma {:induction false} RoundTripByNames<T>(names: seq<string>, table: seq<T>, missing: T, zero: T)
    requires |names| == |table| && Distinct(names)
    ensures DecodeByNames(names, ToMap(names, table), missing, zero) == table
  {
    forall i | 0 <= i < |names|
      ensures DecodeByNames(names, ToMap(names, table), missing, zero)[i] == table[i]
    {
      ToMapLast(names, table, i);
    }
  }

  /** A key that is no index name changes nothing. */
  lemma {:induction false} IgnoresOtherKeys<T>(names: seq<string>, m: map<string, T>, k: string, v: T, missing: T, zero: T)
    requires k !in names
    ensures DecodeByKeys(names, m[k := v], zero) == DecodeByKeys(names, m, zero)
    ensures DecodeByNames(names, m[k := v], missing, zero) == DecodeByNames(names, m, missing, zero)
  {
    assert forall i :: 0 <= i < |names| ==> names[i] != k;
  }

  /** With distinct names, an index whose name the object lacks is zero in
      one decoder and `missing` in the other; otherwise they agree. */
  lemma {:induction false} DecodersDiffer<T>(names: seq<string>, m: map<string, T>, missing: T, zero: T, i: int)
    requires Distinct(names) && 0 <= i < |names|
    ensures names[i] !in m ==> DecodeByKeys(names, m, zero)[i] == zero
    ensures names[i] !in m ==> DecodeByNames(names, m, missing, zero)[i] == missing
    ensures names[i] in m ==> DecodeByKeys(names, m, zero)[i] == DecodeByNames(names, m, missing, zero)[i] == m[names[i]]
  {
  }

  // ---------------------------------------------------------------
  // The loops
  // ---------------------------------------------------------------

  /** `for i := 0; i < size; i++ { tableMap[i.String()] = table[i] }` */
  method ToJson<T>(names: seq<string>, table: seq<T>) returns (m: map<string, T>)
    requires |names| == |table|
    ensures m == ToMap(names, table)
  {
    m := map[];
    var i := 0;
    while i < |names|
      invariant 0 <= i <= |names|
      invariant m == ToMap(names[..i], table[..i])
    {
      assert names[..i + 1][..i] == names[..i] && table[..i + 1][..i] == table[..i];
      m := m[names[i] := table[i]];
      i := i + 1;
    }
    assert names[..i] == names && table[..i] == table;
  }

  /** `for i := 0; i < size; i++ { stringToIndex[i.String()] = int(i) }` */
  method BuildStringToIndex(names: seq<string>) returns (m: map<string, int>)
    ensures m == StringToIndex(names)
  {
    m := map[];
    var i := 0;
    while i < |names|
      invariant 0 <= i <= |names|
      invariant m == StringToIndex(names[..i])
    {
      assert names[..i + 1][..i] == names[..i];
      m := m[names[i] := i];
      i := i + 1;
    }
    assert names[..i] == names;
  }

  /** `for k, v := range tableMap { if index, ok := stringToIndex[k]; ok
      { table[index] = v } }`, visiting the keys in any order. */
  method FromJsonByKeys<T>(names: seq<string>, m: map<string, T>, zero: T) returns (t: seq<T>)
    ensures t == DecodeByKeys(names, m, zero)
  {
    var index := BuildStringToIndex(names);
    t := seq(|names|, _ => zero);
    var keys := m.Keys;
    while keys != {}
      invariant keys <= m.Keys && |t| == |names|
      invariant forall i :: 0 <= i < |names| ==>
        t[i] == if names[i] in m && names[i] !in keys && IsLast(names, i) then m[names[i]] else zero
      decreases keys
    {
      var k :| k in keys;
      t := StoreByKey(names, index, m, keys, k, t, zero);
      keys := keys - {k};
    }
  }

  /** One step of FromJsonByKeys: the value under key `k`, if `k` is a
      name, goes to the index the name maps to. */
  method StoreByKey<T>(names: seq<string>, index: map<string, int>, m: map<string, T>,
                       keys: set<string>, k: string, t: seq<T>, zero: T) returns (t': seq<T>)
    requires index == StringToIndex(names) && k in keys && keys <= m.Keys && |t| == |names|
    requires forall i :: 0 <= i < |names| ==>
      t[i] == if names[i] in m && names[i] !in keys && IsLast(names, i) then m[names[i]] else zero
    ensures |t'| == |names|
    ensures forall i :: 0 <= i < |names| ==>
      t'[i] == if names[i] in m && names[i] !in keys - {k} && IsLast(names, i) then m[names[i]] else zero
  {
    t' := t;
    if k in index {
      StringToIndexLast(names, k);
      var at := index[k];
      t' := t[at := m[k]];
      forall i | 0 <= i < |names| && i != at && names[i] == k
        ensures !IsLast(names, i)
      {
        if IsLast(names, i) {
          LastUnique(names, i, at);
        }
      }
    }
  }

  /** `for indexName, index := range stringToIndex { if v, ok :=
      tableMap[indexName]; ok { table[index] = v } else { table[index] =
      missing } }`, visiting the names in any order. */
  method FromJsonByNames<T>(names: seq<string>, m: map<string, T>, missing: T, zero: T) returns (t: seq<T>)
    ensures t == DecodeByNames(names, m, missing, zero)
  {
    var index := BuildStringToIndex(names);
    t := seq(|names|, _ => zero);
    var keys := index.Keys;
    while keys != {}
      invariant keys <= index.Keys && |t| == |names|
      invariant forall i :: 0 <= i < |names| ==>
        t[i] == if IsLast(names, i) && names[i] !in keys then (if names[i] in m then m[names[i]] else missing) else zero
      decreases keys
    {
      var k :| k in keys;
      t := StoreByName(names, index, m, keys, k, t, missing, zero);
      keys := keys - {k};
    }
  }

  /** One step of FromJsonByNames. */
  method StoreByName<T>(names: seq<string>, index: map<string, int>, m: map<string, T>,
                        keys: set<string>, k: string, t: seq<T>, missing: T, zero: T) returns (t': seq<T>)
    requires index == StringToIndex(names) && k in keys && keys <= index.Keys && |t| == |names|
    requires forall i :: 0 <= i < |names| ==>
      t[i] == if IsLast(names, i) && names[i] !in keys then (if names[i] in m then m[names[i]] else missing) else zero
    ensures |t'| == |names|
    ensures forall i :: 0 <= i < |names| ==>
      t'[i] == if IsLast(names, i) && names[i] !in keys - {k} then (if names[i] in m then m[names[i]] else missing) else zero
  {
    StringToIndexLast(names, k);
    var at := index[k];
    t' := t[at := if k in m then m[k] else missing];
    forall i | 0 <= i < |names| && i != at && names[i] == k
      ensures !IsLast(names, i)
    {
      if IsLast(names, i) {
        LastUnique(names, i, at);
      }
    }
  }
}
