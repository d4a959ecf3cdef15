/** A Python `dict` from keys of type K to JSON values. Python dicts remember
    the order in which keys were first inserted (it becomes the column order
    of a table built from them), so the model keeps that order beside the
    key-value map. */
module PyDict {
  import opened PyJson

  datatype Dict<K(==,!new)> = Dict(order: seq<K>, entries: map<K, Json>) {

    /** Every key is listed once, and exactly the keys of the map are listed. */
    ghost predicate Valid() {
      (forall i, j :: 0 <= i < j < |order| ==> order[i] != order[j]) &&
      (forall k :: k in entries <==> k in order)
    }

    /** `d[k] = v`: a new key goes to the end; an existing key keeps its place. */
    function Set(k: K, v: Json): (d: Dict<K>)
      ensures d.entries == entries[k := v]
      ensures k in entries ==> d.order == order
      ensures k !in entries ==> d.order == order + [k]
    {
      if k in entries then Dict(order, entries[k := v])
      else Dict(order + [k], entries[k := v])
    }

    /** `d.setdefault(k, v)`: writes only a key that is missing. */
    function SetDefault(k: K, v: Json): (d: Dict<K>)
      ensures k in entries ==> d == this
      ensures k !in entries ==> d == Set(k, v)
      ensures k in d.entries
      ensures forall j :: j in entries ==> j in d.entries && d.entries[j] == entries[j]
    {
      if k in entries then this else Set(k, v)
    }
  }

  /** `d[k] = v` keeps a dict well formed. */
  lemma SetKeepsValid<K(!new)>(d: Dict<K>, k: K, v: Json)
    requires d.Valid()
    ensures d.Set(k, v).Valid()
  {
    var r := d.Set(k, v);
    if k !in d.entries {
      assert k !in d.order;
      forall i, j | 0 <= i < j < |r.order| ensures r.order[i] != r.order[j] {
        if j == |d.order| {
          assert r.order[i] == d.order[i];
        }
      }
    }
  }

  /** `d.setdefault(k, v)` keeps a dict well formed. */
  lemma SetDefaultKeepsValid<K(!new)>(d: Dict<K>, k: K, v: Json)
    requires d.Valid()
    ensures d.SetDefault(k, v).Valid()
  {
    if k !in d.entries {
      SetKeepsValid(d, k, v);
    }
  }

  /** `{}` */
  function Empty<K(==,!new)>(): (d: Dict<K>)
    ensures d.Valid() && d.order == [] && d.entries == map[]
  {
    Dict([], map[])
  }
}
