/** The map-key accessor: the segment text itself is the key. */
module MapGetSet {
  import opened JavaObjects

  /** Map.get: the entry for the key, or null when there is none. */
  function MapGet(entries: map<string, Value>, key: string): (r: Value)
    ensures key in entries ==> r == entries[key]
    ensures key !in entries ==> r == Null
  {
    if key in entries then entries[key] else Null
  }

  /** Map.put: exactly the entry for the key is replaced or added. */
  function MapPut(entries: map<string, Value>, key: string, v: Value): (r: map<string, Value>)
    ensures r.Keys == entries.Keys + {key}
    ensures MapGet(r, key) == v
    ensures forall k :: k in entries && k != key ==> k in r && r[k] == entries[k]
  {
    entries[key := v]
  }

  /** Round trip: a put is read back and every other key reads as before. */
  lemma PutThenGet(entries: map<string, Value>, key: string, v: Value, other: string)
    requires other != key
    ensures MapGet(MapPut(entries, key, v), key) == v
    ensures MapGet(MapPut(entries, key, v), other) == MapGet(entries, other)
  {
  }

  function GetValue(h: Heap, key: string, target: Value): (r: Result<Value>)
    ensures target.Null? ==> r == Err(NullPointer)
    ensures r.Ok? ==> target.Ref? && target.addr < |h| && h[target.addr].MapObj?
    ensures r.Ok? ==> r.value == MapGet(h[target.addr].entries, key)
  {
    match Deref(h, target)
    case Err(e) => Err(e)
    case Ok(MapObj(_, es)) => Ok(MapGet(es, key))
    case Ok(_) => Err(ClassCast)
  }

  function SetValue(h: Heap, key: string, target: Value, v: Value): (r: Result<Heap>)
    ensures target.Null? ==> r == Err(NullPointer)
    ensures r.Ok? ==> |r.value| == |h| && target.Ref? && target.addr < |h|
    ensures r.Ok? ==> forall a :: 0 <= a < |h| && a != target.addr ==> r.value[a] == h[a]
    ensures r.Ok? ==> GetValue(r.value, key, target) == Ok(v)
    ensures r.Ok? ==> h[target.addr].MapObj? && r.value[target.addr].MapObj?
    ensures r.Ok? ==> forall k :: k != key ==>
      MapGet(r.value[target.addr].entries, k) == MapGet(h[target.addr].entries, k)
  {
    match Deref(h, target)
    case Err(e) => Err(e)
    case Ok(MapObj(c, es)) => Ok(h[target.addr := MapObj(c, MapPut(es, key, v))])
    case Ok(_) => Err(ClassCast)
  }

  /** newValue never creates anything. */
  function NewValue(h: Heap, target: Value): (r: Result<(Heap, Value)>)
    ensures r == Ok((h, Null))
  {
    Ok((h, Null))
  }

  /** A java.util.Map held in place. */
  class JavaMap {
    var entries: map<string, Value>

    constructor(entries: map<string, Value>)
      ensures this.entries == entries
    {
      this.entries := entries;
    }
  }

  /** The accessor object for one fixed key. */
  class MapGetSet {
    const key: string

    constructor(key: string)
      ensures this.key == key
    {
      this.key := key;
    }

    /** Map.get on the map object: the entry of the key, or null when there is none. */
    function GetValue(m: JavaMap): (r: Value)
      reads m
      ensures key in m.entries ==> r == m.entries[key]
      ensures key !in m.entries ==> r == Null
    {
      MapGet(m.entries, key)
    }

    method SetValue(m: JavaMap, value: Value)
      modifies m
      ensures m.entries == MapPut(old(m.entries), key, value)
    {
      m.entries := m.entries[key := value];
    }

    method NewValue(m: JavaMap) returns (r: Value)
      ensures r == Null
    {
      r := Null;
    }
  }
}
