/**
 * The list-index accessor: reads past the end yield null, writes overwrite,
 * append, or pad the list with nulls up to the index and then append.
 */
module ListGetSet {
  import opened JavaObjects

  /** `n` nulls. */
  function Nulls(n: nat): (r: seq<Value>)
    ensures |r| == n
    ensures forall i :: 0 <= i < n ==> r[i] == Null
  {
    if n == 0 then [] else Nulls(n - 1) + [Null]
  }

  /** getValue on the elements of a list: null at or past the end; List.get throws below zero. */
  function ListGet(elems: seq<Value>, index: int): (r: Result<Value>)
    ensures index >= |elems| ==> r == Ok(Null)
    ensures 0 <= index < |elems| ==> r == Ok(elems[index])
    ensures index < 0 ==> r == Err(IndexOutOfBounds)
  {
    if |elems| <= index then Ok(Null)
    else if index < 0 then Err(IndexOutOfBounds)
    else Ok(elems[index])
  }

  /** setValue on the elements of a list: List.set below the size, List.add at it, padding beyond. */
  function ListSet(elems: seq<Value>, index: int, v: Value): (r: Result<seq<Value>>)
    ensures index < 0 <==> r.Err?
  {
    if |elems| > index then
      if index < 0 then Err(IndexOutOfBounds) else Ok(elems[index := v])
    else if |elems| == index then Ok(elems + [v])
    else Ok(elems + Nulls(index - |elems|) + [v])
  }

  /** Below the size, only position `index` changes and the size is kept. */
  lemma SetBelowSizeOverwrites(elems: seq<Value>, index: int, v: Value)
    requires 0 <= index < |elems|
    ensures ListSet(elems, index, v).Ok?
    ensures var r := ListSet(elems, index, v).value;
      |r| == |elems| && r[index] == v && forall j :: 0 <= j < |elems| && j != index ==> r[j] == elems[j]
  {
  }

  /** At the size, exactly one element is appended. */
  lemma SetAtSizeAppends(elems: seq<Value>, v: Value)
    ensures ListSet(elems, |elems|, v) == Ok(elems + [v])
  {
  }

  /** Beyond the size, positions [old size, index) become null and the new size is index + 1. */
  lemma SetBeyondSizePads(elems: seq<Value>, index: int, v: Value)
    requires index > |elems|
    ensures ListSet(elems, index, v).Ok?
    ensures var r := ListSet(elems, index, v).value;
      |r| == index + 1 && r[..|elems|] == elems && r[index] == v
      && forall j :: |elems| <= j < index ==> r[j] == Null
  {
    var r := ListSet(elems, index, v).value;
    assert r == elems + Nulls(index - |elems|) + [v];
    forall j | |elems| <= j < index ensures r[j] == Null {
      assert r[j] == Nulls(index - |elems|)[j - |elems|];
    }
  }

  /** Round trip: a successful write is read back, and the old elements at other indices stay. */
  lemma SetThenGet(elems: seq<Value>, index: int, v: Value)
    requires ListSet(elems, index, v).Ok?
    ensures ListGet(ListSet(elems, index, v).value, index) == Ok(v)
    ensures forall j :: 0 <= j < |elems| && j != index ==> ListSet(elems, index, v).value[j] == elems[j]
  {
    if index > |elems| {
      SetBeyondSizePads(elems, index, v);
      var r := ListSet(elems, index, v).value;
      forall j | 0 <= j < |elems| && j != index ensures r[j] == elems[j] {
        assert r[..|elems|][j] == elems[j];
      }
    }
  }

  /** getValue on a heap object: the (List) cast fails for anything that is not a list. */
  function GetValue(h: Heap, index: int, target: Value): (r: Result<Value>)
    ensures target.Null? ==> r == Err(NullPointer)
  {
    match Deref(h, target)
    case Err(e) => Err(e)
    case Ok(ListObj(_, es)) => ListGet(es, index)
    case Ok(_) => Err(ClassCast)
  }

  /** setValue on a heap object: the list object is updated in place, nothing else changes. */
  function SetValue(h: Heap, index: int, target: Value, v: Value): (r: Result<Heap>)
    ensures target.Null? ==> r == Err(NullPointer)
    ensures r.Ok? ==> |r.value| == |h| && target.Ref? && target.addr < |h|
    ensures r.Ok? ==> forall a :: 0 <= a < |h| && a != target.addr ==> r.value[a] == h[a]
    ensures r.Ok? ==> GetValue(r.value, index, target) == Ok(v)
  {
    match Deref(h, target)
    case Err(e) => Err(e)
    case Ok(ListObj(c, es)) =>
      (match ListSet(es, index, v)
       case Err(e) => Err(e)
       case Ok(es') =>
         SetThenGet(es, index, v);
         Ok(h[target.addr := ListObj(c, es')]))
    case Ok(_) => Err(ClassCast)
  }

  /** newValue never creates anything: it returns null and leaves the heap alone. */
  function NewValue(h: Heap, target: Value): (r: Result<(Heap, Value)>)
    ensures r == Ok((h, Null))
  {
    Ok((h, Null))
  }

  /** A java.util.List held in place. */
  class JavaList {
    var elems: seq<Value>

    constructor(elems: seq<Value>)
      ensures this.elems == elems
    {
      this.elems := elems;
    }
  }

  /** The accessor object for one fixed index. */
  class ListGetSet {
    const index: int

    constructor(index: int)
      ensures this.index == index
    {
      this.index := index;
    }

    /** getValue on the list object: null beyond the size, the element below it, a failure for a negative index. */
    function GetValue(list: JavaList): (r: Result<Value>)
      reads list
      ensures index >= |list.elems| ==> r == Ok(Null)
      ensures 0 <= index < |list.elems| ==> r == Ok(list.elems[index])
      ensures index < 0 ==> r == Err(IndexOutOfBounds)
    {
      ListGet(list.elems, index)
    }

    /** Overwrites, appends, or adds nulls one at a time until the index is reached, then appends. */
    method SetValue(list: JavaList, value: Value) returns (r: Outcome)
      modifies list
      ensures ListSet(old(list.elems), index, value).Ok? ==> r == Done && list.elems == ListSet(old(list.elems), index, value).value
      ensures ListSet(old(list.elems), index, value).Err? ==> r == Fails(IndexOutOfBounds) && list.elems == old(list.elems)
    {
      if |list.elems| > index {
        if index < 0 {
          return Fails(IndexOutOfBounds);
        }
        list.elems := list.elems[index := value];
      } else if |list.elems| == index {
        list.elems := list.elems + [value];
      } else {
        ghost var start := list.elems;
        while |list.elems| < index
          invariant |start| <= |list.elems| <= index
          invariant list.elems == start + Nulls(|list.elems| - |start|)
          decreases index - |list.elems|
        {
          list.elems := list.elems + [Null];
        }
        list.elems := list.elems + [value];
      }
      r := Done;
    }

    /** newValue returns null and does not touch the list. */
    method NewValue(list: JavaList) returns (r: Value)
      ensures r == Null
    {
      r := Null;
    }
  }
}
