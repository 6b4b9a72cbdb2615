/** The array-index accessor: bounds-checked reads, slot writes, and a fresh element on demand. */
module ArrayGetSet {
  import opened JavaObjects

  /** getValue: the element when the length exceeds the index, else null; Array.get throws below zero. */
  function ArrayGet(elems: seq<Value>, index: int): (r: Result<Value>)
    ensures index >= |elems| ==> r == Ok(Null)
    ensures 0 <= index < |elems| ==> r == Ok(elems[index])
    ensures index < 0 ==> r == Err(IndexOutOfBounds)
  {
    if |elems| > index then (if index < 0 then Err(IndexOutOfBounds) else Ok(elems[index]))
    else Ok(Null)
  }

  /** Array.set: only slot `index` changes and the length never does; out of bounds throws. */
  function ArraySet(elems: seq<Value>, index: int, v: Value): (r: Result<seq<Value>>)
    ensures r.Ok? <==> 0 <= index < |elems|
    ensures r.Ok? ==> |r.value| == |elems| && r.value[index] == v
    ensures r.Ok? ==> forall j :: 0 <= j < |elems| && j != index ==> r.value[j] == elems[j]
  {
    if 0 <= index < |elems| then Ok(elems[index := v]) else Err(IndexOutOfBounds)
  }

  /** Round trip within bounds. */
  lemma SetThenGet(elems: seq<Value>, index: int, v: Value)
    requires 0 <= index < |elems|
    ensures ArrayGet(ArraySet(elems, index, v).value, index) == Ok(v)
  {
  }

  function GetValue(h: Heap, index: int, target: Value): (r: Result<Value>)
    ensures target.Null? ==> r == Err(NullPointer)
  {
    match Deref(h, target)
    case Err(Dangling) => Err(Dangling)
    case Err(NullPointer) => Err(NullPointer)
    case Ok(ArrayObj(_, es)) => ArrayGet(es, index)
    case _ => Err(IllegalArgument)
  }

  function SetValue(h: Heap, index: int, target: Value, v: Value): (r: Result<Heap>)
    ensures target.Null? ==> r == Err(NullPointer)
    ensures r.Ok? ==> |r.value| == |h| && target.Ref? && target.addr < |h|
    ensures r.Ok? ==> forall a :: 0 <= a < |h| && a != target.addr ==> r.value[a] == h[a]
    ensures r.Ok? ==> GetValue(r.value, index, target) == Ok(v)
    ensures r.Ok? ==> h[target.addr].ArrayObj? && r.value[target.addr].ArrayObj?
    ensures r.Ok? ==> |r.value[target.addr].elems| == |h[target.addr].elems|
  {
    match Deref(h, target)
    case Err(Dangling) => Err(Dangling)
    case Err(NullPointer) => Err(NullPointer)
    case Ok(ArrayObj(c, es)) =>
      (match ArraySet(es, index, v)
       case Ok(es') => Ok(h[target.addr := ArrayObj(c, es')])
       case Err(e) => Err(e))
    case _ => Err(IllegalArgument)
  }

  /**
   * newValue: a new component instance is stored at the index and returned;
   * any failure is swallowed. When construction succeeds but the store
   * fails, the new instance is still returned (and allocated).
   */
  function NewValue(h: Heap, table: ClassTable, component: ClassName, index: int, target: Value): (r: Result<(Heap, Value)>)
    ensures r.Ok?
    ensures NewInstance(h, table, component).Err? ==> r == Ok((h, Null))
    ensures NewInstance(h, table, component).Ok? ==> r.value.1 == NewInstance(h, table, component).value.1
    ensures (NewInstance(h, table, component).Ok? && target.Ref? && target.addr < |h|
             && h[target.addr].ArrayObj? && 0 <= index < |h[target.addr].elems|) ==>
              GetValue(r.value.0, index, target) == Ok(r.value.1)
  {
    match NewInstance(h, table, component)
    case Err(_) => Ok((h, Null))
    case Ok((h1, x)) =>
      match SetValue(h1, index, target, x)
      case Ok(h2) => Ok((h2, x))
      case Err(_) => Ok((h1, x))
  }

  /** The accessor object over a Java array held in place. */
  class ArrayGetSet {
    const componentType: ClassName
    const index: int

    constructor(componentType: ClassName, index: int)
      ensures this.componentType == componentType && this.index == index
    {
      this.componentType := componentType;
      this.index := index;
    }

    /** The component type fixed at construction. */
    function GetTargetClass(): (r: ClassName)
      ensures r == componentType
    {
      componentType
    }

    function GetValue(a: array<Value>): (r: Result<Value>)
      reads a
      ensures r == ArrayGet(a[..], index)
    {
      if a.Length > index then (if index < 0 then Err(IndexOutOfBounds) else Ok(a[index]))
      else Ok(Null)
    }

    method SetValue(a: array<Value>, value: Value) returns (r: Outcome)
      modifies a
      ensures ArraySet(old(a[..]), index, value).Ok? ==> r == Done && a[..] == ArraySet(old(a[..]), index, value).value
      ensures ArraySet(old(a[..]), index, value).Err? ==> r == Fails(IndexOutOfBounds) && a[..] == old(a[..])
    {
      if 0 <= index < a.Length {
        a[index] := value;
        r := Done;
      } else {
        r := Fails(IndexOutOfBounds);
      }
    }

    /**
     * `instance` is what componentType.newInstance() produced; a failure to
     * construct or to store is swallowed and whatever was constructed is returned.
     */
    method NewValue(a: array<Value>, instance: Result<Value>) returns (r: Value)
      modifies a
      ensures instance.Err? ==> r == Null && a[..] == old(a[..])
      ensures instance.Ok? ==> r == instance.value
      ensures instance.Ok? && 0 <= index < a.Length ==> a[..] == old(a[..])[index := r]
      ensures instance.Ok? && !(0 <= index < a.Length) ==> a[..] == old(a[..])
    {
      r := Null;
      if instance.Ok? {
        r := instance.value;
        var stored := SetValue(a, r);
      }
    }
  }
}
