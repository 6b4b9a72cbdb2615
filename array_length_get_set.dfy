/** The read-only "length"/"size" accessor of an array. */
module ArrayLengthGetSet {
  import opened JavaObjects

  /** Array.getLength. */
  function GetValue(h: Heap, target: Value): (r: Result<Value>)
    ensures r.Ok? <==> target.Ref? && target.addr < |h| && h[target.addr].ArrayObj?
    ensures r.Ok? ==> r.value == IntVal(|h[target.addr].elems|)
  {
    match Deref(h, target)
    case Ok(ArrayObj(_, es)) => Ok(IntVal(|es|))
    case Err(NullPointer) => Err(NullPointer)
    case Err(Dangling) => Err(Dangling)
    case _ => Err(IllegalArgument)
  }

  /** The length cannot be set; nothing changes. */
  function SetValue(h: Heap, target: Value, v: Value): (r: Result<Heap>)
    ensures r == Err(ReadOnlyLength)
  {
    Err(ReadOnlyLength)
  }

  /** No new value can be made for a length. */
  function NewValue(h: Heap, target: Value): (r: Result<(Heap, Value)>)
    ensures r == Err(ReadOnlyLength)
  {
    Err(ReadOnlyLength)
  }

  /** The length is an int. */
  function GetTargetClass(): (r: ClassName)
    ensures r == INT_CLASS
  {
    INT_CLASS
  }
}
