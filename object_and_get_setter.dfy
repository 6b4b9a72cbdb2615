/** An accessor bound to the object it applies to, as the resolver hands it out. */
module ObjectAndGetSetter {
  import opened JavaObjects
  import opened AbstractGetAndSet

  /** Both parts are final: the bound object never changes. */
  datatype ObjectAndGetSetter = ObjectAndGetSetter(getAndSetter: GetAndSet, value: Value)
  {
    /** Whatever the accessor, reading through a null object throws. */
    function GetValue(h: Heap): (r: Result<Value>)
      ensures value.Null? ==> r.Err?
    {
      AbstractGetAndSet.GetValue(h, getAndSetter, value)
    }

    /** Whatever the accessor, writing through a null object throws, and a write allocates nothing. */
    function SetValue(h: Heap, table: ClassTable, v: Value): (r: Result<Heap>)
      ensures value.Null? ==> r.Err?
      ensures r.Ok? ==> |r.value| == |h|
    {
      var r := AbstractGetAndSet.SetValue(h, table, getAndSetter, value, v);
      if r.Ok? then SetValueKeepsHeapSize(h, table, getAndSetter, value, v); r else r
    }

    function GetTargetClass(): (r: Option<ClassName>)
      ensures r.None? <==> getAndSetter.ListGetSet? || getAndSetter.MapGetSet?
    {
      TargetClass(getAndSetter)
    }

    function GetField(): (r: Option<FieldDecl>)
      ensures r.Some? ==> getAndSetter.MethodGetAndSet? || getAndSetter.FieldGetAndSetter?
      ensures getAndSetter.FieldGetAndSetter? ==> r == Some(getAndSetter.backing)
    {
      AbstractGetAndSet.GetField(getAndSetter)
    }

    function GetGetter(): (r: Option<Method>)
      ensures r.Some? <==> getAndSetter.MethodGetAndSet?
      ensures r.Some? ==> r.value == getAndSetter.getMethod
    {
      AbstractGetAndSet.GetGetter(getAndSetter)
    }

    function GetSetter(): (r: Option<Method>)
      ensures r.Some? ==> getAndSetter.MethodGetAndSet? && r == getAndSetter.setMethod
    {
      AbstractGetAndSet.GetSetter(getAndSetter)
    }
  }

  /** A bound collection accessor reads back what it wrote, on the same bound object. */
  lemma BoundSetThenGet(b: ObjectAndGetSetter, h: Heap, table: ClassTable, v: Value)
    requires b.getAndSetter.ListGetSet? || b.getAndSetter.MapGetSet? || b.getAndSetter.ArrayGetSet?
    requires b.SetValue(h, table, v).Ok?
    ensures b.GetValue(b.SetValue(h, table, v).value) == Ok(v)
  {
    CollectionSetThenGet(h, table, b.getAndSetter, b.value, v);
  }
}
