/** The backing-field accessor, kept as an opaque field slot. */
module FieldGetAndSetter {
  import opened JavaObjects

  /** Field.get, failures wrapped. */
  function GetValue(h: Heap, field: FieldDecl, target: Value): (r: Result<Value>)
    ensures r.Ok? <==> FieldGet(h, field, target).Ok?
    ensures r.Ok? ==> r == FieldGet(h, field, target)
  {
    match FieldGet(h, field, target)
    case Ok(v) => Ok(v)
    case Err(_) => Err(Invocation)
  }

  /** Field.set, failures wrapped. */
  function SetValue(h: Heap, field: FieldDecl, target: Value, v: Value): (r: Result<Heap>)
    ensures r.Ok? ==> GetValue(r.value, field, target) == Ok(v)
  {
    match FieldSet(h, field, target, v)
    case Ok(h') => Ok(h')
    case Err(_) => Err(Invocation)
  }

  /**
   * newValue: a new instance of the field type is stored in the field and
   * returned; a failed construction gives null, and a failed store still
   * returns the new instance.
   */
  function NewValue(h: Heap, table: ClassTable, field: FieldDecl, target: Value): (r: Result<(Heap, Value)>)
    ensures r.Ok?
    ensures NewInstance(h, table, field.fieldType).Err? ==> r == Ok((h, Null))
    ensures NewInstance(h, table, field.fieldType).Ok? ==>
      var h1 := NewInstance(h, table, field.fieldType).value.0;
      var stored := FieldSet(h1, field, target, Ref(|h|));
      r == Ok((if stored.Ok? then stored.value else h1, Ref(|h|)))
    ensures NewInstance(h, table, field.fieldType).Ok? && target.Ref? && target.addr < |h| && h[target.addr].Bean? ==>
      GetValue(r.value.0, field, target) == Ok(Ref(|h|))
  {
    match NewInstance(h, table, field.fieldType)
    case Err(_) => Ok((h, Null))
    case Ok((h1, x)) =>
      assert target.Ref? && target.addr < |h| ==> h1[target.addr] == h[target.addr];
      match FieldSet(h1, field, target, x)
      case Ok(h2) => Ok((h2, x))
      case Err(_) => Ok((h1, x))
  }
}
