/**
 * The accessor variants as one closed datatype, with the null-returning
 * defaults of AbstractGetAndSet and the dispatch of get, set, newValue and
 * targetClass to each variant.
 */
module AbstractGetAndSet {
  import opened JavaObjects
  import ListGetSet
  import MapGetSet
  import ArrayGetSet
  import ArrayLengthGetSet
  import ArrayPropertyGetSet
  import MethodGetAndSet
  import FieldGetAndSetter

  datatype GetAndSet =
    | ListGetSet(index: int)
    | MapGetSet(key: string)
    | ArrayGetSet(componentType: ClassName, index: int)
    | ArrayLengthGetSet
    | ArrayPropertyGetSet(getMethod: Method, index: int)
    | MethodGetAndSet(getMethod: Method, setMethod: Option<Method>, field: Option<FieldDecl>)
    | FieldGetAndSetter(backing: FieldDecl)

  /** getField: only the field-backed variants report a field. */
  function GetField(acc: GetAndSet): (r: Option<FieldDecl>)
    ensures r.Some? ==> acc.MethodGetAndSet? || acc.FieldGetAndSetter?
    ensures acc.FieldGetAndSetter? ==> r == Some(acc.backing)
    ensures acc.MethodGetAndSet? ==> r == acc.field
  {
    match acc
    case MethodGetAndSet(_, _, f) => f
    case FieldGetAndSetter(f) => Some(f)
    case _ => None
  }

  /** getGetter: only the getter/setter pair reports a getter. */
  function GetGetter(acc: GetAndSet): (r: Option<Method>)
    ensures r.Some? <==> acc.MethodGetAndSet?
    ensures r.Some? ==> r.value == acc.getMethod
  {
    if acc.MethodGetAndSet? then Some(acc.getMethod) else None
  }

  /** getSetter: only the getter/setter pair reports a setter, the one it was built with. */
  function GetSetter(acc: GetAndSet): (r: Option<Method>)
    ensures r.Some? ==> acc.MethodGetAndSet? && r == acc.setMethod
    ensures acc.MethodGetAndSet? ==> r == acc.setMethod
  {
    if acc.MethodGetAndSet? then acc.setMethod else None
  }

  /** getTargetClass: the list and map accessors report none (the default); every other variant a type. */
  function TargetClass(acc: GetAndSet): (r: Option<ClassName>)
    ensures r.None? <==> acc.ListGetSet? || acc.MapGetSet?
    ensures acc.ArrayGetSet? ==> r == Some(acc.componentType)
    ensures acc.ArrayLengthGetSet? ==> r == Some(INT_CLASS)
    ensures acc.ArrayPropertyGetSet? || acc.MethodGetAndSet? ==> r == Some(acc.getMethod.ret)
    ensures acc.FieldGetAndSetter? ==> r == Some(acc.backing.fieldType)
  {
    match acc
    case ListGetSet(_) => None
    case MapGetSet(_) => None
    case ArrayGetSet(c, _) => Some(c)
    case ArrayLengthGetSet => Some(ArrayLengthGetSet.GetTargetClass())
    case ArrayPropertyGetSet(g, _) => Some(g.ret)
    case MethodGetAndSet(g, _, _) => Some(MethodGetAndSet.GetTargetClass(g))
    case FieldGetAndSetter(f) => Some(f.fieldType)
  }

  function GetValue(h: Heap, acc: GetAndSet, target: Value): (r: Result<Value>)
  {
    match acc
    case ListGetSet(i) => ListGetSet.GetValue(h, i, target)
    case MapGetSet(k) => MapGetSet.GetValue(h, k, target)
    case ArrayGetSet(_, i) => ArrayGetSet.GetValue(h, i, target)
    case ArrayLengthGetSet => ArrayLengthGetSet.GetValue(h, target)
    case ArrayPropertyGetSet(g, i) => ArrayPropertyGetSet.GetValue(h, g, i, target)
    case MethodGetAndSet(g, _, _) => MethodGetAndSet.GetValue(h, g, target)
    case FieldGetAndSetter(f) => FieldGetAndSetter.GetValue(h, f, target)
  }

  function SetValue(h: Heap, table: ClassTable, acc: GetAndSet, target: Value, v: Value): (r: Result<Heap>)
  {
    match acc
    case ListGetSet(i) => ListGetSet.SetValue(h, i, target, v)
    case MapGetSet(k) => MapGetSet.SetValue(h, k, target, v)
    case ArrayGetSet(_, i) => ArrayGetSet.SetValue(h, i, target, v)
    case ArrayLengthGetSet => ArrayLengthGetSet.SetValue(h, target, v)
    case ArrayPropertyGetSet(g, i) => ArrayPropertyGetSet.SetValue(h, table, g, i, target, v)
    case MethodGetAndSet(_, s, f) => MethodGetAndSet.SetValue(h, s, f, target, v)
    case FieldGetAndSetter(f) => FieldGetAndSetter.SetValue(h, f, target, v)
  }

  function NewValue(h: Heap, table: ClassTable, acc: GetAndSet, target: Value): (r: Result<(Heap, Value)>)
  {
    match acc
    case ListGetSet(_) => ListGetSet.NewValue(h, target)
    case MapGetSet(_) => MapGetSet.NewValue(h, target)
    case ArrayGetSet(c, i) => ArrayGetSet.NewValue(h, table, c, i, target)
    case ArrayLengthGetSet => ArrayLengthGetSet.NewValue(h, target)
    case ArrayPropertyGetSet(g, i) => ArrayPropertyGetSet.NewValue(h, table, g, i, target)
    case MethodGetAndSet(g, s, _) => MethodGetAndSet.NewValue(h, table, g, s, target)
    case FieldGetAndSetter(f) => FieldGetAndSetter.NewValue(h, table, f, target)
  }

  /** The accessors that never construct anything: newValue leaves the heap alone and yields null. */
  lemma CollectionNewValueIsNull(h: Heap, table: ClassTable, acc: GetAndSet, target: Value)
    requires acc.ListGetSet? || acc.MapGetSet? || (acc.MethodGetAndSet? && acc.setMethod.None?)
    ensures NewValue(h, table, acc, target) == Ok((h, Null))
  {
  }

  /** A successful write leaves the heap the same size: only allocation grows it. */
  lemma SetValueKeepsHeapSize(h: Heap, table: ClassTable, acc: GetAndSet, target: Value, v: Value)
    requires SetValue(h, table, acc, target, v).Ok?
    ensures |SetValue(h, table, acc, target, v).value| == |h|
  {
    match acc
    case ArrayPropertyGetSet(g, i) =>
      var s := ArrayPropertyGetSet.SetterFor(h, table, g, target).value;
      if s.Some? {
        assert SetValue(h, table, acc, target, v) == CallMutator(h, s.value, target, [IntVal(i), v]);
      }
    case MethodGetAndSet(_, s, f) =>
    case _ =>
  }

  /** Round trip for the collection accessors: a successful write is read back. */
  lemma CollectionSetThenGet(h: Heap, table: ClassTable, acc: GetAndSet, target: Value, v: Value)
    requires acc.ListGetSet? || acc.MapGetSet? || acc.ArrayGetSet?
    requires SetValue(h, table, acc, target, v).Ok?
    ensures GetValue(SetValue(h, table, acc, target, v).value, acc, target) == Ok(v)
  {
  }
}
