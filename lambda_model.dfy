/**
 * LambdaModel: models made from closures. One variant reads and writes
 * through a supplier and a consumer; two others read (and write) a property
 * of the object another model holds, answering null and ignoring writes while
 * that object is null.
 *
 * The closures are foreign code; they are parameters here, and the nested
 * model is seen through the `Models` world.
 */
module LambdaModel {
  import opened JavaObjects
  import opened ModelWorld

  datatype LambdaModel =
    | Closures(supplier: Heap -> Result<Value>, consumer: (Heap, Value) -> Result<Heap>)  // of(getter, setter)
    | OnTarget(target: Value, getter: Getter, setter: Setter)                   // of(target, getter, setter)
    | ReadOnlyOnTarget(target: Value, getter: Getter)                           // of(target, getter)

  function GetObject(models: Models, m: LambdaModel, h: Heap): (r: Result<Value>)
    ensures m.Closures? ==> r == m.supplier(h)
    ensures !m.Closures? && m.target.Null? ==> r == Err(NullPointer)
    ensures !m.Closures? && m.target != Null && models.getOf(h, m.target) == Null ==> r == Ok(Null)
    ensures !m.Closures? && m.target != Null && models.getOf(h, m.target) != Null ==> r == m.getter(h, models.getOf(h, m.target))
  {
    match m
    case Closures(supplier, _) => supplier(h)
    case _ =>
      match ModelObject(models, h, m.target)
      case Err(e) => Err(e)
      case Ok(x) => if x.Null? then Ok(Null) else m.getter(h, x)
  }

  /** setObject: the read-only variant inherits the base class's refusal. */
  function SetObject(models: Models, m: LambdaModel, h: Heap, v: Value): (r: Result<Heap>)
    ensures m.Closures? ==> r == m.consumer(h, v)
    ensures m.ReadOnlyOnTarget? ==> r == Err(Unsupported)
    ensures m.OnTarget? && m.target.Null? ==> r == Err(NullPointer)
    ensures m.OnTarget? && m.target != Null && models.getOf(h, m.target) == Null ==> r == Ok(h)
    ensures m.OnTarget? && m.target != Null && models.getOf(h, m.target) != Null ==> r == m.setter(h, models.getOf(h, m.target), v)
  {
    match m
    case Closures(_, consumer) => consumer(h, v)
    case ReadOnlyOnTarget(_, _) => Err(Unsupported)
    case OnTarget(target, _, setter) =>
      match ModelObject(models, h, target)
      case Err(e) => Err(e)
      case Ok(x) => if x.Null? then Ok(h) else setter(h, x, v)
  }

  /** attach: the closure variant refuses; the target variants pass it on to the target model. */
  function Attach(m: LambdaModel): (r: Forwarded)
    ensures m.Closures? ==> r == Forwarded([], Fails(Unsupported))
    ensures !m.Closures? && m.target != Null ==> r == Forwarded([AttachCall(m.target)], Done)
  {
    if m.Closures? then Forwarded([], Fails(Unsupported)) else CallOn(m.target, AttachCall(m.target))
  }

  /** detach: the closure variant refuses; the target variants pass it on to the target model. */
  function Detach(m: LambdaModel): (r: Forwarded)
    ensures m.Closures? ==> r == Forwarded([], Fails(Unsupported))
    ensures !m.Closures? && m.target != Null ==> r == Forwarded([DetachCall(m.target)], Done)
  {
    if m.Closures? then Forwarded([], Fails(Unsupported)) else CallOn(m.target, DetachCall(m.target))
  }

  /**
   * of(target, getter, setter) as written: the null checks' answers are
   * discarded, so every target is accepted, null included.
   */
  function OfTargetAsWritten(target: Value, getter: Getter, setter: Setter): (r: Result<LambdaModel>)
    ensures r == Ok(OnTarget(target, getter, setter))
  {
    Ok(OnTarget(target, getter, setter))
  }

  /** of(target, getter, setter) with the evident intent: a null target is refused at once. */
  function OfTarget(target: Value, getter: Getter, setter: Setter): (r: Result<LambdaModel>)
    ensures r.Err? <==> target.Null?
    ensures r.Err? ==> r.error == NullPointer
    ensures r.Ok? ==> r.value == OnTarget(target, getter, setter)
  {
    if target.Null? then Err(NullPointer) else Ok(OnTarget(target, getter, setter))
  }

  /** As written, a null target is accepted and every later use of the model throws. */
  lemma NullTargetAcceptedAsWritten(models: Models, getter: Getter, setter: Setter, h: Heap, v: Value)
    ensures var r := OfTargetAsWritten(Null, getter, setter);
      r.Ok? && GetObject(models, r.value, h) == Err(NullPointer) && SetObject(models, r.value, h, v) == Err(NullPointer) &&
      Attach(r.value).outcome == Fails(NullPointer) && Detach(r.value).outcome == Fails(NullPointer)
  {
  }

  /** A model the corrected factory returns never throws for want of a target. */
  lemma CorrectedFactoryModelsAttach(models: Models, target: Value, getter: Getter, setter: Setter, h: Heap)
    requires OfTarget(target, getter, setter).Ok?
    ensures var m := OfTarget(target, getter, setter).value;
      Attach(m) == Forwarded([AttachCall(target)], Done) && Detach(m) == Forwarded([DetachCall(target)], Done) &&
      OfTargetAsWritten(target, getter, setter) == Ok(m)
  {
  }

  /** While the target model holds null, reads answer null and writes change nothing. */
  lemma NullTargetObjectIgnoresWrites(models: Models, target: Value, getter: Getter, setter: Setter, h: Heap, v: Value)
    requires target != Null && Holds(models, target, Null)
    ensures var m := OnTarget(target, getter, setter);
      SetObject(models, m, h, v) == Ok(h) && GetObject(models, m, h) == Ok(Null)
  {
    assert models.getOf(h, target) == Null;
  }

  /** The read-only target variant refuses every write, whatever the target holds. */
  lemma ReadOnlyRefusesWrites(models: Models, target: Value, getter: Getter, h: Heap, v: Value)
    ensures SetObject(models, ReadOnlyOnTarget(target, getter), h, v) == Err(Unsupported)
    ensures GetObject(models, ReadOnlyOnTarget(target, getter), h) == GetObject(models, OnTarget(target, getter, (h: Heap, x: Value, v: Value) => Ok(h)), h)
  {
  }

  /**
   * A property model over a bean: with a field's getter and setter, a value
   * written through the model is read back, and the bean holds it.
   */
  lemma SetThenGetThroughField(models: Models, target: Value, person: Value, f: FieldDecl, h: Heap, v: Value)
    requires target != Null && person != Null && Holds(models, target, person)
    requires FieldSet(h, f, person, v).Ok?
    ensures var m := OnTarget(target, FieldGetter(f), FieldSetter(f));
      SetObject(models, m, h, v) == FieldSet(h, f, person, v) &&
      GetObject(models, m, FieldSet(h, f, person, v).value) == Ok(v)
  {
    assert models.getOf(h, target) == person;
    assert models.getOf(FieldSet(h, f, person, v).value, target) == person;
  }

  /** The closure variant over a bean's field: writes reach the bean and reads see the bean. */
  lemma ClosuresOverField(person: Value, f: FieldDecl, h: Heap, v: Value)
    requires FieldSet(h, f, person, v).Ok?
    ensures var m := Closures((h: Heap) => FieldGet(h, f, person), (h: Heap, v: Value) => FieldSet(h, f, person, v));
      GetObject(models0, m, h) == FieldGet(h, f, person) &&
      SetObject(models0, m, h, v) == FieldSet(h, f, person, v) &&
      FieldGet(SetObject(models0, m, h, v).value, f, person) == Ok(v)
  {
  }

  /** A world with no nested models, for the variants that do not use one. */
  const models0: Models := Models((h: Heap, m: Value) => Null, (h: Heap, m: Value, v: Value) => h)
}
