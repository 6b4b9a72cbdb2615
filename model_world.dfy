/**
 * What the model classes see of the objects they wrap: which interfaces an
 * object implements, what a nested model's getObject answers and what its
 * setObject does, and the attach/detach calls they pass on.
 *
 * A nested model is foreign code (any implementation of the model
 * interface), so its behaviour is a parameter: `getOf(h, m)` is what
 * m.getObject() answers in heap h, and `setOf(h, m, v)` the heap after
 * m.setObject(v).
 */
module ModelWorld {
  import opened JavaObjects

  /** The model interface: IModel in the io.github.astrapi69 packages, Model in the others. */
  const MODEL_IFACE: ClassName := "IModel"
  const ATTACHABLE_IFACE: ClassName := "Attachable"
  /** IDetachable in the io.github.astrapi69 packages, Detachable in the others. */
  const DETACHABLE_IFACE: ClassName := "IDetachable"

  datatype Models = Models(getOf: (Heap, Value) -> Value, setOf: (Heap, Value, Value) -> Heap)

  /** `v instanceof IModel`. */
  predicate IsModel(table: ClassTable, h: Heap, v: Value)
  {
    InstanceOf(table, h, v, MODEL_IFACE)
  }

  /**
   * Nested models that behave like boxes: after setObject(v) getObject answers
   * v, and setObject changes no object's being a model or not.
   */
  ghost predicate Lawful(table: ClassTable, models: Models)
  {
    (forall h, m, v :: IsModel(table, h, m) ==> models.getOf(models.setOf(h, m, v), m) == v) &&
    (forall h, m, v, x :: IsModel(table, h, m) ==> (IsModel(table, models.setOf(h, m, v), x) <==> IsModel(table, h, x)))
  }

  /** A call a model passes on to an object it wraps. */
  datatype Forward = AttachCall(to: Value) | DetachCall(to: Value)

  /** The calls an `if (x instanceof I) x.call()` guard passes on. */
  function ForwardIf(table: ClassTable, h: Heap, x: Value, iface: ClassName, call: Forward): (r: seq<Forward>)
    ensures |r| <= 1
    ensures r == [call] <==> InstanceOf(table, h, x, iface)
    ensures r == [] <==> !InstanceOf(table, h, x, iface)
  {
    if InstanceOf(table, h, x, iface) then [call] else []
  }

  /** Null implements nothing, so nothing is ever passed on to it. */
  lemma NothingForwardedToNull(table: ClassTable, h: Heap, iface: ClassName, call: Forward)
    ensures ForwardIf(table, h, Null, iface, call) == []
  {
  }

  /** What a call that may change the heap leaves behind: the heap, and its answer or exception. */
  datatype Effect<T> = Effect(heap: Heap, result: Result<T>)

  /** The calls passed on by an attach or detach, and whether it ended normally. */
  datatype Forwarded = Forwarded(calls: seq<Forward>, outcome: Outcome)

  /** `m.attach()` or `m.detach()` on a model reference: null throws before anything is passed on. */
  function CallOn(m: Value, call: Forward): (r: Forwarded)
    ensures m.Null? <==> r.outcome.Fails?
    ensures m.Null? ==> r == Forwarded([], Fails(NullPointer))
    ensures !m.Null? ==> r == Forwarded([call], Done)
  {
    if m.Null? then Forwarded([], Fails(NullPointer)) else Forwarded([call], Done)
  }

  /** Two statements in a row: the second runs only when the first ends normally. */
  function Then(first: Forwarded, second: Forwarded): (r: Forwarded)
    ensures first.outcome.Fails? ==> r == first
    ensures first.outcome.Done? ==> r == Forwarded(first.calls + second.calls, second.outcome)
  {
    if first.outcome.Fails? then first else Forwarded(first.calls + second.calls, second.outcome)
  }

  /** A function closure applied to an object (a getter such as Person::getName). */
  type Getter = (Heap, Value) -> Result<Value>
  /** A bi-consumer closure applied to an object and a value (a setter such as Person::setName). */
  type Setter = (Heap, Value, Value) -> Result<Heap>

  /** A getter method reference reading a bean field; applied to null it throws. */
  function FieldGetter(f: FieldDecl): Getter
  {
    (h: Heap, x: Value) => FieldGet(h, f, x)
  }

  /** A setter method reference writing a bean field; applied to null it throws. */
  function FieldSetter(f: FieldDecl): Setter
  {
    (h: Heap, x: Value, v: Value) => FieldSet(h, f, x, v)
  }

  /** `m.getObject()` on a model reference: null throws, anything else answers its object. */
  function ModelObject(models: Models, h: Heap, m: Value): (r: Result<Value>)
    ensures m.Null? <==> r.Err?
    ensures r.Err? ==> r.error == NullPointer
    ensures r.Ok? ==> r.value == models.getOf(h, m)
  {
    if m.Null? then Err(NullPointer) else Ok(models.getOf(h, m))
  }

  /** A model whose object is `x` in every heap, such as a box holding a reference. */
  ghost predicate Holds(models: Models, m: Value, x: Value)
  {
    forall h :: models.getOf(h, m) == x
  }
}
