/**
 * The indexed-property accessor for "prop.N": getProp(int) reads, a
 * setProp(int, value) method is looked up lazily and then remembered.
 */
module ArrayPropertyGetSet {
  import opened JavaObjects

  /** findSetter: "set" + the getter name after its first three characters, taking (int, return type). */
  function FindIndexedSetter(table: ClassTable, getter: Method, c: ClassName): (r: Result<Option<Method>>)
    ensures |getter.name| < 3 <==> r.Err?
    ensures r.Ok? && r.value.Some? ==>
      r.value.value.name == "set" + getter.name[3..] && r.value.value.params == [INT_CLASS, getter.ret]
    ensures r.Ok? && r.value.None? ==> forall m :: m in ShapeOf(table, c).methods ==>
      !(m.name == "set" + getter.name[3..] && m.params == [INT_CLASS, getter.ret])
  {
    if |getter.name| < 3 then Err(StringIndexOutOfBounds)
    else Ok(GetMethod(ShapeOf(table, c).methods, "set" + getter.name[3..], [INT_CLASS, getter.ret]))
  }

  /** getValue: the indexed getter called with the fixed index. */
  function GetValue(h: Heap, getter: Method, index: int, target: Value): (r: Result<Value>)
    ensures target.Null? ==> r.Err?
  {
    Call(h, getter, target, [IntVal(index)])
  }

  /** setValue with the setter in hand: invoke it with (index, value), or fail when there is none. */
  function SetValueWith(h: Heap, setter: Option<Method>, index: int, target: Value, v: Value): (r: Result<Heap>)
    ensures setter.None? ==> r == Err(NoSetter)
    ensures setter.Some? && r.Ok? ==> r == CallMutator(h, setter.value, target, [IntVal(index), v])
  {
    if setter.None? then Err(NoSetter)
    else
      match CallMutator(h, setter.value, target, [IntVal(index), v])
      case Ok(h') => Ok(h')
      case Err(_) => Err(Invocation)
  }

  /**
   * newValue with the setter in hand: none means nothing is constructed and
   * null is returned; otherwise a new instance of the getter's type is stored
   * at the index and returned, failures swallowed.
   */
  function NewValueWith(h: Heap, table: ClassTable, getter: Method, setter: Option<Method>, index: int, target: Value): (r: Result<(Heap, Value)>)
    ensures r.Ok?
    ensures setter.None? ==> r == Ok((h, Null))
    ensures setter.Some? && NewInstance(h, table, getter.ret).Err? ==> r == Ok((h, Null))
    ensures setter.Some? && NewInstance(h, table, getter.ret).Ok? ==>
      var h1 := NewInstance(h, table, getter.ret).value.0;
      var stored := CallMutator(h1, setter.value, target, [IntVal(index), Ref(|h|)]);
      r == Ok((if stored.Ok? then stored.value else h1, Ref(|h|)))
  {
    if setter.None? then Ok((h, Null))
    else
      match NewInstance(h, table, getter.ret)
      case Err(_) => Ok((h, Null))
      case Ok((h1, x)) =>
        match CallMutator(h1, setter.value, target, [IntVal(index), x])
        case Ok(h2) => Ok((h2, x))
        case Err(_) => Ok((h1, x))
  }

  /** The setter the first call looks up, from the class of the object it is given. */
  function SetterFor(h: Heap, table: ClassTable, getter: Method, target: Value): (r: Result<Option<Method>>)
    ensures target.Null? ==> r == Err(NullPointer)
  {
    var c :- ClassOf(h, target);
    FindIndexedSetter(table, getter, c)
  }

  /** The stateless reading of setValue: look the setter up for the object's class. */
  function SetValue(h: Heap, table: ClassTable, getter: Method, index: int, target: Value, v: Value): (r: Result<Heap>)
  {
    var s :- SetterFor(h, table, getter, target);
    SetValueWith(h, s, index, target, v)
  }

  /** The stateless reading of newValue. */
  function NewValue(h: Heap, table: ClassTable, getter: Method, index: int, target: Value): (r: Result<(Heap, Value)>)
  {
    var s :- SetterFor(h, table, getter, target);
    NewValueWith(h, table, getter, s, index, target)
  }

  /** An indexed bean property: get(i) reads element i of list field `f`, set(i, v) writes it. */
  predicate IndexedPair(getter: Method, setter: Method, f: string)
  {
    getter.body == ReadElement(f) && |getter.params| == 1 && setter.body == WriteElement(f) && |setter.params| == 2
  }

  /** Writing an in-range element through the setter is read back through the getter. */
  lemma SetThenGet(h: Heap, getter: Method, setter: Method, f: string, index: int, target: Value, v: Value)
    requires IndexedPair(getter, setter, f)
    requires target.Ref? && target.addr < |h| && h[target.addr].Bean? && f in h[target.addr].fields
    requires var l := h[target.addr].fields[f];
      l.Ref? && l.addr < |h| && l.addr != target.addr && h[l.addr].ListObj? && 0 <= index < |h[l.addr].elems|
    ensures SetValueWith(h, Some(setter), index, target, v).Ok?
    ensures GetValue(SetValueWith(h, Some(setter), index, target, v).value, getter, index, target) == Ok(v)
  {
  }

  /** A new value stored through an indexed setter at an in-range index is what the indexed getter reads there. */
  lemma NewValueThenGet(h: Heap, table: ClassTable, getter: Method, setter: Method, f: string, index: int, target: Value)
    requires IndexedPair(getter, setter, f)
    requires target.Ref? && target.addr < |h| && h[target.addr].Bean? && f in h[target.addr].fields
    requires var l := h[target.addr].fields[f];
      l.Ref? && l.addr < |h| && l.addr != target.addr && h[l.addr].ListObj? && 0 <= index < |h[l.addr].elems|
    requires NewInstance(h, table, getter.ret).Ok?
    ensures NewValueWith(h, table, getter, Some(setter), index, target).value.1 == Ref(|h|)
    ensures GetValue(NewValueWith(h, table, getter, Some(setter), index, target).value.0, getter, index, target) == Ok(Ref(|h|))
  {
    var h1 := NewInstance(h, table, getter.ret).value.0;
    var l := h[target.addr].fields[f];
    assert h1[target.addr] == h[target.addr] && h1[l.addr] == h[l.addr];
    SetThenGet(h1, getter, setter, f, index, target, Ref(|h|));
  }

  /** The accessor object: the remembered setter starts out unknown. */
  class ArrayPropertyGetSet {
    const getMethod: Method
    const index: int
    var setMethod: Option<Method>

    constructor(getMethod: Method, index: int)
      ensures this.getMethod == getMethod && this.index == index && setMethod.None?
    {
      this.getMethod := getMethod;
      this.index := index;
      setMethod := None;
    }

    /** The getter's return type. */
    function GetTargetClass(): (r: ClassName)
      ensures r == getMethod.ret
    {
      getMethod.ret
    }

    /** The setter is looked up only while none is remembered; a found one is kept. */
    method Memoise(h: Heap, table: ClassTable, target: Value) returns (r: Outcome)
      modifies this
      ensures old(setMethod).Some? ==> setMethod == old(setMethod) && r == Done
      ensures old(setMethod).None? && SetterFor(h, table, getMethod, target).Ok? ==>
        setMethod == SetterFor(h, table, getMethod, target).value && r == Done
      ensures old(setMethod).None? && SetterFor(h, table, getMethod, target).Err? ==>
        setMethod.None? && r == Fails(SetterFor(h, table, getMethod, target).error)
    {
      r := Done;
      if setMethod.None? {
        var found := SetterFor(h, table, getMethod, target);
        if found.Err? {
          return Fails(found.error);
        }
        setMethod := found.value;
      }
    }

    method NewValue(h: Heap, table: ClassTable, target: Value) returns (r: Result<(Heap, Value)>)
      modifies this
      ensures old(setMethod).Some? ==> setMethod == old(setMethod)
      ensures old(setMethod).None? && SetterFor(h, table, getMethod, target).Ok? ==>
        setMethod == SetterFor(h, table, getMethod, target).value
      ensures old(setMethod).None? && SetterFor(h, table, getMethod, target).Err? ==>
        r == Err(SetterFor(h, table, getMethod, target).error)
      ensures r.Ok? ==> r == NewValueWith(h, table, getMethod, setMethod, index, target)
    {
      var m := Memoise(h, table, target);
      if m.Fails? {
        return Err(m.error);
      }
      r := NewValueWith(h, table, getMethod, setMethod, index, target);
    }

    method SetValue(h: Heap, table: ClassTable, target: Value, v: Value) returns (r: Result<Heap>)
      modifies this
      ensures old(setMethod).Some? ==> setMethod == old(setMethod)
      ensures old(setMethod).None? && SetterFor(h, table, getMethod, target).Ok? ==>
        setMethod == SetterFor(h, table, getMethod, target).value
      ensures old(setMethod).None? && SetterFor(h, table, getMethod, target).Err? ==>
        r == Err(SetterFor(h, table, getMethod, target).error)
      ensures SetterFor(h, table, getMethod, target).Ok? || old(setMethod).Some? ==>
        r == SetValueWith(h, setMethod, index, target, v)
    {
      var m := Memoise(h, table, target);
      if m.Fails? {
        return Err(m.error);
      }
      r := SetValueWith(h, setMethod, index, target, v);
    }
  }

  /**
   * Remembering the setter is invisible as long as the accessor is only used
   * on objects of one class, as the resolver's per-class cache ensures:
   * the second call behaves as a fresh lookup would.
   */
  method RememberedSetterIsReused(table: ClassTable, getter: Method, index: int, h: Heap, target: Value, v: Value, h2: Heap, target2: Value)
    returns (first: Result<Heap>, second: Result<Heap>)
    requires ClassOf(h, target).Ok? && ClassOf(h2, target2) == ClassOf(h, target)
    requires |getter.name| >= 3
    ensures first == SetValue(h, table, getter, index, target, v)
    ensures second == SetValue(h2, table, getter, index, target2, v)
  {
    var acc := new ArrayPropertyGetSet(getter, index);
    first := acc.SetValue(h, table, target, v);
    second := acc.SetValue(h2, table, target2, v);
  }
}
