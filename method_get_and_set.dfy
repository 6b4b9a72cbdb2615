/**
 * The getter/setter pair accessor: it reads through the getter and writes
 * through the setter, falling back to the backing field.
 */
module MethodGetAndSet {
  import opened JavaObjects

  const GET: string := "get"
  const IS: string := "is"
  const SET: string := "set"

  /** The setter name: "set" + the getter name after "get", or after its first two characters. */
  function SetterName(getterName: string): (r: Result<string>)
    ensures StartsWith(getterName, GET) ==> r == Ok(SET + getterName[3..])
    ensures !StartsWith(getterName, GET) && |getterName| >= 2 ==> r == Ok(SET + getterName[2..])
    ensures r.Err? <==> !StartsWith(getterName, GET) && |getterName| < 2
  {
    if StartsWith(getterName, GET) then Ok(SET + getterName[3..])
    else if |getterName| < 2 then Err(StringIndexOutOfBounds)
    else Ok(SET + getterName[2..])
  }

  /** A method that can take a value of type `ret`: one parameter assignable from it. */
  predicate AcceptsValue(table: ClassTable, m: Method, name: string, ret: ClassName)
  {
    m.name == name && |m.params| == 1 && IsAssignableFrom(table, m.params[0], ret)
  }

  /** The position of the first method, in getMethods() order, that accepts the value, or -1. */
  function FirstAcceptingIndex(table: ClassTable, methods: seq<Method>, name: string, ret: ClassName): (r: int)
    ensures -1 <= r < |methods|
    ensures r >= 0 ==> AcceptsValue(table, methods[r], name, ret)
    ensures r >= 0 ==> forall j :: 0 <= j < r ==> !AcceptsValue(table, methods[j], name, ret)
    ensures r == -1 <==> forall i :: 0 <= i < |methods| ==> !AcceptsValue(table, methods[i], name, ret)
  {
    if methods == [] then -1
    else if AcceptsValue(table, methods[0], name, ret) then 0
    else
      var r := FirstAcceptingIndex(table, methods[1..], name, ret);
      if r == -1 then -1 else r + 1
  }

  function FirstAccepting(table: ClassTable, methods: seq<Method>, name: string, ret: ClassName): (r: Option<Method>)
  {
    var i := FirstAcceptingIndex(table, methods, name, ret);
    if i == -1 then None else Some(methods[i])
  }

  /**
   * findSetter, as a specification: the setter whose parameter is exactly the
   * getter's return type if there is one, else the first assignable one-argument
   * method of that name, else none.
   */
  function FindSetterSpec(table: ClassTable, getter: Method, c: ClassName): (r: Result<Option<Method>>)
  {
    var name :- SetterName(getter.name);
    var methods := ShapeOf(table, c).methods;
    var exact := GetMethod(methods, name, [getter.ret]);
    if exact.Some? then Ok(exact) else Ok(FirstAccepting(table, methods, name, getter.ret))
  }

  /** An exact-type setter wins over any other accepting method. */
  lemma ExactSetterPreferred(table: ClassTable, getter: Method, c: ClassName, m: Method)
    requires SetterName(getter.name).Ok?
    requires m in ShapeOf(table, c).methods && m.name == SetterName(getter.name).value && m.params == [getter.ret]
    ensures FindSetterSpec(table, getter, c).Ok? && FindSetterSpec(table, getter, c).value.Some?
    ensures FindSetterSpec(table, getter, c).value.value.params == [getter.ret]
  {
    var methods := ShapeOf(table, c).methods;
    var name := SetterName(getter.name).value;
    assert GetMethod(methods, name, [getter.ret]).Some?;
  }

  /** No setter is found exactly when no method of that name accepts the getter's type. */
  lemma NoSetterIffNoAcceptingMethod(table: ClassTable, getter: Method, c: ClassName)
    requires SetterName(getter.name).Ok?
    ensures FindSetterSpec(table, getter, c) == Ok(None) <==>
      forall m :: m in ShapeOf(table, c).methods ==> !AcceptsValue(table, m, SetterName(getter.name).value, getter.ret)
  {
    var methods := ShapeOf(table, c).methods;
    var name := SetterName(getter.name).value;
    var exact := GetMethod(methods, name, [getter.ret]);
    if exact.Some? {
      assert AcceptsValue(table, exact.value, name, getter.ret);
    } else {
      var r := FirstAccepting(table, methods, name, getter.ret);
      if r.None? {
        forall m | m in methods ensures !AcceptsValue(table, m, name, getter.ret) {
          var i :| 0 <= i < |methods| && methods[i] == m;
          assert FirstAcceptingIndex(table, methods, name, getter.ret) == -1;
        }
      }
    }
  }

  /** findSetter: the exact lookup, then a scan over the public methods. */
  method FindSetter(table: ClassTable, getter: Method, c: ClassName) returns (r: Result<Option<Method>>)
    ensures r == FindSetterSpec(table, getter, c)
  {
    var name: string;
    if StartsWith(getter.name, GET) {
      name := SET + getter.name[3..];
    } else {
      if |getter.name| < 2 {
        return Err(StringIndexOutOfBounds);
      }
      name := SET + getter.name[2..];
    }
    var methods := ShapeOf(table, c).methods;
    var exact := GetMethod(methods, name, [getter.ret]);
    if exact.Some? {
      return Ok(exact);
    }
    var i := 0;
    while i < |methods|
      invariant 0 <= i <= |methods|
      invariant forall j :: 0 <= j < i ==> !AcceptsValue(table, methods[j], name, getter.ret)
    {
      var m := methods[i];
      if m.name == name {
        if |m.params| == 1 {
          if IsAssignableFrom(table, m.params[0], getter.ret) {
            return Ok(Some(m));
          }
        }
      }
      i := i + 1;
    }
    return Ok(None);
  }

  /** getValue: invoke the getter with no arguments. */
  function GetValue(h: Heap, getter: Method, target: Value): (r: Result<Value>)
    ensures target.Null? ==> r.Err?
  {
    Call(h, getter, target, [])
  }

  /** setValue: the setter if there is one, else the backing field, else a failure. */
  function SetValue(h: Heap, setter: Option<Method>, field: Option<FieldDecl>, target: Value, v: Value): (r: Result<Heap>)
    ensures setter.None? && field.None? ==> r == Err(NoSetter)
    ensures target.Null? ==> r.Err?
  {
    if setter.Some? then
      match CallMutator(h, setter.value, target, [v])
      case Ok(h') => Ok(h')
      case Err(_) => Err(Invocation)
    else if field.Some? then
      match FieldSet(h, field.value, target, v)
      case Ok(h') => Ok(h')
      case Err(_) => Err(Invocation)
    else Err(NoSetter)
  }

  /** A bean-style pair: the getter reads field `f`, the setter writes it. */
  predicate BeanPair(getter: Method, setter: Method, f: string)
  {
    getter.body == ReadField(f) && getter.params == [] && setter.body == WriteField(f) && |setter.params| == 1
  }

  /** Writing through a bean setter is read back through its getter. */
  lemma SetterThenGetter(h: Heap, getter: Method, setter: Method, f: string, field: Option<FieldDecl>, target: Value, v: Value)
    requires BeanPair(getter, setter, f)
    requires target.Ref? && target.addr < |h| && h[target.addr].Bean?
    ensures SetValue(h, Some(setter), field, target, v).Ok?
    ensures GetValue(SetValue(h, Some(setter), field, target, v).value, getter, target) == Ok(v)
  {
  }

  /** Without a setter the backing field is written, and a getter of that field reads it back. */
  lemma FieldFallbackThenGetter(h: Heap, getter: Method, field: FieldDecl, target: Value, v: Value)
    requires getter.body == ReadField(field.name) && getter.params == []
    requires target.Ref? && target.addr < |h| && h[target.addr].Bean?
    ensures SetValue(h, None, Some(field), target, v) == Ok(FieldSet(h, field, target, v).value)
    ensures GetValue(SetValue(h, None, Some(field), target, v).value, getter, target) == Ok(v)
  {
  }

  /**
   * newValue: with no setter nothing is created and null is returned; otherwise
   * a new instance of the getter's type is passed to the setter and returned,
   * with construction or invocation failures swallowed.
   */
  function NewValue(h: Heap, table: ClassTable, getter: Method, setter: Option<Method>, target: Value): (r: Result<(Heap, Value)>)
    ensures r.Ok?
    ensures setter.None? ==> r == Ok((h, Null))
    ensures setter.Some? && NewInstance(h, table, getter.ret).Err? ==> r == Ok((h, Null))
    ensures setter.Some? && NewInstance(h, table, getter.ret).Ok? ==>
      var h1 := NewInstance(h, table, getter.ret).value.0;
      var stored := CallMutator(h1, setter.value, target, [Ref(|h|)]);
      r == Ok((if stored.Ok? then stored.value else h1, Ref(|h|)))
  {
    if setter.None? then Ok((h, Null))
    else
      match NewInstance(h, table, getter.ret)
      case Err(_) => Ok((h, Null))
      case Ok((h1, x)) =>
        match CallMutator(h1, setter.value, target, [x])
        case Ok(h2) => Ok((h2, x))
        case Err(_) => Ok((h1, x))
  }

  /** A new value passed to a bean setter is what its getter reads afterwards. */
  lemma NewValueThenGetter(h: Heap, table: ClassTable, getter: Method, setter: Method, f: string, target: Value)
    requires BeanPair(getter, setter, f)
    requires target.Ref? && target.addr < |h| && h[target.addr].Bean?
    requires NewInstance(h, table, getter.ret).Ok?
    ensures NewValue(h, table, getter, Some(setter), target).value.1 == Ref(|h|)
    ensures GetValue(NewValue(h, table, getter, Some(setter), target).value.0, getter, target) == Ok(Ref(|h|))
  {
    var h1 := NewInstance(h, table, getter.ret).value.0;
    assert h1[target.addr] == h[target.addr];
  }

  /** The getter return type is the target class. */
  function GetTargetClass(getter: Method): (r: ClassName)
    ensures r == getter.ret
  {
    getter.ret
  }
}
