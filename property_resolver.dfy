/**
 * The public face of the property resolver: getValue, setValue, the
 * getPropertyClass/Field/Getter/Setter queries, and the map from application
 * keys to class caches (setClassCache, destroy).
 */
module PropertyResolver {
  import opened JavaObjects
  import AbstractGetAndSet
  import opened ObjectAndGetSetter
  import opened DefaultClassCache
  import opened PropertyResolverText
  import opened PropertyResolverWalk

  /** StringUtils.isEmpty: null or "". */
  predicate IsEmpty(expression: Option<string>)
  {
    expression.None? || expression.value == ""
  }

  /** The walk under a policy, starting from the class of a non-null object. */
  function WalkObject(table: ClassTable, expression: string, target: Value, policy: Policy, cache: CacheMap, heap: Heap): (r: Resolved)
    requires target != Null
    ensures ClassOf(heap, target).Err? ==> r == Resolved(cache, heap, Err(ClassOf(heap, target).error))
    ensures ClassOf(heap, target).Ok? ==> r == Walk(table, expression, target, policy, Some(ClassOf(heap, target).value), cache, heap)
    ensures policy != CreateNewValue ==> r.heap == heap
    ensures cache.Keys <= r.cache.Keys
  {
    match ClassOf(heap, target)
    case Err(e) => Resolved(cache, heap, Err(e))
    case Ok(c) => Walk(table, expression, target, policy, Some(c), cache, heap)
  }

  /** Under RETURN_NULL and RESOLVE_CLASS the walk leaves the heap as it was. */
  lemma WalkObjectKeepsHeap(table: ClassTable, expression: string, target: Value, policy: Policy, cache: CacheMap, heap: Heap)
    requires target != Null && policy != CreateNewValue
    ensures WalkObject(table, expression, target, policy, cache, heap).heap == heap
  {
    if ClassOf(heap, target).Ok? {
      var s := Normalise(expression);
      WalkFromKeepsHeap(table, s, policy, 0, NextDot(s, 0), target, Some(ClassOf(heap, target).value), cache, heap);
    }
  }

  /** The cache the resolver works on after an operation, the heap, and the answer. */
  datatype Answer<T> = Answer(cache: CacheMap, heap: Heap, result: Result<T>)

  /**
   * getValue: a null or empty expression, or a null object, gives back the
   * object itself; otherwise the walk under RETURN_NULL, and null as soon as
   * some segment on the way is null. Reading never changes the heap.
   */
  function GetValue(table: ClassTable, expression: Option<string>, target: Value, cache: CacheMap, heap: Heap): (r: Answer<Value>)
    ensures r.heap == heap
    ensures IsEmpty(expression) || target.Null? ==> r == Answer(cache, heap, Ok(target))
  {
    if IsEmpty(expression) || target.Null? then Answer(cache, heap, Ok(target))
    else
      var w := WalkObject(table, expression.value, target, ReturnNull, cache, heap);
      WalkObjectKeepsHeap(table, expression.value, target, ReturnNull, cache, heap);
      match w.result
      case Err(e) => Answer(w.cache, heap, Err(e))
      case Ok(None) => Answer(w.cache, heap, Ok(Null))
      case Ok(Some(bound)) => Answer(w.cache, heap, bound.GetValue(heap))
  }

  /**
   * setValue: an empty expression and a null object are refused; otherwise
   * the walk under CREATE_NEW_VALUE, which fails when some segment is null and
   * cannot be created, and then the last accessor writes the value.
   */
  function SetValue(table: ClassTable, expression: Option<string>, target: Value, v: Value, cache: CacheMap, heap: Heap): (r: Answer<()>)
    ensures IsEmpty(expression) ==> r == Answer(cache, heap, Err(EmptyExpression))
    ensures !IsEmpty(expression) && target.Null? ==> r == Answer(cache, heap, Err(NullTarget))
  {
    if IsEmpty(expression) then Answer(cache, heap, Err(EmptyExpression))
    else if target.Null? then Answer(cache, heap, Err(NullTarget))
    else
      var w := WalkObject(table, expression.value, target, CreateNewValue, cache, heap);
      var (heap', written) := WriteResolved(table, w.result, w.heap, v);
      Answer(w.cache, heap', written)
  }

  /** The end of setValue: no accessor is a resolution failure, and otherwise the accessor writes. */
  function WriteResolved(table: ClassTable, bound: Result<Option<ObjectAndGetSetter>>, heap: Heap, v: Value): (r: (Heap, Result<()>))
    ensures bound.Err? ==> r == (heap, Err(bound.error))
    ensures bound == Ok(None) ==> r == (heap, Err(Resolution))
    ensures r.1.Err? ==> r.0 == heap
  {
    match bound
    case Err(e) => (heap, Err(e))
    case Ok(None) => (heap, Err(Resolution))
    case Ok(Some(b)) =>
      match b.SetValue(heap, table, v)
      case Err(e) => (heap, Err(e))
      case Ok(heap') => (heap', Ok(()))
  }

  /** `getSetter.setValue(value)` after the walk of setValue. */
  method WriteBound(table: ClassTable, bound: Result<Option<ObjectAndGetSetter>>, heap: Heap, v: Value) returns (heap': Heap, r: Result<()>)
    ensures (heap', r) == WriteResolved(table, bound, heap, v)
  {
    heap' := heap;
    if bound.Err? {
      return heap', Err(bound.error);
    }
    if bound.value.None? {
      return heap', Err(Resolution);
    }
    var written := bound.value.value.SetValue(heap, table, v);
    if written.Err? {
      return heap', Err(written.error);
    }
    heap', r := written.value, Ok(());
  }

  /**
   * getPropertyClass(expression, clz): the walk under RESOLVE_CLASS with no
   * object, so no getter is ever called; the class is the last accessor's
   * target class. A null expression makes replaceAll yield null, which throws.
   */
  function GetPropertyClass(table: ClassTable, expression: Option<string>, clz: Option<ClassName>, cache: CacheMap, heap: Heap): (r: Answer<Option<ClassName>>)
    ensures r.heap == heap
    ensures expression.None? ==> r == Answer(cache, heap, Err(NullPointer))
  {
    if expression.None? then Answer(cache, heap, Err(NullPointer))
    else
      var s := Normalise(expression.value);
      var w := Walk(table, expression.value, Null, ResolveClass, clz, cache, heap);
      WalkFromKeepsHeap(table, s, ResolveClass, 0, NextDot(s, 0), Null, clz, cache, heap);
      match w.result
      case Err(e) => Answer(w.cache, heap, Err(e))
      case Ok(None) => Answer(w.cache, heap, Err(Resolution))
      case Ok(Some(bound)) => Answer(w.cache, heap, Ok(bound.GetTargetClass()))
  }

  /**
   * The shared start of getPropertyClass/Field/Getter/Setter on an object:
   * the object's class is taken first (a null object throws), then the walk
   * under RESOLVE_CLASS; a null answer is an error.
   */
  function ResolveOnObject(table: ClassTable, expression: Option<string>, target: Value, cache: CacheMap, heap: Heap): (r: Answer<ObjectAndGetSetter>)
    ensures r.heap == heap
    ensures target.Null? ==> r == Answer(cache, heap, Err(NullPointer))
    ensures target != Null && expression.None? && ClassOf(heap, target).Ok? ==> r == Answer(cache, heap, Err(NullPointer))
  {
    if target.Null? then Answer(cache, heap, Err(NullPointer))
    else if ClassOf(heap, target).Err? then Answer(cache, heap, Err(ClassOf(heap, target).error))
    else if expression.None? then Answer(cache, heap, Err(NullPointer))
    else
      var w := WalkObject(table, expression.value, target, ResolveClass, cache, heap);
      WalkObjectKeepsHeap(table, expression.value, target, ResolveClass, cache, heap);
      match w.result
      case Err(e) => Answer(w.cache, heap, Err(e))
      case Ok(None) => Answer(w.cache, heap, Err(Resolution))
      case Ok(Some(bound)) => Answer(w.cache, heap, Ok(bound))
  }

  /** getPropertyClass(expression, object). */
  function GetPropertyClassOf(table: ClassTable, expression: Option<string>, target: Value, cache: CacheMap, heap: Heap): (r: Answer<Option<ClassName>>)
    ensures r.heap == heap
    ensures r.result.Ok? <==> ResolveOnObject(table, expression, target, cache, heap).result.Ok?
    ensures r.result.Ok? ==> r.result.value == AbstractGetAndSet.TargetClass(ResolveOnObject(table, expression, target, cache, heap).result.value.getAndSetter)
  {
    var a := ResolveOnObject(table, expression, target, cache, heap);
    match a.result
    case Err(e) => Answer(a.cache, heap, Err(e))
    case Ok(bound) => Answer(a.cache, heap, Ok(bound.GetTargetClass()))
  }

  /** getPropertyField(expression, object). */
  function GetPropertyField(table: ClassTable, expression: Option<string>, target: Value, cache: CacheMap, heap: Heap): (r: Answer<Option<FieldDecl>>)
    ensures r.heap == heap
    ensures r.result.Ok? <==> ResolveOnObject(table, expression, target, cache, heap).result.Ok?
    ensures r.result.Ok? ==> r.result.value == AbstractGetAndSet.GetField(ResolveOnObject(table, expression, target, cache, heap).result.value.getAndSetter)
  {
    var a := ResolveOnObject(table, expression, target, cache, heap);
    match a.result
    case Err(e) => Answer(a.cache, heap, Err(e))
    case Ok(bound) => Answer(a.cache, heap, Ok(bound.GetField()))
  }

  /** getPropertyGetter(expression, object). */
  function GetPropertyGetter(table: ClassTable, expression: Option<string>, target: Value, cache: CacheMap, heap: Heap): (r: Answer<Option<Method>>)
    ensures r.heap == heap
    ensures r.result.Ok? <==> ResolveOnObject(table, expression, target, cache, heap).result.Ok?
    ensures r.result.Ok? ==> r.result.value == AbstractGetAndSet.GetGetter(ResolveOnObject(table, expression, target, cache, heap).result.value.getAndSetter)
  {
    var a := ResolveOnObject(table, expression, target, cache, heap);
    match a.result
    case Err(e) => Answer(a.cache, heap, Err(e))
    case Ok(bound) => Answer(a.cache, heap, Ok(bound.GetGetter()))
  }

  /** getPropertySetter(expression, object). */
  function GetPropertySetter(table: ClassTable, expression: Option<string>, target: Value, cache: CacheMap, heap: Heap): (r: Answer<Option<Method>>)
    ensures r.heap == heap
    ensures r.result.Ok? <==> ResolveOnObject(table, expression, target, cache, heap).result.Ok?
    ensures r.result.Ok? ==> r.result.value == AbstractGetAndSet.GetSetter(ResolveOnObject(table, expression, target, cache, heap).result.value.getAndSetter)
  {
    var a := ResolveOnObject(table, expression, target, cache, heap);
    match a.result
    case Err(e) => Answer(a.cache, heap, Err(e))
    case Ok(bound) => Answer(a.cache, heap, Ok(bound.GetSetter()))
  }

  /** A getValue answer that binds a non-null object: RETURN_NULL never hands out an accessor on null. */
  lemma GetValueReadsThroughNonNull(table: ClassTable, expression: string, target: Value, cache: CacheMap, heap: Heap)
    requires expression != "" && target != Null
    ensures var w := WalkObject(table, expression, target, ReturnNull, cache, heap);
      w.result.Ok? && w.result.value.Some? ==> w.result.value.value.value != Null
  {
    if ClassOf(heap, target).Ok? {
      var s := Normalise(expression);
      ReturnNullBindsNonNull(table, s, 0, NextDot(s, 0), target, Some(ClassOf(heap, target).value), cache, heap);
    }
  }

  // ---- the application -> class cache map ----

  class PropertyResolver {
    var scopes: map<ScopeKey, DefaultClassCache>

    constructor()
      ensures scopes == map[]
    {
      scopes := map[];
    }

    /** The entries of the cache every lookup uses, empty while none is installed. */
    function DefaultEntries(): (r: CacheMap)
      reads this, if OwnClass in scopes then {scopes[OwnClass]} else {}
      ensures OwnClass !in scopes ==> r == map[]
      ensures OwnClass in scopes ==> r == scopes[OwnClass].entries
    {
      if OwnClass in scopes then scopes[OwnClass].entries else map[]
    }

    /** getClassesToGetAndSetters: always the resolver-class entry, created on first use. */
    method GetClassesToGetAndSetters() returns (c: DefaultClassCache)
      modifies this
      ensures OwnClass in scopes && c == scopes[OwnClass]
      ensures old(OwnClass in scopes) ==> scopes == old(scopes)
      ensures old(OwnClass !in scopes) ==> fresh(c) && c.entries == map[] && scopes == old(scopes)[OwnClass := c]
    {
      if OwnClass in scopes {
        return scopes[OwnClass];
      }
      c := new DefaultClassCache();
      scopes := scopes[OwnClass := c];
    }

    /**
     * setClassCache: a null application installs the cache as the one every
     * lookup uses; a null cache throws, as ConcurrentHashMap.put(k, null) does.
     */
    method SetClassCache(application: Option<string>, classCache: DefaultClassCache?) returns (r: Outcome)
      modifies this
      ensures classCache == null ==> r == Fails(NullPointer) && scopes == old(scopes)
      ensures classCache != null ==> r == Done
      ensures classCache != null && application.None? ==> scopes == old(scopes)[OwnClass := classCache]
      ensures classCache != null && application.Some? ==> scopes == old(scopes)[Application(application.value) := classCache]
    {
      if classCache == null {
        return Fails(NullPointer);
      }
      if application.Some? {
        scopes := scopes[Application(application.value) := classCache];
      } else {
        scopes := scopes[OwnClass := classCache];
      }
      r := Done;
    }

    /** destroy: removes the application's cache; ConcurrentHashMap.remove(null) throws. */
    method Destroy(application: Option<ScopeKey>) returns (r: Outcome)
      modifies this
      ensures application.None? ==> r == Fails(NullPointer) && scopes == old(scopes)
      ensures application.Some? ==> r == Done && scopes == old(scopes) - {application.value}
    {
      if application.None? {
        return Fails(NullPointer);
      }
      scopes := scopes - {application.value};
      r := Done;
    }

    /** getValue with the resolver's cache. */
    method GetValueOf(table: ClassTable, expression: Option<string>, target: Value, heap: Heap)
      returns (r: Result<Value>)
      modifies this, if OwnClass in scopes then {scopes[OwnClass]} else {}
      ensures forall k :: k != OwnClass ==> (k in scopes <==> k in old(scopes)) && (k in scopes ==> scopes[k] == old(scopes[k]))
      ensures Answer(DefaultEntries(), heap, r) == GetValue(table, expression, target, old(DefaultEntries()), heap)
    {
      if IsEmpty(expression) || target.Null? {
        return Ok(target);
      }
      var clz := ClassOf(heap, target);
      if clz.Err? {
        return Err(clz.error);
      }
      var cache := GetClassesToGetAndSetters();
      var heap', bound := GetObjectAndGetSetter(cache, table, expression.value, target, ReturnNull, Some(clz.value), heap);
      WalkObjectKeepsHeap(table, expression.value, target, ReturnNull, old(DefaultEntries()), heap);
      if bound.Err? {
        return Err(bound.error);
      }
      if bound.value.None? {
        return Ok(Null);
      }
      r := bound.value.value.GetValue(heap);
    }

    /** setValue with the resolver's cache. */
    method SetValueOf(table: ClassTable, expression: Option<string>, target: Value, v: Value, heap: Heap)
      returns (heap': Heap, r: Result<()>)
      modifies this, if OwnClass in scopes then {scopes[OwnClass]} else {}
      ensures forall k :: k != OwnClass ==> (k in scopes <==> k in old(scopes)) && (k in scopes ==> scopes[k] == old(scopes[k]))
      ensures Answer(DefaultEntries(), heap', r) == SetValue(table, expression, target, v, old(DefaultEntries()), heap)
    {
      heap' := heap;
      if IsEmpty(expression) {
        return heap', Err(EmptyExpression);
      }
      if target.Null? {
        return heap', Err(NullTarget);
      }
      var clz := ClassOf(heap, target);
      if clz.Err? {
        return heap', Err(clz.error);
      }
      var cache := GetClassesToGetAndSetters();
      var bound;
      heap', bound := GetObjectAndGetSetter(cache, table, expression.value, target, CreateNewValue, Some(clz.value), heap);
      heap', r := WriteBound(table, bound, heap', v);
    }

    /** getPropertyClass(expression, clz) with the resolver's cache. */
    method GetPropertyClassFor(table: ClassTable, expression: Option<string>, clz: Option<ClassName>, heap: Heap)
      returns (r: Result<Option<ClassName>>)
      modifies this, if OwnClass in scopes then {scopes[OwnClass]} else {}
      ensures forall k :: k != OwnClass ==> (k in scopes <==> k in old(scopes)) && (k in scopes ==> scopes[k] == old(scopes[k]))
      ensures Answer(DefaultEntries(), heap, r) == GetPropertyClass(table, expression, clz, old(DefaultEntries()), heap)
    {
      if expression.None? {
        return Err(NullPointer);
      }
      var cache := GetClassesToGetAndSetters();
      var s := Normalise(expression.value);
      WalkFromKeepsHeap(table, s, ResolveClass, 0, NextDot(s, 0), Null, clz, old(DefaultEntries()), heap);
      var _, bound := GetObjectAndGetSetter(cache, table, expression.value, Null, ResolveClass, clz, heap);
      if bound.Err? {
        return Err(bound.error);
      }
      if bound.value.None? {
        return Err(Resolution);
      }
      r := Ok(bound.value.value.GetTargetClass());
    }

    /** getPropertyClass(expression, object) with the resolver's cache. */
    method GetPropertyClassOfObject(table: ClassTable, expression: Option<string>, target: Value, heap: Heap)
      returns (r: Result<Option<ClassName>>)
      modifies this, if OwnClass in scopes then {scopes[OwnClass]} else {}
      ensures forall k :: k != OwnClass ==> (k in scopes <==> k in old(scopes)) && (k in scopes ==> scopes[k] == old(scopes[k]))
      ensures Answer(DefaultEntries(), heap, r) == GetPropertyClassOf(table, expression, target, old(DefaultEntries()), heap)
    {
      if target.Null? {
        return Err(NullPointer);
      }
      var clz := ClassOf(heap, target);
      if clz.Err? {
        return Err(clz.error);
      }
      if expression.None? {
        return Err(NullPointer);
      }
      var cache := GetClassesToGetAndSetters();
      WalkObjectKeepsHeap(table, expression.value, target, ResolveClass, old(DefaultEntries()), heap);
      var _, bound := GetObjectAndGetSetter(cache, table, expression.value, target, ResolveClass, Some(clz.value), heap);
      if bound.Err? {
        return Err(bound.error);
      }
      if bound.value.None? {
        return Err(Resolution);
      }
      r := Ok(bound.value.value.GetTargetClass());
    }
  }
}
