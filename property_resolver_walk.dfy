/**
 * getObjectAndGetSetter: the walk along a property expression, segment by
 * segment, that ends in the accessor for the last segment bound to the object
 * it applies to.
 */
module PropertyResolverWalk {
  import opened JavaObjects
  import opened AbstractGetAndSet
  import opened ObjectAndGetSetter
  import opened DefaultClassCache
  import opened PropertyResolverText
  import opened PropertyResolverDiscovery

  /** What a segment that evaluates to null makes the walk do (RETURN_NULL, CREATE_NEW_VALUE, RESOLVE_CLASS). */
  datatype Policy = ReturnNull | CreateNewValue | ResolveClass

  /** The cache and heap the walk leaves behind, and its answer; Ok(None) is the null it returns. */
  datatype Resolved = Resolved(cache: CacheMap, heap: Heap, result: Result<Option<ObjectAndGetSetter>>)

  /** The last segment: its accessor bound to the value reached. */
  function Finish(table: ClassTable, exp: string, value: Value, clz: Option<ClassName>, cache: CacheMap, heap: Heap): (r: Resolved)
    ensures r.heap == heap
    ensures r.cache == Lookup(cache, table, exp, clz).0
    ensures cache.Keys <= r.cache.Keys
    ensures r.result.Ok? <==> Lookup(cache, table, exp, clz).1.Ok?
    ensures r.result.Ok? ==> r.result.value == Some(ObjectAndGetSetter(Lookup(cache, table, exp, clz).1.value, value))
  {
    var (cache', found) := Lookup(cache, table, exp, clz);
    match found
    case Err(e) => Resolved(cache', heap, Err(e))
    case Ok(acc) => Resolved(cache', heap, Ok(Some(ObjectAndGetSetter(acc, value))))
  }

  /** After one segment: stop with an answer, or go on from a new value and class. */
  datatype Next =
    | Stop(heap: Heap, result: Result<Option<ObjectAndGetSetter>>)
    | Advance(heap: Heap, value: Value, clz: Option<ClassName>)

  /** The value reached becomes current; a non-null one also decides the class of the next lookup. */
  function MoveTo(heap: Heap, v: Value, clz: Option<ClassName>): (r: Next)
    ensures r.heap == heap
    ensures r.Advance? ==> r.value == v
    ensures r.Stop? ==> r.result.Err?
  {
    if v.Null? then Advance(heap, Null, clz)
    else
      match ClassOf(heap, v)
      case Err(e) => Stop(heap, Err(e))
      case Ok(c) => Advance(heap, v, Some(c))
  }

  /**
   * One intermediate segment with accessor `acc`: read it (null when the
   * current value is null); on null, create a value, switch to the accessor's
   * target class, or give up, as the policy says.
   */
  function Evaluate(table: ClassTable, policy: Policy, acc: GetAndSet, value: Value, clz: Option<ClassName>, heap: Heap): (r: Next)
    ensures policy != CreateNewValue ==> r.heap == heap
    ensures policy == ReturnNull && r.Advance? ==> r.value != Null
    ensures policy == ReturnNull && r.Stop? && r.result.Ok? ==> r.result.value.None?
  {
    var got := if value.Null? then Ok(Null) else AbstractGetAndSet.GetValue(heap, acc, value);
    if got.Err? then Stop(heap, Err(got.error))
    else if got.value != Null then MoveTo(heap, got.value, clz)
    else OnNull(table, policy, acc, value, clz, heap)
  }

  /** A segment that reads null: create a value, switch to the accessor's target class, or give up. */
  function OnNull(table: ClassTable, policy: Policy, acc: GetAndSet, value: Value, clz: Option<ClassName>, heap: Heap): (r: Next)
    ensures policy != CreateNewValue ==> r.heap == heap
    ensures policy == ReturnNull ==> r == Stop(heap, Ok(None))
    ensures policy == ResolveClass ==> r == Advance(heap, Null, TargetClass(acc))
  {
    match policy
    case CreateNewValue =>
      (match AbstractGetAndSet.NewValue(heap, table, acc, value)
       case Err(e) => Stop(heap, Err(e))
       case Ok((heap', created)) =>
         if created.Null? then Stop(heap', Ok(None)) else MoveTo(heap', created, clz))
    case ResolveClass => Advance(heap, Null, TargetClass(acc))
    case ReturnNull => Stop(heap, Ok(None))
  }

  /** How the lookup of one segment went: an accessor for s[lastIndex..end], a failure, or no segment left to join. */
  datatype SegmentLookup =
    | Located(cache: CacheMap, acc: GetAndSet, end: int)
    | Failed(cache: CacheMap, error: Error)
    | Unsplit(cache: CacheMap)

  /**
   * The segment s[lastIndex..index] is looked up; when that fails it is
   * retried joined with the next segment, as for "name.0" read through
   * get<Name>(int), and when there is no next segment the rest is kept whole.
   */
  function LookupSegment(table: ClassTable, s: string, lastIndex: nat, index: int, clz: Option<ClassName>, cache: CacheMap): (r: SegmentLookup)
    requires lastIndex <= index < |s|
    ensures r.Located? ==> lastIndex <= r.end < |s|
    ensures r.Located? && r.end == index ==> Lookup(cache, table, s[lastIndex..index], clz).1 == Ok(r.acc)
    ensures cache.Keys <= r.cache.Keys
  {
    var (cache1, first) := Lookup(cache, table, s[lastIndex..index], clz);
    if first.Ok? then Located(cache1, first.value, index)
    else
      var joined := NextDot(s, index + 1);
      if joined == -1 then Unsplit(cache1)
      else
        var (cache2, second) := Lookup(cache1, table, s[lastIndex..joined], clz);
        if second.Err? then Failed(cache2, second.error) else Located(cache2, second.value, joined)
  }

  /**
   * The walk from segment start `lastIndex`, whose end is the separating dot
   * at `index` (-1: the rest is the last segment).
   */
  function WalkFrom(table: ClassTable, s: string, policy: Policy, lastIndex: nat, index: int,
                    value: Value, clz: Option<ClassName>, cache: CacheMap, heap: Heap): (r: Resolved)
    requires lastIndex <= |s|
    requires index == -1 || lastIndex <= index < |s|
    ensures clz.None? ==> r == Resolved(cache, heap, Err(NullPointer))
    decreases |s| - lastIndex, 1
  {
    if index == -1 then Finish(table, s[lastIndex..], value, clz, cache, heap)
    else if s[lastIndex..index] == [] then Finish(table, s[index + 1..], value, clz, cache, heap)
    else
      match LookupSegment(table, s, lastIndex, index, clz, cache)
      case Located(cache', acc, end) => ContinueFrom(table, s, policy, lastIndex, end, acc, value, clz, cache', heap)
      case Failed(cache', e) => Resolved(cache', heap, Err(e))
      case Unsplit(cache') => Finish(table, s[lastIndex..], value, clz, cache', heap)
  }

  /** Evaluate the segment ending at `index` and carry on after it. */
  function ContinueFrom(table: ClassTable, s: string, policy: Policy, lastIndex: nat, index: int, acc: GetAndSet,
                        value: Value, clz: Option<ClassName>, cache: CacheMap, heap: Heap): (r: Resolved)
    requires lastIndex <= index < |s|
    ensures policy == ReturnNull && value.Null? ==> r == Resolved(cache, heap, Ok(None))
    ensures policy == ResolveClass && value.Null? ==>
      r == WalkFrom(table, s, policy, index + 1, NextDot(s, index + 1), Null, TargetClass(acc), cache, heap)
    decreases |s| - lastIndex, 0
  {
    match Evaluate(table, policy, acc, value, clz, heap)
    case Stop(heap', result) => Resolved(cache, heap', result)
    case Advance(heap', value', clz') =>
      WalkFrom(table, s, policy, index + 1, NextDot(s, index + 1), value', clz', cache, heap')
  }

  /** getObjectAndGetSetter(expression, object, policy, clz) as a function of the cache and heap. */
  function Walk(table: ClassTable, expression: string, target: Value, policy: Policy, clz: Option<ClassName>,
                cache: CacheMap, heap: Heap): (r: Resolved)
    ensures clz.None? ==> r == Resolved(cache, heap, Err(NullPointer))
    ensures policy != CreateNewValue ==> r.heap == heap
    ensures cache.Keys <= r.cache.Keys
    ensures policy == ReturnNull && target != Null && r.result.Ok? && r.result.value.Some? ==> r.result.value.value.value != Null
  {
    var s := Normalise(expression);
    var r := WalkFrom(table, s, policy, 0, NextDot(s, 0), target, clz, cache, heap);
    WalkFromKeepsClasses(table, s, policy, 0, NextDot(s, 0), target, clz, cache, heap);
    if policy == CreateNewValue then r
    else
      WalkFromKeepsHeap(table, s, policy, 0, NextDot(s, 0), target, clz, cache, heap);
      if policy == ReturnNull && target != Null then
        ReturnNullBindsNonNull(table, s, 0, NextDot(s, 0), target, clz, cache, heap);
        r
      else r
  }

  /** Only CREATE_NEW_VALUE writes to the heap: reading and class resolution leave every object alone. */
  lemma {:induction false} WalkFromKeepsHeap(table: ClassTable, s: string, policy: Policy, lastIndex: nat, index: int,
                                             value: Value, clz: Option<ClassName>, cache: CacheMap, heap: Heap)
    requires lastIndex <= |s|
    requires index == -1 || lastIndex <= index < |s|
    requires policy != CreateNewValue
    ensures WalkFrom(table, s, policy, lastIndex, index, value, clz, cache, heap).heap == heap
    decreases |s| - lastIndex, 1
  {
    if index != -1 && s[lastIndex..index] != [] {
      match LookupSegment(table, s, lastIndex, index, clz, cache)
      case Located(cache', acc, end) => ContinueKeepsHeap(table, s, policy, lastIndex, end, acc, value, clz, cache', heap);
      case Failed(_, _) =>
      case Unsplit(_) =>
    }
  }

  lemma {:induction false} ContinueKeepsHeap(table: ClassTable, s: string, policy: Policy, lastIndex: nat, index: int,
                                             acc: GetAndSet, value: Value, clz: Option<ClassName>, cache: CacheMap, heap: Heap)
    requires lastIndex <= index < |s|
    requires policy != CreateNewValue
    ensures ContinueFrom(table, s, policy, lastIndex, index, acc, value, clz, cache, heap).heap == heap
    decreases |s| - lastIndex, 0
  {
    match Evaluate(table, policy, acc, value, clz, heap)
    case Stop(_, _) =>
    case Advance(heap', value', clz') =>
      WalkFromKeepsHeap(table, s, policy, index + 1, NextDot(s, index + 1), value', clz', cache, heap');
  }

  /** Every class the cache knew is still known after a walk: entries are added, never removed. */
  lemma {:induction false} WalkFromKeepsClasses(table: ClassTable, s: string, policy: Policy, lastIndex: nat, index: int,
                                                value: Value, clz: Option<ClassName>, cache: CacheMap, heap: Heap)
    requires lastIndex <= |s|
    requires index == -1 || lastIndex <= index < |s|
    ensures cache.Keys <= WalkFrom(table, s, policy, lastIndex, index, value, clz, cache, heap).cache.Keys
    decreases |s| - lastIndex, 1
  {
    if index != -1 && s[lastIndex..index] != [] {
      match LookupSegment(table, s, lastIndex, index, clz, cache)
      case Located(cache', acc, end) =>
        assert WalkFrom(table, s, policy, lastIndex, index, value, clz, cache, heap) ==
          ContinueFrom(table, s, policy, lastIndex, end, acc, value, clz, cache', heap);
        ContinueKeepsClasses(table, s, policy, lastIndex, end, acc, value, clz, cache', heap);
      case Failed(_, _) =>
      case Unsplit(_) =>
    }
  }

  lemma {:induction false} ContinueKeepsClasses(table: ClassTable, s: string, policy: Policy, lastIndex: nat, index: int,
                                                acc: GetAndSet, value: Value, clz: Option<ClassName>, cache: CacheMap, heap: Heap)
    requires lastIndex <= index < |s|
    ensures cache.Keys <= ContinueFrom(table, s, policy, lastIndex, index, acc, value, clz, cache, heap).cache.Keys
    decreases |s| - lastIndex, 0
  {
    match Evaluate(table, policy, acc, value, clz, heap)
    case Stop(_, _) =>
    case Advance(heap', value', clz') =>
      WalkFromKeepsClasses(table, s, policy, index + 1, NextDot(s, index + 1), value', clz', cache, heap');
  }

  /** Under RETURN_NULL an answer always binds a non-null object: a null on the way makes the walk return null. */
  lemma {:induction false} ReturnNullBindsNonNull(table: ClassTable, s: string, lastIndex: nat, index: int,
                                                  value: Value, clz: Option<ClassName>, cache: CacheMap, heap: Heap)
    requires lastIndex <= |s|
    requires index == -1 || lastIndex <= index < |s|
    requires value != Null
    ensures var r := WalkFrom(table, s, ReturnNull, lastIndex, index, value, clz, cache, heap);
      r.result.Ok? && r.result.value.Some? ==> r.result.value.value.value != Null
    decreases |s| - lastIndex, 1
  {
    if index != -1 && s[lastIndex..index] != [] {
      match LookupSegment(table, s, lastIndex, index, clz, cache)
      case Located(cache', acc, end) => ContinueBindsNonNull(table, s, lastIndex, end, acc, value, clz, cache', heap);
      case Failed(_, _) =>
      case Unsplit(_) =>
    }
  }

  lemma {:induction false} ContinueBindsNonNull(table: ClassTable, s: string, lastIndex: nat, index: int,
                                                acc: GetAndSet, value: Value, clz: Option<ClassName>, cache: CacheMap, heap: Heap)
    requires lastIndex <= index < |s|
    ensures var r := ContinueFrom(table, s, ReturnNull, lastIndex, index, acc, value, clz, cache, heap);
      r.result.Ok? && r.result.value.Some? ==> r.result.value.value.value != Null
    decreases |s| - lastIndex, 0
  {
    match Evaluate(table, ReturnNull, acc, value, clz, heap)
    case Stop(_, _) =>
    case Advance(heap', value', clz') =>
      ReturnNullBindsNonNull(table, s, index + 1, NextDot(s, index + 1), value', clz', cache, heap');
  }

  /** The final lookup through the cache object. */
  method FinishWith(cacheObj: DefaultClassCache, table: ClassTable, exp: string, value: Value, clz: Option<ClassName>, heap: Heap)
    returns (result: Result<Option<ObjectAndGetSetter>>)
    modifies cacheObj
    ensures Resolved(cacheObj.entries, heap, result) == Finish(table, exp, value, clz, old(cacheObj.entries), heap)
  {
    var acc := GetGetAndSetter(cacheObj, table, exp, clz);
    if acc.Err? {
      return Err(acc.error);
    }
    result := Ok(Some(ObjectAndGetSetter(acc.value, value)));
  }

  // One unfolding of the walk for each way a loop iteration can go.

  lemma WalkFromEmptySegment(table: ClassTable, s: string, policy: Policy, lastIndex: nat, index: int,
                             value: Value, clz: Option<ClassName>, cache: CacheMap, heap: Heap)
    requires lastIndex <= index < |s| && s[lastIndex..index] == []
    ensures WalkFrom(table, s, policy, lastIndex, index, value, clz, cache, heap) ==
      Finish(table, s[index + 1..], value, clz, cache, heap)
  {
  }

  lemma WalkFromSegment(table: ClassTable, s: string, policy: Policy, lastIndex: nat, index: int,
                        value: Value, clz: Option<ClassName>, cache: CacheMap, heap: Heap)
    requires lastIndex <= index < |s| && s[lastIndex..index] != []
    ensures var found := LookupSegment(table, s, lastIndex, index, clz, cache);
      found.Located? ==> (WalkFrom(table, s, policy, lastIndex, index, value, clz, cache, heap) ==
        ContinueFrom(table, s, policy, lastIndex, found.end, found.acc, value, clz, found.cache, heap))
    ensures var found := LookupSegment(table, s, lastIndex, index, clz, cache);
      found.Failed? ==> (WalkFrom(table, s, policy, lastIndex, index, value, clz, cache, heap) ==
        Resolved(found.cache, heap, Err(found.error)))
    ensures var found := LookupSegment(table, s, lastIndex, index, clz, cache);
      found.Unsplit? ==> (WalkFrom(table, s, policy, lastIndex, index, value, clz, cache, heap) ==
        Finish(table, s[lastIndex..], value, clz, found.cache, heap))
  {
  }

  lemma ContinueFromStep(table: ClassTable, s: string, policy: Policy, lastIndex: nat, index: int, acc: GetAndSet,
                         value: Value, clz: Option<ClassName>, cache: CacheMap, heap: Heap)
    requires lastIndex <= index < |s|
    ensures var next := Evaluate(table, policy, acc, value, clz, heap);
      next.Stop? ==> (ContinueFrom(table, s, policy, lastIndex, index, acc, value, clz, cache, heap) ==
        Resolved(cache, next.heap, next.result))
    ensures var next := Evaluate(table, policy, acc, value, clz, heap);
      next.Advance? ==> (ContinueFrom(table, s, policy, lastIndex, index, acc, value, clz, cache, heap) ==
        WalkFrom(table, s, policy, index + 1, NextDot(s, index + 1), next.value, next.clz, cache, next.heap))
  {
  }

  /** The lookup of one segment, with the retry on the joined segment when it throws. */
  method LookupSegmentWith(cacheObj: DefaultClassCache, table: ClassTable, s: string, lastIndex: nat, index: int,
                           clz: Option<ClassName>) returns (r: SegmentLookup)
    requires lastIndex <= index < |s|
    modifies cacheObj
    ensures r == LookupSegment(table, s, lastIndex, index, clz, old(cacheObj.entries))
    ensures cacheObj.entries == r.cache
  {
    var acc := GetGetAndSetter(cacheObj, table, s[lastIndex..index], clz);
    if acc.Ok? {
      return Located(cacheObj.entries, acc.value, index);
    }
    var joined := GetNextDotIndex(s, index + 1);
    LookupSegmentRetry(table, s, lastIndex, index, clz, old(cacheObj.entries));
    if joined == -1 {
      return Unsplit(cacheObj.entries);
    }
    acc := GetGetAndSetter(cacheObj, table, s[lastIndex..joined], clz);
    if acc.Err? {
      return Failed(cacheObj.entries, acc.error);
    }
    r := Located(cacheObj.entries, acc.value, joined);
  }

  /** When the segment's own lookup fails, the lookup goes on with the joined segment, if there is one. */
  lemma LookupSegmentRetry(table: ClassTable, s: string, lastIndex: nat, index: int, clz: Option<ClassName>, cache: CacheMap)
    requires lastIndex <= index < |s|
    requires Lookup(cache, table, s[lastIndex..index], clz).1.Err?
    ensures var cache1 := Lookup(cache, table, s[lastIndex..index], clz).0;
      var joined := NextDot(s, index + 1);
      LookupSegment(table, s, lastIndex, index, clz, cache) ==
        if joined == -1 then Unsplit(cache1)
        else
          var (cache2, second) := Lookup(cache1, table, s[lastIndex..joined], clz);
          if second.Err? then Failed(cache2, second.error) else Located(cache2, second.value, joined)
  {
  }

  /** The evaluation of one intermediate segment, statement by statement. */
  method EvaluateWith(table: ClassTable, policy: Policy, acc: GetAndSet, value: Value, clz: Option<ClassName>, heap: Heap)
    returns (next: Next)
    ensures next == Evaluate(table, policy, acc, value, clz, heap)
  {
    var newValue := Null;
    if value != Null {
      var got := AbstractGetAndSet.GetValue(heap, acc, value);
      if got.Err? {
        return Stop(heap, Err(got.error));
      }
      newValue := got.value;
    }
    if newValue == Null {
      next := OnNullWith(table, policy, acc, value, clz, heap);
    } else {
      next := ClassUpdate(heap, newValue, clz);
    }
  }

  /** The branch on the policy for a segment that read null. */
  method OnNullWith(table: ClassTable, policy: Policy, acc: GetAndSet, value: Value, clz: Option<ClassName>, heap: Heap)
    returns (next: Next)
    ensures next == OnNull(table, policy, acc, value, clz, heap)
  {
    if policy == CreateNewValue {
      var created := AbstractGetAndSet.NewValue(heap, table, acc, value);
      if created.Err? {
        return Stop(heap, Err(created.error));
      }
      if created.value.1 == Null {
        return Stop(created.value.0, Ok(None));
      }
      next := ClassUpdate(created.value.0, created.value.1, clz);
    } else if policy == ResolveClass {
      next := Advance(heap, Null, TargetClass(acc));
    } else {
      next := Stop(heap, Ok(None));
    }
  }

  /** `value = newValue`, and the class of a non-null value becomes the class of the next lookup. */
  method ClassUpdate(heap: Heap, newValue: Value, clz: Option<ClassName>) returns (next: Next)
    ensures next == MoveTo(heap, newValue, clz)
  {
    next := Advance(heap, newValue, clz);
    if newValue != Null {
      var c := ClassOf(heap, newValue);
      if c.Err? {
        return Stop(heap, Err(c.error));
      }
      next := Advance(heap, newValue, Some(c.value));
    }
  }

  /** getObjectAndGetSetter: normalise, strip leading dots, then walk the segments with the cache object. */
  method GetObjectAndGetSetter(cacheObj: DefaultClassCache, table: ClassTable, expression: string, target: Value,
                               policy: Policy, clz0: Option<ClassName>, heap0: Heap)
    returns (heap: Heap, result: Result<Option<ObjectAndGetSetter>>)
    modifies cacheObj
    ensures Resolved(cacheObj.entries, heap, result) == Walk(table, expression, target, policy, clz0, old(cacheObj.entries), heap0)
  {
    var separated := ReplaceAllLoop(Some(expression), Some("["), Some(".["));
    var s := StripLeadingDots(separated.value);
    assert s == Normalise(expression);
    heap, result := WalkSegments(cacheObj, table, s, target, policy, clz0, heap0);
  }

  /**
   * One pass of the segment loop from the segment s[lastIndex..index]: it
   * either ends the walk (an empty segment or an unsplittable rest goes to the
   * final lookup; a failure or a null is returned) or moves past the segment.
   */
  method WalkSegment(cacheObj: DefaultClassCache, table: ClassTable, s: string, policy: Policy,
                     lastIndex: nat, index: int, value: Value, clz: Option<ClassName>, heap: Heap)
    returns (stop: bool, result: Result<Option<ObjectAndGetSetter>>,
             lastIndex': nat, index': int, value': Value, clz': Option<ClassName>, heap': Heap)
    requires lastIndex <= index < |s|
    modifies cacheObj
    ensures stop ==> (Resolved(cacheObj.entries, heap', result) ==
      WalkFrom(table, s, policy, lastIndex, index, value, clz, old(cacheObj.entries), heap))
    ensures !stop ==> lastIndex < lastIndex' <= |s| && (index' == -1 || lastIndex' <= index' < |s|)
    ensures !stop ==> (WalkFrom(table, s, policy, lastIndex', index', value', clz', cacheObj.entries, heap') ==
      WalkFrom(table, s, policy, lastIndex, index, value, clz, old(cacheObj.entries), heap))
  {
    lastIndex', index', value', clz', heap' := lastIndex, index, value, clz, heap;
    if |s[lastIndex..index]| == 0 {
      WalkFromEmptySegment(table, s, policy, lastIndex, index, value, clz, cacheObj.entries, heap);
      result := FinishWith(cacheObj, table, s[index + 1..], value, clz, heap);
      return true, result, lastIndex', index', value', clz', heap';
    }
    WalkFromSegment(table, s, policy, lastIndex, index, value, clz, cacheObj.entries, heap);
    var found := LookupSegmentWith(cacheObj, table, s, lastIndex, index, clz);
    if found.Failed? {
      return true, Err(found.error), lastIndex', index', value', clz', heap';
    }
    if found.Unsplit? {
      result := FinishWith(cacheObj, table, s[lastIndex..], value, clz, heap);
      return true, result, lastIndex', index', value', clz', heap';
    }
    stop, result, lastIndex', index', value', clz', heap' :=
      StepPastSegment(table, s, policy, lastIndex, found.end, found.acc, value, clz, cacheObj.entries, heap);
  }

  /** The rest of a loop pass once the segment's accessor is known: evaluate it and move to the next segment. */
  method StepPastSegment(table: ClassTable, s: string, policy: Policy, lastIndex: nat, end: int, acc: GetAndSet,
                         value: Value, clz: Option<ClassName>, ghost cache: CacheMap, heap: Heap)
    returns (stop: bool, result: Result<Option<ObjectAndGetSetter>>,
             lastIndex': nat, index': int, value': Value, clz': Option<ClassName>, heap': Heap)
    requires lastIndex <= end < |s|
    ensures stop ==> (Resolved(cache, heap', result) ==
      ContinueFrom(table, s, policy, lastIndex, end, acc, value, clz, cache, heap))
    ensures !stop ==> lastIndex < lastIndex' <= |s| && (index' == -1 || lastIndex' <= index' < |s|)
    ensures !stop ==> (WalkFrom(table, s, policy, lastIndex', index', value', clz', cache, heap') ==
      ContinueFrom(table, s, policy, lastIndex, end, acc, value, clz, cache, heap))
  {
    lastIndex', index', value', clz', heap' := lastIndex, end, value, clz, heap;
    ContinueFromStep(table, s, policy, lastIndex, end, acc, value, clz, cache, heap);
    var next := EvaluateWith(table, policy, acc, value, clz, heap);
    if next.Stop? {
      return true, next.result, lastIndex', index', value', clz', next.heap;
    }
    heap', value', clz' := next.heap, next.value, next.clz;
    lastIndex' := end + 1;
    index' := GetNextDotIndex(s, lastIndex');
    stop := false;
    result := Ok(None);
  }

  /** The segment loop of getObjectAndGetSetter over the normalised expression. */
  method WalkSegments(cacheObj: DefaultClassCache, table: ClassTable, s: string, target: Value,
                      policy: Policy, clz0: Option<ClassName>, heap0: Heap)
    returns (heap: Heap, result: Result<Option<ObjectAndGetSetter>>)
    modifies cacheObj
    ensures Resolved(cacheObj.entries, heap, result) == WalkFrom(table, s, policy, 0, NextDot(s, 0), target, clz0, old(cacheObj.entries), heap0)
  {
    var index := GetNextDotIndex(s, 0);
    var lastIndex: nat := 0;
    var value := target;
    var clz := clz0;
    heap := heap0;
    ghost var goal := WalkFrom(table, s, policy, 0, NextDot(s, 0), target, clz0, old(cacheObj.entries), heap0);
    while index != -1
      invariant lastIndex <= |s|
      invariant index == -1 || lastIndex <= index < |s|
      invariant WalkFrom(table, s, policy, lastIndex, index, value, clz, cacheObj.entries, heap) == goal
      decreases |s| - lastIndex
    {
      var stop;
      stop, result, lastIndex, index, value, clz, heap :=
        WalkSegment(cacheObj, table, s, policy, lastIndex, index, value, clz, heap);
      if stop {
        return;
      }
    }
    result := FinishWith(cacheObj, table, s[lastIndex..], value, clz, heap);
  }
}
