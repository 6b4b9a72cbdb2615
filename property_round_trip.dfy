/**
 * The resolver's set-then-get round trip on bean properties: a value written
 * along "name" or "person.name" is read back along the same expression,
 * also when the intermediate object was null and CREATE_NEW_VALUE constructed
 * it; a null intermediate whose type cannot be constructed makes the write
 * fail instead.
 */
module PropertyRoundTrip {
  import opened JavaObjects
  import AbstractGetAndSet
  import ObjectAndGetSetter
  import opened DefaultClassCache
  import opened PropertyResolverText
  import opened PropertyResolverDiscovery
  import opened PropertyResolverWalk
  import opened PropertyResolver
  import MethodGetAndSet
  import ModelWorld
  import PropertyModel

  /** One step of an expression: not empty, no dot and no bracket. */
  predicate Segment(e: string)
  {
    |e| > 0 && forall i :: 0 <= i < |e| ==> e[i] != '.' && e[i] != '[' && e[i] != ']'
  }

  /**
   * On class `c` the segment `e` is a bean property: a getter `g` reading the
   * field `f` and a setter `s` writing it, as getter and setter discovery find them.
   */
  predicate BeanProperty(table: ClassTable, c: ClassName, e: string, g: Method, s: Method, f: string)
  {
    !StartsWith(e, "[") && !EndsWith(e, "()") &&
    FindGetter(table, c, e) == Ok(Some(g)) && MethodGetAndSet.FindSetterSpec(table, g, c) == Ok(Some(s)) &&
    MethodGetAndSet.BeanPair(g, s, f)
  }

  /** The accessor discovery builds for such a property. */
  function PairOf(table: ClassTable, c: ClassName, e: string, g: Method, s: Method): (r: AbstractGetAndSet.GetAndSet)
    ensures r.MethodGetAndSet? && r.getMethod == g && r.setMethod == Some(s)
  {
    AbstractGetAndSet.MethodGetAndSet(g, Some(s), FindFieldOf(table, c, e))
  }

  /** The cache has nothing for `e` on `c`, or the accessor discovery would build. */
  predicate Knows(cache: CacheMap, table: ClassTable, c: ClassName, e: string, g: Method, s: Method)
  {
    c in cache && e in cache[c] ==> cache[c][e] == PairOf(table, c, e, g, s)
  }

  // ---- the text of the expressions ----

  /** A string without '[' never matches "[". */
  lemma {:induction false} NoBracketFound(s: string, pos: nat)
    requires forall i :: 0 <= i < |s| ==> s[i] != '['
    ensures IndexOf(s, "[", pos) == -1
    decreases |s| - pos
  {
    if pos + 1 <= |s| {
      assert s[pos..pos + 1][0] == s[pos];
      NoBracketFound(s, pos + 1);
    }
  }

  /** Text without '[' that does not start with '.' is its own normal form. */
  lemma NormalWithoutBrackets(s: string)
    requires forall i :: 0 <= i < |s| ==> s[i] != '['
    requires |s| == 0 || s[0] != '.'
    ensures Normalise(s) == s
  {
    NoBracketFound(s, 0);
    NoMoreReplacements(s, "[", ".[", 0);
    assert s[0..] == s;
  }

  /** A segment is its own normal form, has no separating dot, and is not a bracket key. */
  lemma SegmentText(e: string)
    requires Segment(e)
    ensures Normalise(e) == e && NextDot(e, 0) == -1 && !StartsWith(e, "[")
  {
    NormalWithoutBrackets(e);
    assert e[..1][0] == e[0];
  }

  /** "e1.e2" is its own normal form, split at the one dot between the segments. */
  lemma PathText(e1: string, e2: string)
    requires Segment(e1) && Segment(e2)
    ensures var s := e1 + "." + e2;
      Normalise(s) == s && NextDot(s, 0) == |e1| && NextDot(s, |e1| + 1) == -1 &&
      s[0..|e1|] == e1 && s[|e1| + 1..] == e2 && s[0] != '.'
  {
    var s := e1 + "." + e2;
    forall i | 0 <= i < |s| ensures s[i] != '[' && (i != |e1| ==> s[i] != '.')
    {
      if i < |e1| {
        assert s[i] == e1[i];
      } else if i > |e1| {
        assert s[i] == e2[i - |e1| - 1];
      }
    }
    assert s[0] == e1[0];
    NormalWithoutBrackets(s);
    InsideBracketIffUnclosed(s, 0, |e1|);
    assert DotOutsideBrackets(s, 0, |e1|);
    assert s[0..|e1|] == e1;
    assert s[|e1| + 1..] == e2;
  }

  // ---- the cache ----

  /** A lookup of a plain segment keeps the other classes and, for its class, stores at most its own key. */
  lemma LookupShape(cache: CacheMap, table: ClassTable, x: string, c: ClassName)
    requires !StartsWith(x, "[")
    ensures var (cache', r) := Lookup(cache, table, x, Some(c));
      var segments := if c in cache then cache[c] else map[];
      c in cache' && (cache'[c] == segments || (r.Ok? && cache'[c] == segments[x := r.value]))
  {
  }

  /** A bean property resolves to its getter/setter pair, which the cache then holds. */
  lemma LookupBean(cache: CacheMap, table: ClassTable, c: ClassName, e: string, g: Method, s: Method, f: string)
    requires BeanProperty(table, c, e, g, s, f) && Knows(cache, table, c, e, g, s)
    ensures var (cache', r) := Lookup(cache, table, e, Some(c));
      r == Ok(PairOf(table, c, e, g, s)) && c in cache' && e in cache'[c] && cache'[c][e] == PairOf(table, c, e, g, s)
  {
    if !(c in cache && e in cache[c]) {
      GetterYieldsPair(table, c, e, g);
      MissStoresDiscovery(cache, table, e, c);
    }
  }

  /** An accessor the cache holds is still held after the lookup of any plain segment. */
  lemma LookupKeepsEntry(cache: CacheMap, table: ClassTable, x: string, clz: Option<ClassName>,
                         c: ClassName, e: string, acc: AbstractGetAndSet.GetAndSet)
    requires !StartsWith(x, "[")
    requires c in cache && e in cache[c] && cache[c][e] == acc
    ensures var cache' := Lookup(cache, table, x, clz).0;
      c in cache' && e in cache'[c] && cache'[c][e] == acc
  {
    if clz.Some? && clz.value == c {
      LookupShape(cache, table, x, c);
      if x == e {
        assert Lookup(cache, table, x, clz).0 == cache;
      }
    }
  }

  /** What the cache knows of one bean property stays true across the lookup of any plain segment. */
  lemma LookupKeepsKnows(cache: CacheMap, table: ClassTable, x: string, clz: Option<ClassName>,
                         c: ClassName, e: string, g: Method, s: Method, f: string)
    requires !StartsWith(x, "[")
    requires BeanProperty(table, c, e, g, s, f) && Knows(cache, table, c, e, g, s)
    ensures Knows(Lookup(cache, table, x, clz).0, table, c, e, g, s)
  {
    if clz.Some? && clz.value == c {
      LookupShape(cache, table, x, c);
      if x == e {
        LookupBean(cache, table, c, e, g, s, f);
      }
    }
  }

  // ---- the walk ----

  /** A one-segment expression goes straight to the final lookup. */
  lemma WalkOneSegment(table: ClassTable, e: string, target: Value, policy: Policy, clz: Option<ClassName>,
                       cache: CacheMap, heap: Heap)
    requires Segment(e)
    ensures Walk(table, e, target, policy, clz, cache, heap) == Finish(table, e, target, clz, cache, heap)
  {
    SegmentText(e);
    assert e[0..] == e;
  }

  /** A segment whose own lookup succeeds is located where it ends. */
  lemma LookupSegmentFound(table: ClassTable, s: string, lastIndex: nat, index: int, clz: Option<ClassName>,
                           cache: CacheMap, acc: AbstractGetAndSet.GetAndSet)
    requires lastIndex <= index < |s|
    requires Lookup(cache, table, s[lastIndex..index], clz).1 == Ok(acc)
    ensures LookupSegment(table, s, lastIndex, index, clz, cache) ==
      Located(Lookup(cache, table, s[lastIndex..index], clz).0, acc, index)
  {
  }

  /**
   * "e1.e2": the accessor of e1 is evaluated on the target; the walk stops
   * there, or the final lookup of e2 runs on what e1 gave.
   */
  lemma WalkTwoSegments(table: ClassTable, e1: string, e2: string, target: Value, policy: Policy, c: ClassName,
                        cache: CacheMap, heap: Heap, acc: AbstractGetAndSet.GetAndSet)
    requires Segment(e1) && Segment(e2)
    requires Lookup(cache, table, e1, Some(c)).1 == Ok(acc)
    ensures var cache1 := Lookup(cache, table, e1, Some(c)).0;
      var next := Evaluate(table, policy, acc, target, Some(c), heap);
      var w := Walk(table, e1 + "." + e2, target, policy, Some(c), cache, heap);
      (next.Stop? ==> w == Resolved(cache1, next.heap, next.result)) &&
      (next.Advance? ==> w == Finish(table, e2, next.value, next.clz, cache1, next.heap))
  {
    var s := e1 + "." + e2;
    PathText(e1, e2);
    var cache1 := Lookup(cache, table, e1, Some(c)).0;
    LookupSegmentFound(table, s, 0, |e1|, Some(c), cache, acc);
    WalkFromSegment(table, s, policy, 0, |e1|, target, Some(c), cache, heap);
    ContinueFromStep(table, s, policy, 0, |e1|, acc, target, Some(c), cache1, heap);
  }

  /** On a non-null object the walk starts from the object's class. */
  lemma WalkObjectOnClass(table: ClassTable, e: string, target: Value, policy: Policy, cache: CacheMap, heap: Heap)
    requires target != Null && ClassOf(heap, target).Ok?
    ensures WalkObject(table, e, target, policy, cache, heap) ==
      Walk(table, e, target, policy, Some(ClassOf(heap, target).value), cache, heap)
  {
  }

  /** setValue on a non-null object: the CREATE_NEW_VALUE walk, then the write through what it bound. */
  lemma SetValueIsWalkThenWrite(table: ClassTable, e: string, target: Value, v: Value, cache: CacheMap, heap: Heap)
    requires e != "" && target != Null
    ensures var w := WalkObject(table, e, target, CreateNewValue, cache, heap);
      var (heap', written) := WriteResolved(table, w.result, w.heap, v);
      SetValue(table, Some(e), target, v, cache, heap) == Answer(w.cache, heap', written)
  {
  }

  /** getValue on a non-null object: the RETURN_NULL walk, then the read through what it bound. */
  lemma GetValueIsWalkThenRead(table: ClassTable, e: string, target: Value, cache: CacheMap, heap: Heap,
                               bound: ObjectAndGetSetter.ObjectAndGetSetter)
    requires e != "" && target != Null
    requires WalkObject(table, e, target, ReturnNull, cache, heap).result == Ok(Some(bound))
    ensures GetValue(table, Some(e), target, cache, heap) ==
      Answer(WalkObject(table, e, target, ReturnNull, cache, heap).cache, heap, bound.GetValue(heap))
  {
  }

  // ---- one segment ----

  /**
   * The last accessor of a walk that found a bean property writes through the
   * setter: only the bean's field changes, and the getter reads the value back.
   */
  lemma WriteThroughBean(table: ClassTable, heap: Heap, target: Value, v: Value, g: Method, s: Method, f: string,
                         field: Option<FieldDecl>)
    returns (heap1: Heap)
    requires MethodGetAndSet.BeanPair(g, s, f)
    requires target.Ref? && target.addr < |heap| && heap[target.addr].Bean?
    ensures heap1 == heap[target.addr := Bean(heap[target.addr].cls, heap[target.addr].fields[f := v])]
    ensures var bound := ObjectAndGetSetter.ObjectAndGetSetter(AbstractGetAndSet.MethodGetAndSet(g, Some(s), field), target);
      WriteResolved(table, Ok(Some(bound)), heap, v) == (heap1, Ok(())) && bound.GetValue(heap1) == Ok(v)
  {
    MethodGetAndSet.SetterThenGetter(heap, g, s, f, field, target, v);
    heap1 := MethodGetAndSet.SetValue(heap, Some(s), field, target, v).value;
  }

  /** setValue of a bean property: the walk ends at the target, and the setter writes the field. */
  lemma SetOneSegment(table: ClassTable, e: string, target: Value, v: Value, cache: CacheMap, heap: Heap,
                      g: Method, s: Method, f: string)
    returns (heap1: Heap)
    requires Segment(e)
    requires target.Ref? && target.addr < |heap| && heap[target.addr].Bean?
    requires BeanProperty(table, heap[target.addr].cls, e, g, s, f)
    requires Knows(cache, table, heap[target.addr].cls, e, g, s)
    ensures heap1 == heap[target.addr := Bean(heap[target.addr].cls, heap[target.addr].fields[f := v])]
    ensures SetValue(table, Some(e), target, v, cache, heap) ==
      Answer(Lookup(cache, table, e, Some(heap[target.addr].cls)).0, heap1, Ok(()))
  {
    var c := heap[target.addr].cls;
    var pair := PairOf(table, c, e, g, s);
    var bound := ObjectAndGetSetter.ObjectAndGetSetter(pair, target);
    LookupBean(cache, table, c, e, g, s, f);
    WalkObjectOnClass(table, e, target, CreateNewValue, cache, heap);
    WalkOneSegment(table, e, target, CreateNewValue, Some(c), cache, heap);
    var w := WalkObject(table, e, target, CreateNewValue, cache, heap);
    assert w == Resolved(Lookup(cache, table, e, Some(c)).0, heap, Ok(Some(bound)));
    heap1 := WriteThroughBean(table, heap, target, v, g, s, f, pair.field);
    SetValueIsWalkThenWrite(table, e, target, v, cache, heap);
  }

  /** getValue of a bean property the cache holds: the getter's answer on the target. */
  lemma GetOneSegment(table: ClassTable, e: string, target: Value, cache: CacheMap, heap: Heap, g: Method, s: Method)
    requires Segment(e)
    requires target.Ref? && target.addr < |heap| && heap[target.addr].Bean?
    requires var c := heap[target.addr].cls;
      c in cache && e in cache[c] && cache[c][e] == PairOf(table, c, e, g, s)
    ensures GetValue(table, Some(e), target, cache, heap).result == MethodGetAndSet.GetValue(heap, g, target)
  {
    var c := heap[target.addr].cls;
    var bound := ObjectAndGetSetter.ObjectAndGetSetter(PairOf(table, c, e, g, s), target);
    WalkObjectOnClass(table, e, target, ReturnNull, cache, heap);
    WalkOneSegment(table, e, target, ReturnNull, Some(c), cache, heap);
    assert WalkObject(table, e, target, ReturnNull, cache, heap) == Resolved(cache, heap, Ok(Some(bound)));
    GetValueIsWalkThenRead(table, e, target, cache, heap, bound);
  }

  /**
   * setValue then getValue of a bean property on a bean: the write succeeds,
   * the same value is read back through the cache the write left, and the
   * bean keeps its class.
   */
  lemma SetThenGetProperty(table: ClassTable, e: string, target: Value, v: Value, cache: CacheMap, heap: Heap,
                           g: Method, s: Method, f: string)
    requires Segment(e)
    requires target.Ref? && target.addr < |heap| && heap[target.addr].Bean?
    requires BeanProperty(table, heap[target.addr].cls, e, g, s, f)
    requires Knows(cache, table, heap[target.addr].cls, e, g, s)
    ensures var w := SetValue(table, Some(e), target, v, cache, heap);
      w.result == Ok(()) && ClassOf(w.heap, target) == ClassOf(heap, target) &&
      GetValue(table, Some(e), target, w.cache, w.heap).result == Ok(v)
  {
    var c := heap[target.addr].cls;
    LookupBean(cache, table, c, e, g, s, f);
    var heap1 := SetOneSegment(table, e, target, v, cache, heap, g, s, f);
    GetOneSegment(table, e, target, Lookup(cache, table, e, Some(c)).0, heap1, g, s);
    MethodGetAndSet.SetterThenGetter(heap, g, s, f, None, target, v);
  }

  // ---- two segments ----

  /**
   * What the bean at `target` holds in the field `f` read by the first
   * segment's getter `g`: a bean of class `a` at another address, or null
   * with `a` the getter's type, a plain class that can be instantiated.
   */
  predicate Intermediate(table: ClassTable, heap: Heap, target: Value, f: string, g: Method, a: ClassName)
    requires target.Ref? && target.addr < |heap| && heap[target.addr].Bean?
  {
    var fs := heap[target.addr].fields;
    var held := if f in fs then fs[f] else Null;
    (held.Ref? && held.addr < |heap| && held.addr != target.addr && heap[held.addr].Bean? && heap[held.addr].cls == a) ||
    (held.Null? && a == g.ret && ShapeOf(table, a).constructible && ShapeOf(table, a).kind == PlainKind)
  }

  /** A first segment that reads a bean moves the walk to that bean and its class. */
  lemma EvaluateExisting(table: ClassTable, policy: Policy, heap: Heap, target: Value, c: ClassName, g: Method, s: Method,
                         f: string, field: Option<FieldDecl>, n: nat)
    requires MethodGetAndSet.BeanPair(g, s, f)
    requires target.Ref? && target.addr < |heap| && heap[target.addr].Bean?
    requires f in heap[target.addr].fields && heap[target.addr].fields[f] == Ref(n) && n < |heap|
    ensures Evaluate(table, policy, AbstractGetAndSet.MethodGetAndSet(g, Some(s), field), target, Some(c), heap) ==
      Advance(heap, Ref(n), Some(heap[n].cls))
  {
    assert AbstractGetAndSet.GetValue(heap, AbstractGetAndSet.MethodGetAndSet(g, Some(s), field), target) == Ok(Ref(n));
  }

  /**
   * A first segment that reads null under CREATE_NEW_VALUE: a new bean of the
   * getter's type is appended, stored through the setter, and the walk moves to it.
   */
  lemma EvaluateCreated(table: ClassTable, heap: Heap, target: Value, c: ClassName, g: Method, s: Method,
                        f: string, field: Option<FieldDecl>)
    returns (hm: Heap)
    requires MethodGetAndSet.BeanPair(g, s, f)
    requires target.Ref? && target.addr < |heap| && heap[target.addr].Bean?
    requires f !in heap[target.addr].fields || heap[target.addr].fields[f] == Null
    requires ShapeOf(table, g.ret).constructible && ShapeOf(table, g.ret).kind == PlainKind
    ensures var old_ := heap[target.addr];
      hm == (heap + [Bean(g.ret, map[])])[target.addr := Bean(old_.cls, old_.fields[f := Ref(|heap|)])]
    ensures Evaluate(table, CreateNewValue, AbstractGetAndSet.MethodGetAndSet(g, Some(s), field), target, Some(c), heap) ==
      Advance(hm, Ref(|heap|), Some(g.ret))
  {
    var acc := AbstractGetAndSet.MethodGetAndSet(g, Some(s), field);
    var h1 := heap + [Bean(g.ret, map[])];
    assert NewInstance(heap, table, g.ret) == Ok((h1, Ref(|heap|)));
    assert h1[target.addr] == heap[target.addr];
    hm := h1[target.addr := Bean(heap[target.addr].cls, heap[target.addr].fields[f := Ref(|heap|)])];
    assert CallMutator(h1, s, target, [Ref(|heap|)]) == Ok(hm);
    assert AbstractGetAndSet.GetValue(heap, acc, target) == Ok(Null);
    assert AbstractGetAndSet.NewValue(heap, table, acc, target) == Ok((hm, Ref(|heap|)));
    assert hm[|heap|] == Bean(g.ret, map[]);
  }

  /** A first segment that reads null and whose getter's type cannot be instantiated: the walk returns null. */
  lemma EvaluateUnconstructible(table: ClassTable, heap: Heap, target: Value, c: ClassName, g: Method, s: Method,
                                f: string, field: Option<FieldDecl>)
    requires MethodGetAndSet.BeanPair(g, s, f)
    requires target.Ref? && target.addr < |heap| && heap[target.addr].Bean?
    requires f !in heap[target.addr].fields || heap[target.addr].fields[f] == Null
    requires !ShapeOf(table, g.ret).constructible
    ensures Evaluate(table, CreateNewValue, AbstractGetAndSet.MethodGetAndSet(g, Some(s), field), target, Some(c), heap) ==
      Stop(heap, Ok(None))
  {
    var acc := AbstractGetAndSet.MethodGetAndSet(g, Some(s), field);
    assert AbstractGetAndSet.GetValue(heap, acc, target) == Ok(Null);
    assert AbstractGetAndSet.NewValue(heap, table, acc, target) == Ok((heap, Null));
  }

  /**
   * The write of "e1.e2" walks to the intermediate bean: the one already
   * there, or one created and stored through the first segment's setter.
   */
  lemma SetWalkReachesIntermediate(table: ClassTable, e1: string, e2: string, target: Value, cache: CacheMap, heap: Heap,
                                   g1: Method, s1: Method, f1: string, a: ClassName)
    returns (hm: Heap, n: nat)
    requires Segment(e1) && Segment(e2)
    requires target.Ref? && target.addr < |heap| && heap[target.addr].Bean?
    requires BeanProperty(table, heap[target.addr].cls, e1, g1, s1, f1)
    requires Knows(cache, table, heap[target.addr].cls, e1, g1, s1)
    requires Intermediate(table, heap, target, f1, g1, a)
    ensures WalkObject(table, e1 + "." + e2, target, CreateNewValue, cache, heap) ==
      Finish(table, e2, Ref(n), Some(a), Lookup(cache, table, e1, Some(heap[target.addr].cls)).0, hm)
    ensures target.addr < |hm| && hm[target.addr].Bean? && hm[target.addr].cls == heap[target.addr].cls
    ensures f1 in hm[target.addr].fields && hm[target.addr].fields[f1] == Ref(n)
    ensures n < |hm| && n != target.addr && hm[n].Bean? && hm[n].cls == a
  {
    var c := heap[target.addr].cls;
    var pair := PairOf(table, c, e1, g1, s1);
    LookupBean(cache, table, c, e1, g1, s1, f1);
    WalkTwoSegments(table, e1, e2, target, CreateNewValue, c, cache, heap, pair);
    hm, n := CreateStepReachesIntermediate(table, target, heap, g1, s1, f1, a, pair.field);
  }

  /**
   * The CREATE_NEW_VALUE step through the first getter/setter pair advances
   * to the intermediate bean and leaves it in the first field.
   */
  lemma CreateStepReachesIntermediate(table: ClassTable, target: Value, heap: Heap,
                                      g1: Method, s1: Method, f1: string, a: ClassName, field: Option<FieldDecl>)
    returns (hm: Heap, n: nat)
    requires target.Ref? && target.addr < |heap| && heap[target.addr].Bean?
    requires MethodGetAndSet.BeanPair(g1, s1, f1)
    requires Intermediate(table, heap, target, f1, g1, a)
    ensures var c := heap[target.addr].cls;
      Evaluate(table, CreateNewValue, AbstractGetAndSet.MethodGetAndSet(g1, Some(s1), field), target, Some(c), heap) ==
      Advance(hm, Ref(n), Some(a))
    ensures target.addr < |hm| && hm[target.addr].Bean? && hm[target.addr].cls == heap[target.addr].cls
    ensures f1 in hm[target.addr].fields && hm[target.addr].fields[f1] == Ref(n)
    ensures n < |hm| && n != target.addr && hm[n].Bean? && hm[n].cls == a
  {
    var c := heap[target.addr].cls;
    var fs := heap[target.addr].fields;
    var held := if f1 in fs then fs[f1] else Null;
    if held.Ref? && held.addr < |heap| && held.addr != target.addr && heap[held.addr].Bean? && heap[held.addr].cls == a {
      hm, n := heap, held.addr;
      EvaluateExisting(table, CreateNewValue, heap, target, c, g1, s1, f1, field, n);
    } else {
      n := |heap|;
      hm := EvaluateCreated(table, heap, target, c, g1, s1, f1, field);
    }
  }

  /**
   * Reading "e1.e2" when the cache holds both accessors and the bean at
   * `target` holds a bean of class `a` in the first field: the second
   * getter's answer on that bean.
   */
  lemma GetWalkThroughIntermediate(table: ClassTable, e1: string, e2: string, target: Value, cache: CacheMap, heap: Heap,
                                   g1: Method, s1: Method, f1: string, g2: Method, s2: Method, a: ClassName, n: nat)
    requires Segment(e1) && Segment(e2)
    requires target.Ref? && target.addr < |heap| && heap[target.addr].Bean?
    requires MethodGetAndSet.BeanPair(g1, s1, f1)
    requires f1 in heap[target.addr].fields && heap[target.addr].fields[f1] == Ref(n)
    requires n < |heap| && heap[n].Bean? && heap[n].cls == a
    requires var c := heap[target.addr].cls;
      c in cache && e1 in cache[c] && cache[c][e1] == PairOf(table, c, e1, g1, s1)
    requires a in cache && e2 in cache[a] && cache[a][e2] == PairOf(table, a, e2, g2, s2)
    ensures GetValue(table, Some(e1 + "." + e2), target, cache, heap).result == MethodGetAndSet.GetValue(heap, g2, Ref(n))
  {
    var bound := ObjectAndGetSetter.ObjectAndGetSetter(PairOf(table, a, e2, g2, s2), Ref(n));
    ReadWalkThroughIntermediate(table, e1, e2, target, cache, heap, g1, s1, f1, g2, s2, a, n);
    GetValueIsWalkThenRead(table, e1 + "." + e2, target, cache, heap, bound);
  }

  /** The RETURN_NULL walk of "e1.e2" through cached accessors binds the second accessor to the intermediate bean. */
  lemma ReadWalkThroughIntermediate(table: ClassTable, e1: string, e2: string, target: Value, cache: CacheMap, heap: Heap,
                                    g1: Method, s1: Method, f1: string, g2: Method, s2: Method, a: ClassName, n: nat)
    requires Segment(e1) && Segment(e2)
    requires target.Ref? && target.addr < |heap| && heap[target.addr].Bean?
    requires MethodGetAndSet.BeanPair(g1, s1, f1)
    requires f1 in heap[target.addr].fields && heap[target.addr].fields[f1] == Ref(n)
    requires n < |heap| && heap[n].Bean? && heap[n].cls == a
    requires var c := heap[target.addr].cls;
      c in cache && e1 in cache[c] && cache[c][e1] == PairOf(table, c, e1, g1, s1)
    requires a in cache && e2 in cache[a] && cache[a][e2] == PairOf(table, a, e2, g2, s2)
    ensures WalkObject(table, e1 + "." + e2, target, ReturnNull, cache, heap) ==
      Resolved(cache, heap, Ok(Some(ObjectAndGetSetter.ObjectAndGetSetter(PairOf(table, a, e2, g2, s2), Ref(n)))))
  {
    var c := heap[target.addr].cls;
    var pair := PairOf(table, c, e1, g1, s1);
    SegmentText(e1);
    SegmentText(e2);
    assert Lookup(cache, table, e1, Some(c)) == (cache, Ok(pair));
    assert Lookup(cache, table, e2, Some(a)) == (cache, Ok(PairOf(table, a, e2, g2, s2)));
    WalkTwoSegments(table, e1, e2, target, ReturnNull, c, cache, heap, pair);
    EvaluateExisting(table, ReturnNull, heap, target, c, g1, s1, f1, pair.field, n);
    WalkObjectOnClass(table, e1 + "." + e2, target, ReturnNull, cache, heap);
  }

  /**
   * setValue of "e1.e2": the walk reaches the intermediate bean and the
   * second segment's setter writes its field; the cache then holds both accessors.
   */
  lemma SetNested(table: ClassTable, e1: string, e2: string, target: Value, v: Value, cache: CacheMap, heap: Heap,
                  g1: Method, s1: Method, f1: string, g2: Method, s2: Method, f2: string, a: ClassName)
    returns (hm: Heap, n: nat, cache2: CacheMap)
    requires Segment(e1) && Segment(e2)
    requires target.Ref? && target.addr < |heap| && heap[target.addr].Bean?
    requires BeanProperty(table, heap[target.addr].cls, e1, g1, s1, f1) && BeanProperty(table, a, e2, g2, s2, f2)
    requires Knows(cache, table, heap[target.addr].cls, e1, g1, s1) && Knows(cache, table, a, e2, g2, s2)
    requires Intermediate(table, heap, target, f1, g1, a)
    ensures target.addr < |hm| && hm[target.addr].Bean? && hm[target.addr].cls == heap[target.addr].cls
    ensures f1 in hm[target.addr].fields && hm[target.addr].fields[f1] == Ref(n)
    ensures n < |hm| && n != target.addr && hm[n].Bean? && hm[n].cls == a
    ensures SetValue(table, Some(e1 + "." + e2), target, v, cache, heap) ==
      Answer(cache2, hm[n := Bean(a, hm[n].fields[f2 := v])], Ok(()))
    ensures var c := heap[target.addr].cls;
      c in cache2 && e1 in cache2[c] && cache2[c][e1] == PairOf(table, c, e1, g1, s1)
    ensures a in cache2 && e2 in cache2[a] && cache2[a][e2] == PairOf(table, a, e2, g2, s2)
  {
    var c := heap[target.addr].cls;
    hm, n := SetWalkReachesIntermediate(table, e1, e2, target, cache, heap, g1, s1, f1, a);
    LookupBean(cache, table, c, e1, g1, s1, f1);
    var cache1 := Lookup(cache, table, e1, Some(c)).0;
    LookupKeepsKnows(cache, table, e1, Some(c), a, e2, g2, s2, f2);
    LookupBean(cache1, table, a, e2, g2, s2, f2);
    cache2 := Lookup(cache1, table, e2, Some(a)).0;
    LookupKeepsEntry(cache1, table, e2, Some(a), c, e1, PairOf(table, c, e1, g1, s1));
    var pair2 := PairOf(table, a, e2, g2, s2);
    var bound := ObjectAndGetSetter.ObjectAndGetSetter(pair2, Ref(n));
    assert WalkObject(table, e1 + "." + e2, target, CreateNewValue, cache, heap) == Resolved(cache2, hm, Ok(Some(bound)));
    var h3 := WriteThroughBean(table, hm, Ref(n), v, g2, s2, f2, pair2.field);
    SetValueIsWalkThenWrite(table, e1 + "." + e2, target, v, cache, heap);
  }

  /**
   * setValue then getValue of "e1.e2" (testSetInnerProperty's "person.name"):
   * the write succeeds, creating the intermediate bean when it was null, the
   * value is read back, and the target keeps its class.
   */
  lemma SetThenGetNested(table: ClassTable, e1: string, e2: string, target: Value, v: Value, cache: CacheMap, heap: Heap,
                         g1: Method, s1: Method, f1: string, g2: Method, s2: Method, f2: string, a: ClassName)
    requires Segment(e1) && Segment(e2)
    requires target.Ref? && target.addr < |heap| && heap[target.addr].Bean?
    requires BeanProperty(table, heap[target.addr].cls, e1, g1, s1, f1) && BeanProperty(table, a, e2, g2, s2, f2)
    requires Knows(cache, table, heap[target.addr].cls, e1, g1, s1) && Knows(cache, table, a, e2, g2, s2)
    requires Intermediate(table, heap, target, f1, g1, a)
    ensures var w := SetValue(table, Some(e1 + "." + e2), target, v, cache, heap);
      w.result == Ok(()) && ClassOf(w.heap, target) == ClassOf(heap, target) &&
      GetValue(table, Some(e1 + "." + e2), target, w.cache, w.heap).result == Ok(v)
  {
    var hm, n, cache2 := SetNested(table, e1, e2, target, v, cache, heap, g1, s1, f1, g2, s2, f2, a);
    ReadBackNested(table, e1, e2, target, v, cache2, hm, g1, s1, f1, g2, s2, f2, a, n);
  }

  /** After the nested write, the intermediate bean holds v and the read finds it there. */
  lemma ReadBackNested(table: ClassTable, e1: string, e2: string, target: Value, v: Value, cache2: CacheMap, hm: Heap,
                       g1: Method, s1: Method, f1: string, g2: Method, s2: Method, f2: string, a: ClassName, n: nat)
    requires Segment(e1) && Segment(e2)
    requires target.Ref? && target.addr < |hm| && hm[target.addr].Bean?
    requires MethodGetAndSet.BeanPair(g1, s1, f1) && MethodGetAndSet.BeanPair(g2, s2, f2)
    requires f1 in hm[target.addr].fields && hm[target.addr].fields[f1] == Ref(n)
    requires n < |hm| && n != target.addr && hm[n].Bean? && hm[n].cls == a
    requires var c := hm[target.addr].cls;
      c in cache2 && e1 in cache2[c] && cache2[c][e1] == PairOf(table, c, e1, g1, s1)
    requires a in cache2 && e2 in cache2[a] && cache2[a][e2] == PairOf(table, a, e2, g2, s2)
    ensures var h3 := hm[n := Bean(a, hm[n].fields[f2 := v])];
      ClassOf(h3, target) == ClassOf(hm, target) &&
      GetValue(table, Some(e1 + "." + e2), target, cache2, h3).result == Ok(v)
  {
    var h3 := hm[n := Bean(a, hm[n].fields[f2 := v])];
    assert h3[target.addr] == hm[target.addr];
    GetWalkThroughIntermediate(table, e1, e2, target, cache2, h3, g1, s1, f1, g2, s2, a, n);
  }

  /**
   * setWithNullPathAbstract: when the first segment reads null and its
   * getter's type cannot be instantiated, the walk returns null and the
   * write fails, leaving the heap alone.
   */
  lemma NullUnconstructibleFails(table: ClassTable, e1: string, e2: string, target: Value, v: Value, cache: CacheMap, heap: Heap,
                                 g1: Method, s1: Method, f1: string)
    requires Segment(e1) && Segment(e2)
    requires target.Ref? && target.addr < |heap| && heap[target.addr].Bean?
    requires BeanProperty(table, heap[target.addr].cls, e1, g1, s1, f1)
    requires Knows(cache, table, heap[target.addr].cls, e1, g1, s1)
    requires f1 !in heap[target.addr].fields || heap[target.addr].fields[f1] == Null
    requires !ShapeOf(table, g1.ret).constructible
    ensures var w := SetValue(table, Some(e1 + "." + e2), target, v, cache, heap);
      w.result == Err(Resolution) && w.heap == heap
  {
    SetWalkStopsOnUnconstructible(table, e1, e2, target, cache, heap, g1, s1, f1);
    SetValueIsWalkThenWrite(table, e1 + "." + e2, target, v, cache, heap);
  }

  /** The CREATE_NEW_VALUE walk of "e1.e2" stops with null at an unconstructible null intermediate. */
  lemma SetWalkStopsOnUnconstructible(table: ClassTable, e1: string, e2: string, target: Value, cache: CacheMap, heap: Heap,
                                      g1: Method, s1: Method, f1: string)
    requires Segment(e1) && Segment(e2)
    requires target.Ref? && target.addr < |heap| && heap[target.addr].Bean?
    requires BeanProperty(table, heap[target.addr].cls, e1, g1, s1, f1)
    requires Knows(cache, table, heap[target.addr].cls, e1, g1, s1)
    requires f1 !in heap[target.addr].fields || heap[target.addr].fields[f1] == Null
    requires !ShapeOf(table, g1.ret).constructible
    ensures var w := WalkObject(table, e1 + "." + e2, target, CreateNewValue, cache, heap);
      w.result == Ok(None) && w.heap == heap
  {
    var c := heap[target.addr].cls;
    var pair := PairOf(table, c, e1, g1, s1);
    LookupBean(cache, table, c, e1, g1, s1, f1);
    WalkTwoSegments(table, e1, e2, target, CreateNewValue, c, cache, heap, pair);
    EvaluateUnconstructible(table, heap, target, c, g1, s1, f1, pair.field);
    WalkObjectOnClass(table, e1 + "." + e2, target, CreateNewValue, cache, heap);
  }

  // ---- through a property model ----

  /**
   * A property model on a plain bean (no nested model): setObject then
   * getObject of a bean property answers the value written.
   */
  lemma ModelSetThenGetProperty(table: ClassTable, models: ModelWorld.Models, heap: Heap, target: Value, e: string, v: Value,
                                cache: CacheMap, fuel: nat, g: Method, s: Method, f: string)
    requires Segment(e) && !ModelWorld.IsModel(table, heap, target)
    requires target.Ref? && target.addr < |heap| && heap[target.addr].Bean?
    requires BeanProperty(table, heap[target.addr].cls, e, g, s, f)
    requires Knows(cache, table, heap[target.addr].cls, e, g, s)
    ensures var (t, w) := PropertyModel.PropertySet(table, models, heap, target, Some(e), v, cache, fuel);
      t == target && w.result == Ok(()) &&
      PropertyModel.PropertyGet(table, models, w.heap, target, Some(e), w.cache, fuel).result == Ok(v)
  {
    SetThenGetProperty(table, e, target, v, cache, heap, g, s, f);
    var w := SetValue(table, Some(e), target, v, cache, heap);
    assert !ModelWorld.IsModel(table, w.heap, target);
  }

  /** The same for "e1.e2", as testSetInnerProperty does on an employee's person's name. */
  lemma ModelSetThenGetNested(table: ClassTable, models: ModelWorld.Models, heap: Heap, target: Value, e1: string, e2: string,
                              v: Value, cache: CacheMap, fuel: nat,
                              g1: Method, s1: Method, f1: string, g2: Method, s2: Method, f2: string, a: ClassName)
    requires Segment(e1) && Segment(e2) && !ModelWorld.IsModel(table, heap, target)
    requires target.Ref? && target.addr < |heap| && heap[target.addr].Bean?
    requires BeanProperty(table, heap[target.addr].cls, e1, g1, s1, f1) && BeanProperty(table, a, e2, g2, s2, f2)
    requires Knows(cache, table, heap[target.addr].cls, e1, g1, s1) && Knows(cache, table, a, e2, g2, s2)
    requires Intermediate(table, heap, target, f1, g1, a)
    ensures var (t, w) := PropertyModel.PropertySet(table, models, heap, target, Some(e1 + "." + e2), v, cache, fuel);
      t == target && w.result == Ok(()) &&
      PropertyModel.PropertyGet(table, models, w.heap, target, Some(e1 + "." + e2), w.cache, fuel).result == Ok(v)
  {
    SetThenGetNested(table, e1, e2, target, v, cache, heap, g1, s1, f1, g2, s2, f2, a);
    PathText(e1, e2);
    var w := SetValue(table, Some(e1 + "." + e2), target, v, cache, heap);
    assert !ModelWorld.IsModel(table, w.heap, target);
  }
}
