/**
 * How the property resolver finds the accessor for one expression segment on
 * one class (getGetAndSetter), and how it caches what it found per class.
 */
module PropertyResolverDiscovery {
  import opened JavaObjects
  import opened AbstractGetAndSet
  import opened DefaultClassCache
  import MethodGetAndSet
  import PropertyResolverText

  const GET: string := "get"
  const IS: string := "is"

  /** findGetter: get<Name>() before is<Name>(); charAt(0) of an empty segment throws. */
  function FindGetter(table: ClassTable, c: ClassName, exp: string): (r: Result<Option<Method>>)
    ensures r.Err? <==> exp == []
    ensures r.Ok? && r.value.Some? ==>
      r.value.value in ShapeOf(table, c).methods && r.value.value.params == [] &&
      (r.value.value.name == GET + Capitalize(exp).value || r.value.value.name == IS + Capitalize(exp).value)
  {
    var name :- Capitalize(exp);
    var methods := ShapeOf(table, c).methods;
    var getter := GetMethod(methods, GET + name, []);
    if getter.Some? then Ok(getter) else Ok(GetMethod(methods, IS + name, []))
  }

  /** A get<Name>() method wins over an is<Name>() method. */
  lemma GetPreferredOverIs(table: ClassTable, c: ClassName, exp: string, m: Method)
    requires exp != []
    requires m in ShapeOf(table, c).methods && m.name == GET + Capitalize(exp).value && m.params == []
    ensures FindGetter(table, c, exp).Ok? && FindGetter(table, c, exp).value.Some?
    ensures FindGetter(table, c, exp).value.value.name == GET + Capitalize(exp).value
  {
  }

  /** No getter is found exactly when the class has neither no-argument method. */
  lemma NoGetterIffNeither(table: ClassTable, c: ClassName, exp: string)
    requires exp != []
    ensures FindGetter(table, c, exp) == Ok(None) <==>
      forall m :: m in ShapeOf(table, c).methods && m.params == [] ==>
        m.name != GET + Capitalize(exp).value && m.name != IS + Capitalize(exp).value
  {
  }

  /** findMethod: a public no-argument method named by the segment, a trailing "()" removed. */
  function FindMethod(table: ClassTable, c: ClassName, exp: string): (r: Option<Method>)
    ensures r.Some? ==> r.value in ShapeOf(table, c).methods && r.value.params == []
    ensures r.Some? && !EndsWith(exp, "()") ==> r.value.name == exp
    ensures r.Some? && EndsWith(exp, "()") ==> r.value.name == exp[..|exp| - 2]
  {
    var name := if EndsWith(exp, "()") then exp[..|exp| - 2] else exp;
    GetMethod(ShapeOf(table, c).methods, name, [])
  }

  /** findField: the first field of that name in search order. */
  function FindFieldOf(table: ClassTable, c: ClassName, exp: string): (r: Option<FieldDecl>)
    ensures r.Some? ==> r.value in ShapeOf(table, c).fields && r.value.name == exp
    ensures r.None? ==> forall f :: f in ShapeOf(table, c).fields ==> f.name != exp
  {
    FindField(ShapeOf(table, c).fields, exp)
  }

  /** A getter/setter pair for a method found by name, with its setter looked up. */
  function PairFor(table: ClassTable, c: ClassName, m: Method, field: Option<FieldDecl>): (r: Result<GetAndSet>)
    ensures r.Ok? ==> r.value.MethodGetAndSet? && r.value.getMethod == m && r.value.field == field
    ensures r.Ok? ==> Ok(r.value.setMethod) == MethodGetAndSet.FindSetterSpec(table, m, c)
  {
    var setter :- MethodGetAndSet.FindSetterSpec(table, m, c);
    Ok(MethodGetAndSet(m, setter, field))
  }

  /**
   * "name.index" on a plain class: a get<Name>(int) method used with a fixed
   * index. Every failure on the way (no dot, no number, empty name, no such
   * method) surfaces as the same RuntimeException.
   */
  function IndexedProperty(table: ClassTable, c: ClassName, exp: string): (r: Result<GetAndSet>)
    ensures r.Err? ==> r.error == Resolution
    ensures r.Ok? ==> r.value.ArrayPropertyGetSet? && r.value.getMethod in ShapeOf(table, c).methods
    ensures r.Ok? ==> r.value.getMethod.params == [INT_CLASS]
    ensures PropertyResolverText.IndexOf(exp, ".", 0) == -1 ==> r == Err(Resolution)
  {
    var dot := PropertyResolverText.IndexOf(exp, ".", 0);
    if dot == -1 then Err(Resolution)
    else
      var propertyName := exp[..dot];
      var propertyIndex := exp[dot + 1..];
      match (ParseInt(propertyIndex), Capitalize(propertyName))
      case (Ok(i), Ok(name)) =>
        (match GetMethod(ShapeOf(table, c).methods, GET + name, [INT_CLASS])
         case Some(m) => Ok(ArrayPropertyGetSet(m, i))
         case None => Err(Resolution))
      case _ => Err(Resolution)
  }

  /** The accessor chosen when no getter (or named method) was found first, by the kind of the class. */
  function DiscoverWithoutGetter(table: ClassTable, c: ClassName, exp: string): (r: Result<GetAndSet>)
    ensures ShapeOf(table, c).kind == MapKind ==> r == Ok(MapGetSet(exp))
    ensures ShapeOf(table, c).kind == ListKind && ParseInt(exp).Ok? ==> r == Ok(ListGetSet(ParseInt(exp).value))
    ensures ShapeOf(table, c).kind.ArrayKind? && ParseInt(exp).Ok? ==>
      r == Ok(ArrayGetSet(ShapeOf(table, c).kind.component, ParseInt(exp).value))
    ensures ShapeOf(table, c).kind.ArrayKind? && ParseInt(exp).Err? ==>
      r == (if exp == "length" || exp == "size" then Ok(ArrayLengthGetSet) else Err(Resolution))
    ensures ShapeOf(table, c).kind == PlainKind && FindFieldOf(table, c, exp).Some? ==>
      r == Ok(FieldGetAndSetter(FindFieldOf(table, c, exp).value))
    ensures r.Ok? && ShapeOf(table, c).kind == ListKind ==>
      r.value.ListGetSet? || r.value.MethodGetAndSet? || r.value.FieldGetAndSetter?
    ensures r.Ok? && ShapeOf(table, c).kind == PlainKind ==>
      r.value.FieldGetAndSetter? || r.value.MethodGetAndSet? || r.value.ArrayPropertyGetSet?
    ensures r.Ok? && (r.value.MethodGetAndSet? || r.value.FieldGetAndSetter?) ==>
      ShapeOf(table, c).kind == ListKind || ShapeOf(table, c).kind == PlainKind
  {
    var shape := ShapeOf(table, c);
    match shape.kind
    case ListKind =>
      (match ParseInt(exp)
       case Ok(i) => Ok(ListGetSet(i))
       case Err(_) =>
         var m := FindMethod(table, c, exp);
         if m.Some? then PairFor(table, c, m.value, None)
         else
           var f := FindFieldOf(table, c, exp);
           if f.Some? then Ok(FieldGetAndSetter(f.value)) else Err(Resolution))
    case MapKind => Ok(MapGetSet(exp))
    case ArrayKind(component) =>
      (match ParseInt(exp)
       case Ok(i) => Ok(ArrayGetSet(component, i))
       case Err(_) =>
         if exp == "length" || exp == "size" then Ok(ArrayLengthGetSet) else Err(Resolution))
    case PlainKind =>
      var f := FindFieldOf(table, c, exp);
      if f.Some? then Ok(FieldGetAndSetter(f.value))
      else
        var m := FindMethod(table, c, exp);
        if m.Some? then PairFor(table, c, m.value, None)
        else IndexedProperty(table, c, exp)
  }

  /** A discovered accessor together with the key it is cached under. */
  datatype Found = Found(key: string, accessor: GetAndSet)

  /**
   * Discovery of a segment that is not cached yet. "[k]" is stripped to "k"
   * and skips the getter search; "m()" goes straight to the method search;
   * anything else looks for a getter first.
   */
  function Discover(table: ClassTable, c: ClassName, exp: string): (r: Result<Found>)
    ensures r.Ok? && !StartsWith(exp, "[") ==> r.value.key == exp
    ensures r.Ok? && StartsWith(exp, "[") ==> |exp| >= 2 && r.value.key == exp[1..|exp| - 1]
    ensures StartsWith(exp, "[") && |exp| < 2 ==> r == Err(StringIndexOutOfBounds)
  {
    if StartsWith(exp, "[") then
      if |exp| < 2 then Err(StringIndexOutOfBounds)
      else
        var key := exp[1..|exp| - 1];
        var acc :- DiscoverWithoutGetter(table, c, key);
        Ok(Found(key, acc))
    else
      var named :- if EndsWith(exp, "()") then Ok(FindMethod(table, c, exp)) else FindGetter(table, c, exp);
      if named.None? then
        var acc :- DiscoverWithoutGetter(table, c, exp);
        Ok(Found(exp, acc))
      else
        var acc :- PairFor(table, c, named.value, FindFieldOf(table, c, exp));
        Ok(Found(exp, acc))
  }

  /** A found getter always yields the getter/setter pair, carrying the field of the same name. */
  lemma GetterYieldsPair(table: ClassTable, c: ClassName, exp: string, m: Method)
    requires !StartsWith(exp, "[") && !EndsWith(exp, "()")
    requires FindGetter(table, c, exp) == Ok(Some(m))
    requires MethodGetAndSet.FindSetterSpec(table, m, c).Ok?
    ensures Discover(table, c, exp).Ok?
    ensures Discover(table, c, exp).value.accessor ==
      MethodGetAndSet(m, MethodGetAndSet.FindSetterSpec(table, m, c).value, FindFieldOf(table, c, exp))
  {
  }

  /** On a list without a matching getter, a number is an index. */
  lemma ListSegmentIsIndex(table: ClassTable, c: ClassName, exp: string)
    requires ShapeOf(table, c).kind == ListKind && ParseInt(exp).Ok?
    requires !StartsWith(exp, "[") && !EndsWith(exp, "()") && FindGetter(table, c, exp) == Ok(None)
    ensures Discover(table, c, exp) == Ok(Found(exp, ListGetSet(ParseInt(exp).value)))
  {
  }

  /** "[k]" on a map is the key k, whatever k is. */
  lemma BracketOnMapIsKey(table: ClassTable, c: ClassName, k: string)
    requires ShapeOf(table, c).kind == MapKind
    ensures Discover(table, c, "[" + k + "]") == Ok(Found(k, MapGetSet(k)))
  {
    var exp := "[" + k + "]";
    assert StartsWith(exp, "[");
    assert exp[1..|exp| - 1] == k;
  }

  /** On an array, "length" and "size" name the length unless they are numbers (they are not). */
  lemma ArrayLengthSegment(table: ClassTable, c: ClassName, exp: string)
    requires ShapeOf(table, c).kind.ArrayKind? && (exp == "length" || exp == "size")
    requires FindGetter(table, c, exp) == Ok(None)
    ensures Discover(table, c, exp) == Ok(Found(exp, ArrayLengthGetSet))
  {
    LatinLetterIsNotDigit(exp[0]);
    ParseIntRejectsLetters(exp);
    assert !StartsWith(exp, "[") && !EndsWith(exp, "()");
  }

  /** On a plain class without a getter, a field wins over a method of the same name. */
  lemma FieldBeforeMethodOnPlainClass(table: ClassTable, c: ClassName, exp: string, f: FieldDecl)
    requires ShapeOf(table, c).kind == PlainKind
    requires !StartsWith(exp, "[") && !EndsWith(exp, "()") && FindGetter(table, c, exp) == Ok(None)
    requires FindFieldOf(table, c, exp) == Some(f)
    ensures Discover(table, c, exp) == Ok(Found(exp, FieldGetAndSetter(f)))
  {
  }

  // ---- the cache ----

  /**
   * getGetAndSetter against the class cache: a null class throws, a class
   * seen for the first time gets an empty segment map (even if discovery then
   * fails), a cached segment is returned as is, and a newly discovered
   * accessor is stored under its key.
   */
  function Lookup(cache: CacheMap, table: ClassTable, exp: string, clz: Option<ClassName>): (r: (CacheMap, Result<GetAndSet>))
    ensures clz.None? ==> r == (cache, Err(NullPointer))
    ensures clz.Some? ==> clz.value in r.0 && r.0.Keys == cache.Keys + {clz.value}
    ensures clz.Some? ==> forall k :: k in cache && k != clz.value ==> r.0[k] == cache[k]
    ensures clz.Some? && clz.value in cache && exp in cache[clz.value] ==>
      r == (cache, Ok(cache[clz.value][exp]))
  {
    if clz.None? then (cache, Err(NullPointer))
    else
      var c := clz.value;
      var segments := if c in cache then cache[c] else map[];
      var cache1 := cache[c := segments];
      assert c in cache ==> cache1.Keys == cache.Keys && cache1 == cache;
      if exp in segments then (cache1, Ok(segments[exp]))
      else
        match Discover(table, c, exp)
        case Err(e) => (cache1, Err(e))
        case Ok(Found(key, acc)) => (cache1[c := segments[key := acc]], Ok(acc))
  }

  /** A miss stores what discovery found under its key, and the class's other segments stay. */
  lemma MissStoresDiscovery(cache: CacheMap, table: ClassTable, exp: string, c: ClassName)
    requires c !in cache || exp !in cache[c]
    requires Discover(table, c, exp).Ok?
    ensures var (cache', r) := Lookup(cache, table, exp, Some(c));
      var found := Discover(table, c, exp).value;
      r == Ok(found.accessor) && cache'[c][found.key] == found.accessor &&
      (forall k :: c in cache && k in cache[c] && k != found.key ==> k in cache'[c] && cache'[c][k] == cache[c][k])
  {
  }

  /** Asking again for a segment the cache now holds returns the same accessor and changes nothing. */
  lemma RepeatLookupHits(cache: CacheMap, table: ClassTable, exp: string, c: ClassName)
    requires !StartsWith(exp, "[")
    requires Lookup(cache, table, exp, Some(c)).1.Ok?
    ensures var (cache', r) := Lookup(cache, table, exp, Some(c));
      Lookup(cache', table, exp, Some(c)) == (cache', r)
  {
    var (cache', r) := Lookup(cache, table, exp, Some(c));
    assert exp in cache'[c];
  }

  /**
   * A bracketed segment is never a hit on its own text: it is stored without
   * its brackets, so "[k]" is discovered again on every lookup and the stored
   * accessor is then what a plain "k" gets.
   */
  lemma BracketStoredUnderInnerKey(cache: CacheMap, table: ClassTable, k: string, c: ClassName)
    requires c !in cache || "[" + k + "]" !in cache[c]
    requires Discover(table, c, "[" + k + "]").Ok?
    ensures var (cache', r) := Lookup(cache, table, "[" + k + "]", Some(c));
      r.Ok? && k in cache'[c] && Lookup(cache', table, k, Some(c)) == (cache', r)
  {
    var exp := "[" + k + "]";
    assert StartsWith(exp, "[");
    assert exp[1..|exp| - 1] == k;
  }

  /** getGetAndSetter on the cache object: get, put an empty map on a miss, look up, discover, store. */
  method GetGetAndSetter(cacheObj: DefaultClassCache, table: ClassTable, exp: string, clz: Option<ClassName>)
    returns (r: Result<GetAndSet>)
    modifies cacheObj
    ensures (cacheObj.entries, r) == Lookup(old(cacheObj.entries), table, exp, clz)
  {
    var got := cacheObj.Get(clz);
    if got.Err? {
      return Err(got.error);
    }
    var segments: SegmentMap;
    if got.value.None? {
      segments := map[];
      var _ := cacheObj.Put(clz, segments);
    } else {
      segments := got.value.value;
      assert cacheObj.entries == cacheObj.entries[clz.value := segments];
    }
    if exp in segments {
      return Ok(segments[exp]);
    }
    var found := Discover(table, clz.value, exp);
    if found.Err? {
      return Err(found.error);
    }
    var _ := cacheObj.Put(clz, segments[found.value.key := found.value.accessor]);
    r := Ok(found.value.accessor);
  }
}
