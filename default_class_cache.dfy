/** The resolver's class cache: class -> (segment -> accessor). */
module DefaultClassCache {
  import opened JavaObjects
  import opened AbstractGetAndSet

  type SegmentMap = map<string, GetAndSet>

  type CacheMap = map<ClassName, SegmentMap>

  class DefaultClassCache {
    var entries: CacheMap

    constructor()
      ensures entries == map[]
    {
      entries := map[];
    }

    /** get: the stored segment map of the class, or null; a null class throws. */
    method Get(clz: Option<ClassName>) returns (r: Result<Option<SegmentMap>>)
      ensures clz.None? ==> r == Err(NullPointer)
      ensures clz.Some? && clz.value in entries ==> r == Ok(Some(entries[clz.value]))
      ensures clz.Some? && clz.value !in entries ==> r == Ok(None)
    {
      if clz.None? {
        return Err(NullPointer);
      }
      if clz.value in entries {
        r := Ok(Some(entries[clz.value]));
      } else {
        r := Ok(None);
      }
    }

    /** put: replaces the entry of one class, leaving the others alone; a null class throws. */
    method Put(clz: Option<ClassName>, values: SegmentMap) returns (r: Outcome)
      modifies this
      ensures clz.None? ==> r == Fails(NullPointer) && entries == old(entries)
      ensures clz.Some? ==> r == Done && entries == old(entries)[clz.value := values]
    {
      if clz.None? {
        return Fails(NullPointer);
      }
      entries := entries[clz.value := values];
      r := Done;
    }
  }

  /** get after put returns the map put; a second put replaces the first; other classes are unaffected. */
  method PutGetScenario(a: ClassName, b: ClassName, m1: SegmentMap, m2: SegmentMap)
    returns (before: Result<Option<SegmentMap>>, afterPut: Result<Option<SegmentMap>>,
             otherClass: Result<Option<SegmentMap>>, afterReplace: Result<Option<SegmentMap>>)
    requires a != b
    ensures before == Ok(None) && afterPut == Ok(Some(m1))
    ensures otherClass == Ok(None) && afterReplace == Ok(Some(m2))
  {
    var cache := new DefaultClassCache();
    before := cache.Get(Some(a));
    var _ := cache.Put(Some(a), m1);
    afterPut := cache.Get(Some(a));
    otherClass := cache.Get(Some(b));
    var _ := cache.Put(Some(a), m2);
    afterReplace := cache.Get(Some(a));
  }
}
