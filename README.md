# model-data in Dafny

This project models the core of the model-data library. The library is a Java
implementation of "models": small objects that hold or compute a value for a
user interface. It also contains the property engine that reads and writes bean
properties named by expressions such as `person.address.street`,
`list.0`, `map[key]` or `array.length`.

What is modelled:

- **The property resolver.** It covers:
  - `replaceAll` and `getNextDotIndex`;
  - the normalisation of an expression (`[` becomes `.[`, leading dots are dropped);
  - the discovery of the accessor for one segment on one class;
  - the per-class cache of those accessors;
  - the walk `getObjectAndGetSetter` under its three policies (RETURN_NULL, CREATE_NEW_VALUE, RESOLVE_CLASS);
  - the public `getValue`, `setValue`, `getPropertyClass/Field/Getter/Setter`, `setClassCache` and `destroy`.
- **The accessor family.** This is `AbstractGetAndSet` and its variants:
  - the getter/setter pair;
  - the backing field;
  - the list index;
  - the map key;
  - the array slot;
  - the array length;
  - the indexed bean property, which remembers its setter.

  It also covers `ObjectAndGetSetter` and the class cache.
- **The models.** These are:
  - the box `Model`/`GenericModel`;
  - `ChainingModel`, with the loop that finds the innermost object;
  - `AbstractPropertyModel`/`PropertyModel`;
  - `LoadableDetachableModel`;
  - the `LambdaModel` and `LambdaBindingModel` factories.
- **The caching decorators.** `CachingMethodResolver` and `CachingProxyFactory`.

Several classes exist twice in the repository: once in the `io.github.astrapi69`
packages and once in the older `de.alpharogroup` packages (the model-object copies).
The copies have the same behaviour and differ only in interface names (`IModel`/`Model`,
`IDetachable`/`Detachable`) and in the toString prefix. The model follows the
`io.github.astrapi69` copy. Each row below cites one copy:

- ChainingModel: only the `src` copy has `getInnermostModelOrObject` (lines 166-181), so the model follows it. The two `model-object` copies lack that method. They implement `ChainableModel` over `Model` (not `IChainingModel` over `IModel`), and their toString prefix is `Model:classname=[` (not `IModel:classname=[`). The `de` copy also has the methods in another order.
- `GenericModel` is the `de` twin of `Model`.
- The `de` `LoadableDetachableModel` differs only in declaring `attach` abstract.

How the Java world is represented:

- **Objects.** The Java object graph is a value `Heap`: address `i` holds `heap[i]`, and allocation appends.
- **Reflection.** A `ClassTable` stands for reflection. It lists each class's kind, its public methods in `getMethods()` order, its fields in `findField` order, its supertypes, and whether `newInstance` succeeds.
  - Bean method bodies are a tiny language: read or write a field, read or write an element of a list field, or throw.
- **Exceptions.** They are `Err` results.
- **Caches.** What the source keeps in fields and mutable maps is a Dafny `class` with `var` fields of type `map` or `seq`. Each state-changing method is tied by its `ensures` to a pure function of the old state, and the properties are proved about those functions.
- **Foreign code.** The subclass hooks, nested models of unknown class, closures, and the wrapped resolver and factory are parameters:
  - nested models are the `Models` world (`getOf`, `setOf`);
  - closures are function values over the heap;
  - hooks are indexed by how often they have been called.

## Model

| member | source | states |
|---|---|---|
| `PropertyResolverText.IndexOf` | src/main/java/io/github/astrapi69/model/property/PropertyResolver.java:636-669 | The search used by replaceAll gives -1 or a position at or after the start where the whole search string fits. |
| `PropertyResolverText.IndexOfLeast` | src/main/java/io/github/astrapi69/model/property/PropertyResolver.java:636-669 | A found position holds a match, no earlier position at or after the start does, and -1 means there is no match at all. |
| `PropertyResolverText.ReplaceFromStep` | src/main/java/io/github/astrapi69/model/property/PropertyResolver.java:660-680 | One match contributes the text before it and the replacement, and the scan resumes after the match, so matches do not overlap. |
| `PropertyResolverText.ReplaceAll` | src/main/java/io/github/astrapi69/model/property/PropertyResolver.java:629-694 | A null text gives null. A null or empty search string returns the text unchanged. Otherwise the result is the left-to-right non-overlapping replacement. |
| `PropertyResolverText.NoMatchUnchanged` | src/main/java/io/github/astrapi69/model/property/PropertyResolver.java:636-649 | Text with no occurrence of the search string comes back unchanged. |
| `PropertyResolverText.NullReplacementIsEmpty` | src/main/java/io/github/astrapi69/model/property/PropertyResolver.java:650-658 | A null replacement acts exactly as the empty string. |
| `PropertyResolverText.ReplaceAllLoop` | src/main/java/io/github/astrapi69/model/property/PropertyResolver.java:629-694 | The method computes the reference replacement for every input, the null cases included. |
| `PropertyResolverText.AppendReplacements` | src/main/java/io/github/astrapi69/model/property/PropertyResolver.java:673-692 | The do-while loop and the tail append build exactly the reference replacement. |
| `PropertyResolverText.AppendOne` | src/main/java/io/github/astrapi69/model/property/PropertyResolver.java:676-684 | One pass moves the scan strictly forward and keeps "buffer followed by the replacement of the rest" equal to the final result. |
| `PropertyResolverText.ReplaceCharConcat` | src/main/java/io/github/astrapi69/model/property/PropertyResolver.java:391 | Replacing one character distributes over concatenation. |
| `PropertyResolverText.ReplaceCharAbsent` | src/main/java/io/github/astrapi69/model/property/PropertyResolver.java:391 | Text without the character is left alone. |
| `PropertyResolverText.NoCharMatchUnchanged` | src/main/java/io/github/astrapi69/model/property/PropertyResolver.java:391 | A stretch of text without the character is left alone. |
| `PropertyResolverText.ReplaceFromSingleChar` | src/main/java/io/github/astrapi69/model/property/PropertyResolver.java:391 | For a one-character search (`[` to `.[`), replaceAll maps every occurrence of that character to the replacement. |
| `PropertyResolverText.ReplaceFromSingleCharAt` | src/main/java/io/github/astrapi69/model/property/PropertyResolver.java:391 | The induction step of the previous row, at one matched position. |
| `PropertyResolverText.InsideBracketIffUnclosed` | src/main/java/io/github/astrapi69/model/property/PropertyResolver.java:337-357 | The insideBracket flag is set exactly when some `[` since the start has no `]` after it. The flag does not count depth. |
| `PropertyResolverText.NextDotFrom` | src/main/java/io/github/astrapi69/model/property/PropertyResolver.java:339-356 | From position i, the result is -1 or the least dot outside brackets, and no earlier dot is outside brackets. |
| `PropertyResolverText.NextDot` | src/main/java/io/github/astrapi69/model/property/PropertyResolver.java:337-357 | getNextDotIndex gives -1 exactly when no dot lies outside brackets, and otherwise the least such dot. |
| `PropertyResolverText.GetNextDotIndex` | src/main/java/io/github/astrapi69/model/property/PropertyResolver.java:337-357 | The scanning loop with its flag answers the specification for every input. |
| `PropertyResolverText.FlagNotDepth` | src/main/java/io/github/astrapi69/model/property/PropertyResolver.java:344-353 | In `[[a].b` the first `]` already closes the brackets, so the dot at 4 counts. |
| `PropertyResolverText.LeadingDotIsFirst` | src/main/java/io/github/astrapi69/model/property/PropertyResolver.java:392-393 | The scanner answers 0 exactly when the expression starts with a dot, which is how the walk detects leading dots. |
| `PropertyResolverText.DropLeadingDots` | src/main/java/io/github/astrapi69/model/property/PropertyResolver.java:393-399 | The result never starts with a dot, is a suffix of the input, and only dots were removed. |
| `PropertyResolverText.Normalise` | src/main/java/io/github/astrapi69/model/property/PropertyResolver.java:391-399 | The expression that is walked never starts with a dot. |
| `PropertyResolverText.NormaliseSeparatesBrackets` | src/main/java/io/github/astrapi69/model/property/PropertyResolver.java:391-399 | Normalisation puts a dot before every `[` and then drops the leading dots. |
| `PropertyResolverText.StripLeadingDots` | src/main/java/io/github/astrapi69/model/property/PropertyResolver.java:392-399 | The dot-eating loop computes exactly DropLeadingDots. |
| `PropertyResolverDiscovery.FindGetter` | src/main/java/io/github/astrapi69/model/property/PropertyResolver.java:121-144 | The result fails exactly for an empty segment (charAt(0)). A found getter is a public no-argument method named `get`+Name or `is`+Name. |
| `PropertyResolverDiscovery.GetPreferredOverIs` | src/main/java/io/github/astrapi69/model/property/PropertyResolver.java:124-142 | When `get`+Name() exists it is returned, even if `is`+Name() exists too. |
| `PropertyResolverDiscovery.NoGetterIffNeither` | src/main/java/io/github/astrapi69/model/property/PropertyResolver.java:121-144 | No getter is found exactly when the class has neither no-argument method (both directions). |
| `PropertyResolverDiscovery.FindMethod` | src/main/java/io/github/astrapi69/model/property/PropertyResolver.java:146-162 | A found method has no parameters and is named by the segment with a trailing `()` removed. |
| `PropertyResolverDiscovery.FindFieldOf` | src/main/java/io/github/astrapi69/model/property/PropertyResolver.java:88-114 | The result is a field of that name in search order, or none exactly when the class has no such field. |
| `PropertyResolverDiscovery.PairFor` | src/main/java/io/github/astrapi69/model/property/PropertyResolver.java:228-229 | The method accessor carries the found method, the given field and the setter found by findSetter. |
| `PropertyResolverDiscovery.IndexedProperty` | src/main/java/io/github/astrapi69/model/property/PropertyResolver.java:279-306 | `name.N` on a plain class yields an indexed accessor over a `get`+Name(int) method. Every failure is the same RuntimeException, and a segment without a dot fails. |
| `PropertyResolverDiscovery.Discover` | src/main/java/io/github/astrapi69/model/property/PropertyResolver.java:192-325 | The cache key is the segment, or the text inside `[...]`. A lone `[` throws StringIndexOutOfBounds. |
| `PropertyResolverDiscovery.DiscoverWithoutGetter` | src/main/java/io/github/astrapi69/model/property/PropertyResolver.java:212-318 | Without a getter: a map key accessor on a map. On a list, an index when the segment parses, else a method or field. On an array, an element when the segment parses, else `length`/`size`, else an error. On a plain class, the field, then a method, then an indexed property. Each accessor kind arises only on the class kinds the code tries it on. |
| `PropertyResolverDiscovery.GetterYieldsPair` | src/main/java/io/github/astrapi69/model/property/PropertyResolver.java:320-325 | A found getter gives the getter/setter pair together with the field of the same name. |
| `PropertyResolverDiscovery.ListSegmentIsIndex` | src/main/java/io/github/astrapi69/model/property/PropertyResolver.java:214-220 | On a List without a matching getter, a number is used as an index. |
| `PropertyResolverDiscovery.BracketOnMapIsKey` | src/main/java/io/github/astrapi69/model/property/PropertyResolver.java:196-201 | On a Map, `[k]` is the key k, whatever k is. |
| `PropertyResolverDiscovery.ArrayLengthSegment` | src/main/java/io/github/astrapi69/model/property/PropertyResolver.java:251-263 | On an array, `length` and `size` name the length accessor. |
| `PropertyResolverDiscovery.FieldBeforeMethodOnPlainClass` | src/main/java/io/github/astrapi69/model/property/PropertyResolver.java:271-317 | On a plain class without a getter, a field wins over a method of the same name. |
| `PropertyResolverDiscovery.Lookup` | src/main/java/io/github/astrapi69/model/property/PropertyResolver.java:181-329 | A null class throws. A class seen for the first time gets a segment map even when discovery then fails. Other classes' entries are unchanged, and a cached segment is answered as stored. |
| `PropertyResolverDiscovery.MissStoresDiscovery` | src/main/java/io/github/astrapi69/model/property/PropertyResolver.java:191-327 | A miss stores what discovery found under its key and keeps the class's other segments. |
| `PropertyResolverDiscovery.RepeatLookupHits` | src/main/java/io/github/astrapi69/model/property/PropertyResolver.java:191-192 | Asking again for a segment now cached gives the same accessor and changes nothing. |
| `PropertyResolverDiscovery.BracketStoredUnderInnerKey` | src/main/java/io/github/astrapi69/model/property/PropertyResolver.java:196-201 | `[k]` is stored under `k`, so it is discovered again on every lookup, and a later plain `k` gets the stored accessor. |
| `PropertyResolverDiscovery.GetGetAndSetter` | src/main/java/io/github/astrapi69/model/property/PropertyResolver.java:181-329 | The statement-level lookup on the cache object leaves the cache and answer exactly as Lookup says. |
| `DefaultClassCache.DefaultClassCache.constructor` | src/main/java/io/github/astrapi69/model/property/PropertyResolver.java:783-787 | A new cache is empty. |
| `DefaultClassCache.DefaultClassCache.Get` | src/main/java/io/github/astrapi69/model/property/PropertyResolver.java:789-792 | A null class throws. A stored class answers its segment map, and an unknown class answers null. |
| `DefaultClassCache.DefaultClassCache.Put` | src/main/java/io/github/astrapi69/model/property/PropertyResolver.java:795-798 | A null class throws. Otherwise exactly that class's entry is replaced. |
| `DefaultClassCache.PutGetScenario` | model-object/src/main/java/io/github/astrapi69/model/property/DefaultClassCache.java:30-39 | Get reads back what Put stored, a second Put replaces the first, and another class stays unknown. |
| `PropertyResolverWalk.Finish` | src/main/java/io/github/astrapi69/model/property/PropertyResolver.java:473-474 | The last segment's accessor is bound to the value reached, and a failed lookup is passed on. |
| `PropertyResolverWalk.Walk` | src/main/java/io/github/astrapi69/model/property/PropertyResolver.java:388-475 | A null class throws. Only CREATE_NEW_VALUE changes the heap, the cache only gains classes, and under RETURN_NULL an accessor is bound only to a non-null object. |
| `PropertyResolverWalk.WalkFrom` | src/main/java/io/github/astrapi69/model/property/PropertyResolver.java:403-474 | A null class throws NullPointer before any lookup. |
| `PropertyResolverWalk.ContinueFrom` | src/main/java/io/github/astrapi69/model/property/PropertyResolver.java:434-471 | A segment that reads null stops with null under RETURN_NULL, and under RESOLVE_CLASS the walk goes on from the next dot with the accessor's target class. |
| `PropertyResolverWalk.MoveTo` | src/main/java/io/github/astrapi69/model/property/PropertyResolver.java:458-463 | The value reached becomes current and the heap is untouched. |
| `PropertyResolverWalk.Evaluate` | src/main/java/io/github/astrapi69/model/property/PropertyResolver.java:434-457 | Only CREATE_NEW_VALUE changes the heap. Under RETURN_NULL the walk continues only with a non-null value, and a null makes it return null. |
| `PropertyResolverWalk.LookupSegment` | src/main/java/io/github/astrapi69/model/property/PropertyResolver.java:412-433 | The lookup is of s[lastIndex..index], or of the segment joined with the next one after a failure. Cache entries are only added. |
| `PropertyResolverWalk.WalkFromKeepsHeap` | src/main/java/io/github/astrapi69/model/property/PropertyResolver.java:403-474 | Under RETURN_NULL and RESOLVE_CLASS the whole walk leaves every object as it was (by induction). |
| `PropertyResolverWalk.ContinueKeepsHeap` | src/main/java/io/github/astrapi69/model/property/PropertyResolver.java:434-471 | The same, from the middle of a pass. |
| `PropertyResolverWalk.WalkFromKeepsClasses` | src/main/java/io/github/astrapi69/model/property/PropertyResolver.java:403-474 | Every class the cache knew is still known after a walk. |
| `PropertyResolverWalk.ContinueKeepsClasses` | src/main/java/io/github/astrapi69/model/property/PropertyResolver.java:434-471 | The same, from the middle of a pass. |
| `PropertyResolverWalk.ReturnNullBindsNonNull` | src/main/java/io/github/astrapi69/model/property/PropertyResolver.java:439-456 | Under RETURN_NULL an accessor is only ever handed out bound to a non-null object. |
| `PropertyResolverWalk.ContinueBindsNonNull` | src/main/java/io/github/astrapi69/model/property/PropertyResolver.java:439-471 | The same, from the middle of a pass. |
| `PropertyResolverWalk.FinishWith` | src/main/java/io/github/astrapi69/model/property/PropertyResolver.java:473-474 | The final lookup through the cache object matches Finish. |
| `PropertyResolverWalk.WalkFromEmptySegment` | src/main/java/io/github/astrapi69/model/property/PropertyResolver.java:405-410 | An empty segment ends the loop: the rest after the dot is looked up as the last segment. |
| `PropertyResolverWalk.WalkFromSegment` | src/main/java/io/github/astrapi69/model/property/PropertyResolver.java:412-433 | A non-empty segment is looked up. A failure with no next segment makes the whole rest the last segment. |
| `PropertyResolverWalk.ContinueFromStep` | src/main/java/io/github/astrapi69/model/property/PropertyResolver.java:434-471 | After evaluation the walk stops with the answer or moves to the next dot. |
| `PropertyResolverWalk.LookupSegmentWith` | src/main/java/io/github/astrapi69/model/property/PropertyResolver.java:412-433 | The try/catch lookup on the cache object matches LookupSegment, cache included. |
| `PropertyResolverWalk.OnNull` | src/main/java/io/github/astrapi69/model/property/PropertyResolver.java:439-456 | A segment that reads null stops with null under RETURN_NULL, switches to the accessor's target class under RESOLVE_CLASS, and leaves the heap alone in both cases. |
| `PropertyResolverWalk.EvaluateWith` | src/main/java/io/github/astrapi69/model/property/PropertyResolver.java:434-463 | The statements of one evaluation match Evaluate. |
| `PropertyResolverWalk.OnNullWith` | src/main/java/io/github/astrapi69/model/property/PropertyResolver.java:439-456 | The branch on the policy matches OnNull. |
| `PropertyResolverWalk.ClassUpdate` | src/main/java/io/github/astrapi69/model/property/PropertyResolver.java:457-463 | The value reached, and its class when it is not null, are as MoveTo says. |
| `PropertyResolverWalk.GetObjectAndGetSetter` | src/main/java/io/github/astrapi69/model/property/PropertyResolver.java:388-475 | The method computes the specification Walk for every expression, object and policy. |
| `PropertyResolverWalk.WalkSegment` | src/main/java/io/github/astrapi69/model/property/PropertyResolver.java:403-433 | One loop pass either ends the walk with the specification's answer or keeps the specification equal from the next segment. |
| `PropertyResolverWalk.StepPastSegment` | src/main/java/io/github/astrapi69/model/property/PropertyResolver.java:434-471 | The second half of a pass, with the same two outcomes. |
| `PropertyResolverWalk.WalkSegments` | src/main/java/io/github/astrapi69/model/property/PropertyResolver.java:400-474 | The segment loop computes WalkFrom from the first dot. |
| `PropertyResolver.WalkObjectKeepsHeap` | src/main/java/io/github/astrapi69/model/property/PropertyResolver.java:371-375 | Reading and class resolution never change the heap. |
| `PropertyResolver.WalkObject` | src/main/java/io/github/astrapi69/model/property/PropertyResolver.java:371-375 | An object whose class cannot be taken gives that failure with cache and heap unchanged. Otherwise the walk starts from the object's class. Only CREATE_NEW_VALUE changes the heap, and the cache only gains classes. |
| `PropertyResolver.GetValue` | src/main/java/io/github/astrapi69/model/property/PropertyResolver.java:602-616 | A null or empty expression, or a null object, gives back the object itself. Reading never changes the heap. |
| `PropertyResolver.SetValue` | src/main/java/io/github/astrapi69/model/property/PropertyResolver.java:758-781 | An empty expression is refused, and so is a null object. Otherwise the walk creates missing values and the last accessor writes. |
| `PropertyResolver.WriteResolved` | src/main/java/io/github/astrapi69/model/property/PropertyResolver.java:774-780 | No accessor is a resolution failure. A failed write leaves the heap as it was. |
| `PropertyResolver.WriteBound` | src/main/java/io/github/astrapi69/model/property/PropertyResolver.java:774-780 | The end of setValue, statement by statement, computes WriteResolved. |
| `PropertyRoundTrip.PairOf` | src/main/java/io/github/astrapi69/model/property/PropertyResolver.java:320-324 | The accessor built for a getter: the getter with its found setter. |
| `PropertyRoundTrip.NoBracketFound` | src/main/java/io/github/astrapi69/model/property/PropertyResolver.java:390 | A string without `[` has no `[` to replace. |
| `PropertyRoundTrip.NormalWithoutBrackets` | src/main/java/io/github/astrapi69/model/property/PropertyResolver.java:390-399 | Text without `[` and no leading dot is left unchanged by the bracket replacement and the dot eating. |
| `PropertyRoundTrip.SegmentText` | src/main/java/io/github/astrapi69/model/property/PropertyResolver.java:390-399 | A segment is its own normal form, has no separating dot, and is not a bracket key. |
| `PropertyRoundTrip.PathText` | src/main/java/io/github/astrapi69/model/property/PropertyResolver.java:337-399 | `e1.e2` is its own normal form and splits at the one dot into `e1` and `e2`. |
| `PropertyRoundTrip.LookupShape` | src/main/java/io/github/astrapi69/model/property/PropertyResolver.java:181-327 | A lookup of a plain segment leaves the class's segment map as it was or adds exactly that segment's accessor. |
| `PropertyRoundTrip.LookupBean` | src/main/java/io/github/astrapi69/model/property/PropertyResolver.java:191-327 | A bean property resolves to its getter/setter accessor, which the cache then holds. |
| `PropertyRoundTrip.LookupKeepsEntry` | src/main/java/io/github/astrapi69/model/property/PropertyResolver.java:181-327 | An accessor the cache holds is still held after any other plain lookup. |
| `PropertyRoundTrip.LookupKeepsKnows` | src/main/java/io/github/astrapi69/model/property/PropertyResolver.java:181-327 | The cache never comes to hold a different accessor for a bean property. |
| `PropertyRoundTrip.WalkOneSegment` | src/main/java/io/github/astrapi69/model/property/PropertyResolver.java:388-475 | A one-segment expression goes straight to the final lookup. |
| `PropertyRoundTrip.LookupSegmentFound` | src/main/java/io/github/astrapi69/model/property/PropertyResolver.java:412-433 | A segment whose own lookup succeeds ends at its dot. |
| `PropertyRoundTrip.WalkTwoSegments` | src/main/java/io/github/astrapi69/model/property/PropertyResolver.java:388-475 | For `e1.e2` the accessor of `e1` is evaluated on the target. The walk stops there or finishes with `e2` on the value reached. |
| `PropertyRoundTrip.WalkObjectOnClass` | src/main/java/io/github/astrapi69/model/property/PropertyResolver.java:371-375 | On a non-null object the walk starts from its class. |
| `PropertyRoundTrip.SetValueIsWalkThenWrite` | src/main/java/io/github/astrapi69/model/property/PropertyResolver.java:758-781 | setValue is the CREATE_NEW_VALUE walk followed by the write through what it bound. |
| `PropertyRoundTrip.GetValueIsWalkThenRead` | src/main/java/io/github/astrapi69/model/property/PropertyResolver.java:602-616 | getValue is the RETURN_NULL walk followed by the read through what it bound. |
| `PropertyRoundTrip.WriteThroughBean` | src/main/java/io/github/astrapi69/model/property/PropertyResolver.java:774-780 | The final write through a bean setter changes only that field of the bean and reads back. |
| `PropertyRoundTrip.SetOneSegment` | src/main/java/io/github/astrapi69/model/property/PropertyResolver.java:758-781 | setValue of a bean property writes exactly the bean's field. |
| `PropertyRoundTrip.GetOneSegment` | src/main/java/io/github/astrapi69/model/property/PropertyResolver.java:602-616 | getValue of a cached bean property is its getter's answer on the target. |
| `PropertyRoundTrip.SetThenGetProperty` | src/test/java/io/github/astrapi69/model/PropertyModelTest.java:43-78 | setValue then getValue of a bean property on a bean succeeds and reads back the value, and the bean keeps its class. |
| `PropertyRoundTrip.EvaluateExisting` | src/main/java/io/github/astrapi69/model/property/PropertyResolver.java:434-463 | A first segment that reads a bean moves the walk to that bean and its class. |
| `PropertyRoundTrip.EvaluateCreated` | src/main/java/io/github/astrapi69/model/property/PropertyResolver.java:434-463 | A first segment that reads null under CREATE_NEW_VALUE appends a new bean of the getter's type, stores it through the setter, and moves to it. |
| `PropertyRoundTrip.EvaluateUnconstructible` | src/main/java/io/github/astrapi69/model/property/PropertyResolver.java:434-457 | A null first segment whose type cannot be instantiated makes the walk return null. |
| `PropertyRoundTrip.SetWalkReachesIntermediate` | src/main/java/io/github/astrapi69/model/property/PropertyResolver.java:388-475 | The write of `e1.e2` reaches the intermediate bean, the existing one or a created one now held in the first field. |
| `PropertyRoundTrip.ReadWalkThroughIntermediate` | src/main/java/io/github/astrapi69/model/property/PropertyResolver.java:388-475 | The RETURN_NULL walk of `e1.e2` through cached accessors binds the second accessor to the intermediate bean and changes neither cache nor heap. |
| `PropertyRoundTrip.CreateStepReachesIntermediate` | src/main/java/io/github/astrapi69/model/property/PropertyResolver.java:434-462 | Under CREATE_NEW_VALUE the step through the first getter/setter pair advances to the intermediate bean, existing or newly created, and leaves it in the first field of the target. |
| `PropertyRoundTrip.GetWalkThroughIntermediate` | src/main/java/io/github/astrapi69/model/property/PropertyResolver.java:602-616 | Reading `e1.e2` through a held intermediate bean is the second getter's answer on it. |
| `PropertyRoundTrip.SetNested` | src/main/java/io/github/astrapi69/model/property/PropertyResolver.java:758-781 | setValue of `e1.e2` writes the second field of the intermediate bean, and the cache then holds both accessors. |
| `PropertyRoundTrip.SetThenGetNested` | src/test/java/io/github/astrapi69/model/PropertyModelTest.java:43-61 | setValue then getValue of `e1.e2` succeeds and reads back the value, also when the intermediate bean had to be created. |
| `PropertyRoundTrip.ReadBackNested` | src/main/java/io/github/astrapi69/model/property/PropertyResolver.java:602-616 | After the second setter writes `v` into the intermediate bean, the target keeps its class and getValue of `e1.e2` reads `v`. |
| `PropertyRoundTrip.NullUnconstructibleFails` | src/test/java/io/github/astrapi69/model/PropertyModelTest.java:35-41 | A null first segment of a type that cannot be instantiated makes setValue fail and leaves the heap alone. |
| `PropertyRoundTrip.SetWalkStopsOnUnconstructible` | src/main/java/io/github/astrapi69/model/property/PropertyResolver.java:439-446 | Under CREATE_NEW_VALUE a null first segment whose type cannot be instantiated ends the walk with null and leaves the heap alone. |
| `PropertyRoundTrip.ModelSetThenGetProperty` | model-object/src/main/java/de/alpharogroup/model/AbstractPropertyModel.java:260-279 | A property model over a plain bean: setObject then getObject of a bean property keeps the target and answers the value written. |
| `PropertyRoundTrip.ModelSetThenGetNested` | src/test/java/io/github/astrapi69/model/PropertyModelTest.java:43-61 | The same for `e1.e2`, as testSetInnerProperty does with `person.name`. |
| `PropertyResolver.GetPropertyClass` | src/main/java/io/github/astrapi69/model/property/PropertyResolver.java:491-501 | A null expression throws, and the heap never changes. |
| `PropertyResolver.ResolveOnObject` | src/main/java/io/github/astrapi69/model/property/PropertyResolver.java:514-521 | A null object throws before anything else, and a null expression throws. |
| `PropertyResolver.GetPropertyClassOf` | src/main/java/io/github/astrapi69/model/property/PropertyResolver.java:514-523 | The answer succeeds exactly when resolution does, and then it is the accessor's target class. |
| `PropertyResolver.GetPropertyField` | src/main/java/io/github/astrapi69/model/property/PropertyResolver.java:536-545 | The same, with the accessor's field. |
| `PropertyResolver.GetPropertyGetter` | src/main/java/io/github/astrapi69/model/property/PropertyResolver.java:558-567 | The same, with the accessor's getter. |
| `PropertyResolver.GetPropertySetter` | src/main/java/io/github/astrapi69/model/property/PropertyResolver.java:581-590 | The same, with the accessor's setter. |
| `PropertyResolver.GetValueReadsThroughNonNull` | src/main/java/io/github/astrapi69/model/property/PropertyResolver.java:608-615 | The answer of getValue's walk binds a non-null object. |
| `PropertyResolver.PropertyResolver.constructor` | src/main/java/io/github/astrapi69/model/property/PropertyResolver.java:57-58 | The application map starts empty. |
| `PropertyResolver.PropertyResolver.DefaultEntries` | src/main/java/io/github/astrapi69/model/property/PropertyResolver.java:164-179 | Lookups use the entry under the resolver's own class, which is empty while none is installed. |
| `PropertyResolver.PropertyResolver.GetClassesToGetAndSetters` | src/main/java/io/github/astrapi69/model/property/PropertyResolver.java:164-179 | The answer is always the own-class entry, which is created empty and stored on first use. |
| `PropertyResolver.PropertyResolver.SetClassCache` | src/main/java/io/github/astrapi69/model/property/PropertyResolver.java:729-739 | A null cache throws NullPointerException and changes nothing. Otherwise a null application installs the cache for every lookup, and any other application is stored under its key. |
| `PropertyResolver.PropertyResolver.Destroy` | src/main/java/io/github/astrapi69/model/property/PropertyResolver.java:78-81 | The application's entry is removed, and a null key throws. |
| `PropertyResolver.PropertyResolver.GetValueOf` | src/main/java/io/github/astrapi69/model/property/PropertyResolver.java:602-616 | getValue on the resolver's cache object matches the GetValue function, and other scopes are untouched. |
| `PropertyResolver.PropertyResolver.SetValueOf` | src/main/java/io/github/astrapi69/model/property/PropertyResolver.java:758-781 | The same for setValue. |
| `PropertyResolver.PropertyResolver.GetPropertyClassFor` | src/main/java/io/github/astrapi69/model/property/PropertyResolver.java:491-501 | The same for getPropertyClass(expression, clz). |
| `PropertyResolver.PropertyResolver.GetPropertyClassOfObject` | src/main/java/io/github/astrapi69/model/property/PropertyResolver.java:514-523 | The same for getPropertyClass(expression, object). |
| `AbstractGetAndSet.GetField` | model-object/src/main/java/io/github/astrapi69/model/property/AbstractGetAndSet.java:33-36 | Only the field-backed variants report a field. |
| `AbstractGetAndSet.GetGetter` | model-object/src/main/java/io/github/astrapi69/model/property/AbstractGetAndSet.java:42-45 | Exactly the getter/setter pair reports a getter. |
| `AbstractGetAndSet.GetSetter` | model-object/src/main/java/io/github/astrapi69/model/property/AbstractGetAndSet.java:51-54 | Only the pair reports a setter, the one it was built with. |
| `AbstractGetAndSet.TargetClass` | model-object/src/main/java/io/github/astrapi69/model/property/AbstractGetAndSet.java:60-63 | The list and map accessors report none, which is the default. Every other variant reports its type. |
| `AbstractGetAndSet.CollectionNewValueIsNull` | model-object/src/main/java/io/github/astrapi69/model/property/ListGetSet.java:46-51 | The list, the map, and a pair without setter never construct anything. |
| `AbstractGetAndSet.SetValueKeepsHeapSize` | model-object/src/main/java/io/github/astrapi69/model/property/MethodGetAndSet.java:177-217 | A successful write of any accessor allocates nothing. |
| `AbstractGetAndSet.CollectionSetThenGet` | model-object/src/main/java/io/github/astrapi69/model/property/MapGetSet.java:33-57 | For the list, map and array accessors a successful write is read back. |
| `ObjectAndGetSetter.ObjectAndGetSetter.GetValue` | model-object/src/main/java/io/github/astrapi69/model/property/ObjectAndGetSetter.java:77-80 | Reading through a null bound object throws, whatever the accessor. |
| `ObjectAndGetSetter.ObjectAndGetSetter.SetValue` | model-object/src/main/java/io/github/astrapi69/model/property/ObjectAndGetSetter.java:88-91 | Writing through a null bound object throws, whatever the accessor. A successful write allocates no object. |
| `ObjectAndGetSetter.ObjectAndGetSetter.GetTargetClass` | model-object/src/main/java/io/github/astrapi69/model/property/ObjectAndGetSetter.java:69-72 | Only the list and map accessors report no target class. |
| `ObjectAndGetSetter.ObjectAndGetSetter.GetField` | model-object/src/main/java/io/github/astrapi69/model/property/ObjectAndGetSetter.java:45-48 | Only a method pair or a field accessor reports a field. A field accessor reports its backing field. |
| `ObjectAndGetSetter.ObjectAndGetSetter.GetGetter` | model-object/src/main/java/io/github/astrapi69/model/property/ObjectAndGetSetter.java:53-56 | A getter is reported exactly for a method pair, and it is the pair's getter method. |
| `ObjectAndGetSetter.ObjectAndGetSetter.GetSetter` | model-object/src/main/java/io/github/astrapi69/model/property/ObjectAndGetSetter.java:61-64 | A setter is reported only for a method pair, and it is the pair's setter method. |
| `ObjectAndGetSetter.BoundSetThenGet` | model-object/src/main/java/io/github/astrapi69/model/property/ObjectAndGetSetter.java:77-91 | A bound collection accessor reads back what it wrote. |
| `MethodGetAndSet.SetterName` | model-object/src/main/java/io/github/astrapi69/model/property/MethodGetAndSet.java:42-51 | The setter name is `set` plus either the getter name after `get` or the getter name after its first two characters. A name shorter than two that does not start with `get` throws. |
| `MethodGetAndSet.FirstAcceptingIndex` | model-object/src/main/java/io/github/astrapi69/model/property/MethodGetAndSet.java:58-80 | The scan gives the first method in getMethods() order that accepts the getter's type, or -1 exactly when none does. |
| `MethodGetAndSet.ExactSetterPreferred` | model-object/src/main/java/io/github/astrapi69/model/property/MethodGetAndSet.java:52-57 | A setter whose parameter is exactly the getter's type wins over any other accepting method. |
| `MethodGetAndSet.NoSetterIffNoAcceptingMethod` | model-object/src/main/java/io/github/astrapi69/model/property/MethodGetAndSet.java:40-84 | findSetter finds nothing exactly when no method of that name accepts the getter's type. |
| `MethodGetAndSet.FindSetter` | model-object/src/main/java/io/github/astrapi69/model/property/MethodGetAndSet.java:40-84 | The exact lookup followed by the loop over the public methods computes the specification. |
| `MethodGetAndSet.GetValue` | model-object/src/main/java/io/github/astrapi69/model/property/MethodGetAndSet.java:126-144 | Invoking the getter on null fails. |
| `MethodGetAndSet.SetValue` | model-object/src/main/java/io/github/astrapi69/model/property/MethodGetAndSet.java:177-217 | The setter is used if there is one, else the backing field. With neither, the write throws. |
| `MethodGetAndSet.SetterThenGetter` | model-object/src/main/java/io/github/astrapi69/model/property/MethodGetAndSet.java:126-217 | Writing through a bean setter is read back through its getter. |
| `MethodGetAndSet.FieldFallbackThenGetter` | model-object/src/main/java/io/github/astrapi69/model/property/MethodGetAndSet.java:190-205 | Without a setter the backing field is written, and a getter of that field reads it back. |
| `MethodGetAndSet.NewValue` | model-object/src/main/java/io/github/astrapi69/model/property/MethodGetAndSet.java:150-170 | With no setter, nothing is created and null is returned. A failed construction gives null with the heap unchanged. Otherwise the new instance is passed to the setter, the heap is the setter's result (or the heap after construction when the setter fails), and the instance is returned. |
| `MethodGetAndSet.NewValueThenGetter` | model-object/src/main/java/io/github/astrapi69/model/property/MethodGetAndSet.java:126-170 | On a bean with a getter/setter pair, newValue returns the new instance and the getter then reads that same instance. |
| `MethodGetAndSet.GetTargetClass` | model-object/src/main/java/io/github/astrapi69/model/property/MethodGetAndSet.java:117-120 | The getter's return type. |
| `FieldGetAndSetter.GetValue` | model-object/src/main/java/io/github/astrapi69/model/property/FieldGetAndSetter.java:63-74 | Field.get, succeeding exactly when the field read does. |
| `FieldGetAndSetter.SetValue` | model-object/src/main/java/io/github/astrapi69/model/property/FieldGetAndSetter.java:100-111 | A successful Field.set is read back by Field.get. |
| `FieldGetAndSetter.NewValue` | model-object/src/main/java/io/github/astrapi69/model/property/FieldGetAndSetter.java:80-94 | A failed construction gives null with the heap unchanged. Otherwise the new instance is stored in the field by Field.set (a failed store keeps the heap after construction), and it is returned. On a bean, the field then reads the new instance. |
| `ListGetSet.Nulls` | model-object/src/main/java/io/github/astrapi69/model/property/ListGetSet.java:70-74 | The padding consists of exactly n nulls. |
| `ListGetSet.ListGet` | model-object/src/main/java/io/github/astrapi69/model/property/ListGetSet.java:33-40 | A read at or past the end gives null. A read in range gives the element, and a negative index throws. |
| `ListGetSet.ListSet` | model-object/src/main/java/io/github/astrapi69/model/property/ListGetSet.java:58-78 | The write fails exactly for a negative index. |
| `ListGetSet.SetBelowSizeOverwrites` | model-object/src/main/java/io/github/astrapi69/model/property/ListGetSet.java:62-65 | Below the size, only the indexed position changes. |
| `ListGetSet.SetAtSizeAppends` | model-object/src/main/java/io/github/astrapi69/model/property/ListGetSet.java:66-69 | At the size, exactly one element is appended. |
| `ListGetSet.SetBeyondSizePads` | model-object/src/main/java/io/github/astrapi69/model/property/ListGetSet.java:70-77 | Beyond the size, the gap is filled with nulls and the new size is index + 1. |
| `ListGetSet.SetThenGet` | model-object/src/main/java/io/github/astrapi69/model/property/ListGetSet.java:33-78 | A successful write is read back, and the other old elements stay. |
| `ListGetSet.GetValue` | model-object/src/main/java/io/github/astrapi69/model/property/ListGetSet.java:33-40 | A null list throws. |
| `ListGetSet.SetValue` | model-object/src/main/java/io/github/astrapi69/model/property/ListGetSet.java:58-78 | The list is updated in place, no other object changes, and the written value is read back. |
| `ListGetSet.NewValue` | model-object/src/main/java/io/github/astrapi69/model/property/ListGetSet.java:46-51 | Returns null and leaves the heap alone. |
| `ListGetSet.JavaList.constructor` | model-object/src/main/java/io/github/astrapi69/model/property/ListGetSet.java:33-40 | A list holding the given elements. |
| `ListGetSet.ListGetSet.constructor` | model-object/src/main/java/io/github/astrapi69/model/property/ListGetSet.java:24-27 | The accessor keeps its index. |
| `ListGetSet.ListGetSet.GetValue` | model-object/src/main/java/io/github/astrapi69/model/property/ListGetSet.java:34-39 | On the list: at or past the size null, in range the element, a negative index throws. |
| `ListGetSet.ListGetSet.SetValue` | model-object/src/main/java/io/github/astrapi69/model/property/ListGetSet.java:59-77 | The padding loop leaves the list as ListSet says, or unchanged with an exception for a negative index. |
| `ListGetSet.ListGetSet.NewValue` | model-object/src/main/java/io/github/astrapi69/model/property/ListGetSet.java:47-50 | Returns null. |
| `MapGetSet.MapGet` | model-object/src/main/java/io/github/astrapi69/model/property/MapGetSet.java:33-36 | The entry for the key, or null when there is none. |
| `MapGetSet.MapPut` | model-object/src/main/java/io/github/astrapi69/model/property/MapGetSet.java:54-57 | Exactly the entry for the key is replaced or added. |
| `MapGetSet.PutThenGet` | model-object/src/main/java/io/github/astrapi69/model/property/MapGetSet.java:33-57 | A put is read back, and every other key reads as before. |
| `MapGetSet.GetValue` | model-object/src/main/java/io/github/astrapi69/model/property/MapGetSet.java:34-35 | A null map throws. A successful read is the entry of the map object. |
| `MapGetSet.SetValue` | model-object/src/main/java/io/github/astrapi69/model/property/MapGetSet.java:55-56 | The map object is updated in place, other keys and objects are unchanged, and the value is read back. |
| `MapGetSet.NewValue` | model-object/src/main/java/io/github/astrapi69/model/property/MapGetSet.java:42-47 | Never creates anything. |
| `MapGetSet.JavaMap.constructor` | model-object/src/main/java/io/github/astrapi69/model/property/MapGetSet.java:33-36 | A map holding the given entries. |
| `MapGetSet.MapGetSet.constructor` | model-object/src/main/java/io/github/astrapi69/model/property/MapGetSet.java:24-27 | The accessor keeps its key. |
| `MapGetSet.MapGetSet.GetValue` | model-object/src/main/java/io/github/astrapi69/model/property/MapGetSet.java:33-36 | The entry for a present key, and null for an absent one. |
| `MapGetSet.MapGetSet.SetValue` | model-object/src/main/java/io/github/astrapi69/model/property/MapGetSet.java:54-57 | Map.put on the object. |
| `MapGetSet.MapGetSet.NewValue` | model-object/src/main/java/io/github/astrapi69/model/property/MapGetSet.java:43-46 | Returns null. |
| `ArrayGetSet.ArrayGet` | model-object/src/main/java/de/alpharogroup/model/property/ArrayGetSet.java:48-55 | A read in range gives the element, at or past the length null, and a negative index throws. |
| `ArrayGetSet.ArraySet` | model-object/src/main/java/de/alpharogroup/model/property/ArrayGetSet.java:81-84 | Array.set changes only the indexed slot and never the length. In the model it fails exactly when out of bounds, because element types are not checked. |
| `ArrayGetSet.SetThenGet` | model-object/src/main/java/de/alpharogroup/model/property/ArrayGetSet.java:48-84 | A write within bounds is read back. |
| `ArrayGetSet.GetValue` | model-object/src/main/java/de/alpharogroup/model/property/ArrayGetSet.java:49-54 | A null array throws. |
| `ArrayGetSet.SetValue` | model-object/src/main/java/de/alpharogroup/model/property/ArrayGetSet.java:82-83 | Only the array object changes, its length is kept, and the value is read back. |
| `ArrayGetSet.NewValue` | model-object/src/main/java/de/alpharogroup/model/property/ArrayGetSet.java:61-75 | A new component instance is stored and returned, and any failure is swallowed. When the store fails, the new instance is still returned. |
| `ArrayGetSet.ArrayGetSet.constructor` | model-object/src/main/java/de/alpharogroup/model/property/ArrayGetSet.java:29-33 | The accessor keeps its component type and index. |
| `ArrayGetSet.ArrayGetSet.GetTargetClass` | model-object/src/main/java/de/alpharogroup/model/property/ArrayGetSet.java:39-42 | The component type. |
| `ArrayGetSet.ArrayGetSet.GetValue` | model-object/src/main/java/de/alpharogroup/model/property/ArrayGetSet.java:48-55 | Reads a Dafny array as ArrayGet says. |
| `ArrayGetSet.ArrayGetSet.SetValue` | model-object/src/main/java/de/alpharogroup/model/property/ArrayGetSet.java:81-84 | Writes the array slot in place as ArraySet says, or throws and changes nothing. |
| `ArrayGetSet.ArrayGetSet.NewValue` | model-object/src/main/java/de/alpharogroup/model/property/ArrayGetSet.java:61-75 | The constructed instance is stored in range and returned even when out of range. A failed construction gives null. |
| `ArrayLengthGetSet.GetValue` | model-object/src/main/java/io/github/astrapi69/model/property/ArrayLengthGetSet.java:39-42 | The read succeeds exactly on an array and gives its length. |
| `ArrayLengthGetSet.SetValue` | model-object/src/main/java/io/github/astrapi69/model/property/ArrayLengthGetSet.java:57-60 | Always refused. |
| `ArrayLengthGetSet.NewValue` | model-object/src/main/java/io/github/astrapi69/model/property/ArrayLengthGetSet.java:48-51 | Always refused. |
| `ArrayLengthGetSet.GetTargetClass` | model-object/src/main/java/io/github/astrapi69/model/property/ArrayLengthGetSet.java:30-33 | int. |
| `ArrayPropertyGetSet.FindIndexedSetter` | src/main/java/io/github/astrapi69/model/property/ArrayPropertyGetSet.java:38-51 | A getter name shorter than three throws. Otherwise the result is `set`+rest taking (int, return type) when it exists, and none exactly when it does not. |
| `ArrayPropertyGetSet.GetValue` | src/main/java/io/github/astrapi69/model/property/ArrayPropertyGetSet.java:66-85 | A null object throws. |
| `ArrayPropertyGetSet.SetValueWith` | src/main/java/io/github/astrapi69/model/property/ArrayPropertyGetSet.java:122-153 | With no setter, the write throws. Otherwise the setter is invoked with (index, value). |
| `ArrayPropertyGetSet.NewValueWith` | src/main/java/io/github/astrapi69/model/property/ArrayPropertyGetSet.java:91-116 | With no setter, it gives null without constructing anything. A failed construction gives null with the heap unchanged. Otherwise the setter is invoked with (index, new instance), its heap is kept when it succeeds, and the instance is returned. |
| `ArrayPropertyGetSet.SetterFor` | src/main/java/io/github/astrapi69/model/property/ArrayPropertyGetSet.java:95-97 | The setter is looked up from the class of the object given, and a null object throws. |
| `ArrayPropertyGetSet.SetThenGet` | src/main/java/io/github/astrapi69/model/property/ArrayPropertyGetSet.java:66-153 | Writing an element through the indexed setter is read back through the indexed getter. |
| `ArrayPropertyGetSet.NewValueThenGet` | src/main/java/io/github/astrapi69/model/property/ArrayPropertyGetSet.java:66-116 | Through an indexed getter/setter pair at an in-range index, newValue returns the new instance and the indexed getter then reads it. |
| `ArrayPropertyGetSet.RememberedSetterIsReused` | src/main/java/io/github/astrapi69/model/property/ArrayPropertyGetSet.java:95-98 | Two writes through one accessor on objects of the same class each compute the stateless SetValue: the remembered setter is the one a fresh lookup would find. |
| `ArrayPropertyGetSet.ArrayPropertyGetSet.constructor` | src/main/java/io/github/astrapi69/model/property/ArrayPropertyGetSet.java:29-34 | The remembered setter starts unknown. |
| `ArrayPropertyGetSet.ArrayPropertyGetSet.GetTargetClass` | src/main/java/io/github/astrapi69/model/property/ArrayPropertyGetSet.java:57-60 | The getter's return type. |
| `ArrayPropertyGetSet.ArrayPropertyGetSet.Memoise` | src/main/java/io/github/astrapi69/model/property/ArrayPropertyGetSet.java:95-98 | The setter is looked up only while none is remembered, and a found one is kept. |
| `ArrayPropertyGetSet.ArrayPropertyGetSet.NewValue` | src/main/java/io/github/astrapi69/model/property/ArrayPropertyGetSet.java:91-116 | Remembers the setter, then behaves as NewValueWith. |
| `ArrayPropertyGetSet.ArrayPropertyGetSet.SetValue` | src/main/java/io/github/astrapi69/model/property/ArrayPropertyGetSet.java:122-153 | Remembers the setter, then behaves as SetValueWith. |
| `ModelWorld.ForwardIf` | src/main/java/io/github/astrapi69/model/ChainingModel.java:56-62 | The `instanceof` guard passes on exactly one call when the object implements the interface, and none otherwise. |
| `ModelWorld.NothingForwardedToNull` | src/main/java/io/github/astrapi69/model/Model.java:181-187 | A null object is never sent attach or detach. |
| `ModelWorld.CallOn` | src/main/java/io/github/astrapi69/model/LambdaModel.java:158-168 | Calling a nested model throws exactly when it is null, and otherwise passes the call on. |
| `ModelWorld.Then` | src/main/java/io/github/astrapi69/model/LambdaBindingModel.java:80-85 | The second statement runs only when the first ends normally. |
| `ModelWorld.ModelObject` | src/main/java/io/github/astrapi69/model/LambdaModel.java:173 | `target.getObject()` throws exactly for a null model reference. |
| `ChainingModel.ObjectOf` | src/main/java/io/github/astrapi69/model/ChainingModel.java:104-111 | A model target answers its object, and a plain target answers itself. |
| `ChainingModel.SetThrough` | src/main/java/io/github/astrapi69/model/ChainingModel.java:118-128 | A model target is written through and kept, and a plain target is replaced. |
| `ChainingModel.SetThenGet` | src/main/java/io/github/astrapi69/model/ChainingModel.java:104-128 | When nested models behave like boxes, what is written is what is read. |
| `ChainingModel.SetModelChains` | src/main/java/io/github/astrapi69/model/ChainingModel.java:118-128 | Writing a model into a plain target chains to it. |
| `ChainingModel.Innermost` | src/main/java/io/github/astrapi69/model/ChainingModel.java:166-179 | The answer is a non-model or a model answering itself, and a non-model start answers itself. None means the loop has not ended within the bound. |
| `ChainingModel.InnermostMoreFuel` | src/main/java/io/github/astrapi69/model/ChainingModel.java:166-179 | A larger bound never changes an answer already reached. |
| `ChainingModel.InnermostOfOneModel` | src/main/java/io/github/astrapi69/model/ChainingModel.java:166-179 | A model holding a plain object unwraps to that object. |
| `ChainingModel.TwoCycleDoesNotSettle` | src/main/java/io/github/astrapi69/model/ChainingModel.java:169-177 | Two models answering each other never settle, so the Java loop does not terminate. |
| `ChainingModel.InnermostModelOrObject` | src/main/java/io/github/astrapi69/model/ChainingModel.java:166-179 | The unwrapping loop computes Innermost. |
| `ChainingModel.ChainingModel.constructor` | src/main/java/io/github/astrapi69/model/ChainingModel.java:47-50 | Stores the target. |
| `ChainingModel.ChainingModel.Attach` | src/main/java/io/github/astrapi69/model/ChainingModel.java:56-62 | Passed on exactly when the target is Attachable. |
| `ChainingModel.ChainingModel.Detach` | src/main/java/io/github/astrapi69/model/ChainingModel.java:68-75 | Passed on exactly when the target is IDetachable. |
| `ChainingModel.ChainingModel.GetChainedModel` | src/main/java/io/github/astrapi69/model/ChainingModel.java:81-88 | The target exactly when it is a model, and null otherwise. |
| `ChainingModel.ChainingModel.SetChainedModel` | src/main/java/io/github/astrapi69/model/ChainingModel.java:94-97 | The target becomes the given model. |
| `ChainingModel.ChainingModel.SetTarget` | src/main/java/io/github/astrapi69/model/ChainingModel.java:145-149 | Replaces the target and returns the model itself. |
| `ChainingModel.ChainingModel.SetObject` | src/main/java/io/github/astrapi69/model/ChainingModel.java:118-128 | The new target and heap are those of SetThrough. |
| `ChainingModel.ChainingModel.GetObject` | src/main/java/io/github/astrapi69/model/ChainingModel.java:104-112 | A plain target is answered itself, and a model target is asked for its object. |
| `ChainingModel.ChainingModel.GetInnermostModelOrObject` | src/main/java/io/github/astrapi69/model/ChainingModel.java:166-179 | Innermost of the target. |
| `PropertyModel.InnermostOrFail` | model-object/src/main/java/de/alpharogroup/model/AbstractPropertyModel.java:61-74 | The innermost object, or the error that stands for a loop that has not ended. |
| `PropertyModel.PropertyGet` | model-object/src/main/java/de/alpharogroup/model/AbstractPropertyModel.java:81-101 | An empty expression answers the innermost object. A leading `.` is refused with IllegalArgument. A null innermost object answers null, and anything else is read by the resolver. The heap never changes. |
| `PropertyModel.PropertyClass` | model-object/src/main/java/de/alpharogroup/model/AbstractPropertyModel.java:108-150 | A null innermost object gives null. An empty expression gives the object's class. Otherwise the resolver's class is used, with exceptions turned into null. |
| `PropertyModel.PropertySet` | model-object/src/main/java/de/alpharogroup/model/AbstractPropertyModel.java:260-279 | An empty expression writes like a chaining model. Otherwise the target is kept and the resolver sets the path on the innermost object. |
| `PropertyModel.EmptyExpressionSetThenGet` | model-object/src/main/java/de/alpharogroup/model/AbstractPropertyModel.java:81-279 | With an empty expression, a plain value written is read back, through any box-like nested model. |
| `PropertyModel.PropertySetKeepsTarget` | model-object/src/main/java/de/alpharogroup/model/AbstractPropertyModel.java:271-278 | With an expression, the target is never replaced. |
| `PropertyModel.LeadingDotOnlyRefusedOnRead` | model-object/src/main/java/de/alpharogroup/model/AbstractPropertyModel.java:89-93 | A leading `.` is refused by getObject but handed to the resolver by setObject. |
| `PropertyModel.ExpressionText` | model-object/src/main/java/io/github/astrapi69/model/PropertyModel.java:122-127 | A null expression prints as `null`. |
| `PropertyModel.PropertyModel.constructor` | model-object/src/main/java/io/github/astrapi69/model/PropertyModel.java:87-91 | A chaining model over the target, with the expression fixed. |
| `PropertyModel.PropertyModel.Of` | model-object/src/main/java/io/github/astrapi69/model/PropertyModel.java:104-107 | A new model, the same as the constructor's. |
| `PropertyModel.PropertyModel.GetInnermostModelOrObject` | model-object/src/main/java/de/alpharogroup/model/AbstractPropertyModel.java:61-74 | Innermost of the target. |
| `PropertyModel.PropertyModel.GetObject` | model-object/src/main/java/de/alpharogroup/model/AbstractPropertyModel.java:81-101 | The answer and the resolver cache are those of PropertyGet. |
| `PropertyModel.PropertyModel.GetObjectClass` | model-object/src/main/java/de/alpharogroup/model/AbstractPropertyModel.java:108-150 | The answer and the resolver cache are those of PropertyClass. |
| `PropertyModel.PropertyModel.SetObject` | model-object/src/main/java/de/alpharogroup/model/AbstractPropertyModel.java:260-279 | The target, heap, cache and answer are those of PropertySet. |
| `GenericModel.Model.Empty` | src/main/java/io/github/astrapi69/model/Model.java:47-59 | The no-argument constructor holds null. |
| `GenericModel.Model.constructor` | src/main/java/io/github/astrapi69/model/Model.java:67-70 | Holds the given object. |
| `GenericModel.Model.Of` | src/main/java/io/github/astrapi69/model/Model.java:142-145 | A new empty model. |
| `GenericModel.Model.OfObject` | src/main/java/io/github/astrapi69/model/Model.java:172-175 | A new model holding the object. |
| `GenericModel.Model.OfModel` | src/main/java/io/github/astrapi69/model/Model.java:157-160 | The argument itself. |
| `GenericModel.Model.SetObject` | src/main/java/io/github/astrapi69/model/Model.java:48-59 | Replaces the object. |
| `GenericModel.Model.Attach` | src/main/java/io/github/astrapi69/model/Model.java:181-187 | Passed on exactly when the object is Attachable. |
| `GenericModel.Model.Detach` | src/main/java/io/github/astrapi69/model/Model.java:193-199 | Passed on exactly when the object is IDetachable. |
| `GenericModel.Model.GetObjectClass` | src/main/java/io/github/astrapi69/model/Model.java:206-209 | Null exactly for a null object, and otherwise the runtime class. |
| `GenericModel.BoxKeepsLastObject` | src/main/java/io/github/astrapi69/model/Model.java:47-70 | The constructor's object is read back, and then each later setObject's. |
| `LoadableDetachableModel.LoadableDetachableModel.constructor` | model-object/src/main/java/io/github/astrapi69/model/LoadableDetachableModel.java:50-61 | Starts detached with no object. |
| `LoadableDetachableModel.LoadableDetachableModel.WithObject` | model-object/src/main/java/io/github/astrapi69/model/LoadableDetachableModel.java:70-74 | Starts attached, holding the already retrieved object. |
| `LoadableDetachableModel.LoadableDetachableModel.Detach` | model-object/src/main/java/io/github/astrapi69/model/LoadableDetachableModel.java:88-102 | An attached model runs onDetach and is then cleared, even when the hook throws. A detached one is left alone. |
| `LoadableDetachableModel.LoadableDetachableModel.GetObject` | model-object/src/main/java/io/github/astrapi69/model/LoadableDetachableModel.java:108-117 | load runs once per detached period, before onAttach. A load that throws leaves the model attached and empty, and an attached model never loads. |
| `LoadableDetachableModel.LoadableDetachableModel.SetObject` | model-object/src/main/java/io/github/astrapi69/model/LoadableDetachableModel.java:127-131 | Stores the object and counts as attached, so no load follows. |
| `LoadableDetachableModel.LoadableDetachableModel.IsAttached` | model-object/src/main/java/io/github/astrapi69/model/LoadableDetachableModel.java:138-141 | The flag. |
| `LoadableDetachableModel.DetachedText` | model-object/src/main/java/io/github/astrapi69/model/LoadableDetachableModel.java:170-176 | toString of a detached model shows `attached=false` and an object of `null`. |
| `LoadableDetachableModel.AttachedText` | model-object/src/test/java/io/github/astrapi69/model/ModelToStringTest.java:60-76 | toString of an attached model holding "foo" shows `attached=true` and `foo`. |
| `LoadableDetachableModel.FailedLoadIsNotRetried` | model-object/src/main/java/io/github/astrapi69/model/LoadableDetachableModel.java:108-117 | After a load that throws, the next getObject answers null without loading again. |
| `LoadableDetachableModel.LoadDetachCycle` | model-object/src/test/java/io/github/astrapi69/model/ModelToStringTest.java:60-76 | The toString test sequence: detached, then attached with "foo" after one load, then detached again. |
| `LambdaModel.GetObject` | src/main/java/io/github/astrapi69/model/LambdaModel.java:170-179 | The closure variant answers its supplier. The target variants answer null for a null target object and otherwise apply the getter, and a null target throws. |
| `LambdaModel.SetObject` | src/main/java/io/github/astrapi69/model/LambdaModel.java:181-189 | The closure variant calls its consumer, and the read-only variant refuses. The target variant ignores a null target object and otherwise applies the setter. |
| `LambdaModel.Attach` | src/main/java/io/github/astrapi69/model/LambdaModel.java:158-162 | The closure variant refuses, and the target variants pass the call on to the target model. |
| `LambdaModel.Detach` | src/main/java/io/github/astrapi69/model/LambdaModel.java:164-168 | The closure variant refuses, and the target variants pass the call on to the target model. |
| `LambdaModel.OfTargetAsWritten` | src/main/java/io/github/astrapi69/model/LambdaModel.java:148-154 | As written, every target is accepted, null included. |
| `LambdaModel.OfTarget` | src/main/java/io/github/astrapi69/model/LambdaModel.java:148-191 | Corrected: a null target is refused at once, and any other target is wrapped. |
| `LambdaModel.NullTargetAcceptedAsWritten` | src/main/java/io/github/astrapi69/model/LambdaModel.java:151-168 | As written, the model over a null target is built and then throws on every use. |
| `LambdaModel.CorrectedFactoryModelsAttach` | src/main/java/io/github/astrapi69/model/LambdaModel.java:158-179 | A model from the corrected factory never throws for want of a target. |
| `LambdaModel.NullTargetObjectIgnoresWrites` | src/main/java/io/github/astrapi69/model/LambdaModel.java:170-189 | While the target model holds null, reads answer null and writes change nothing. |
| `LambdaModel.ReadOnlyRefusesWrites` | src/main/java/io/github/astrapi69/model/LambdaModel.java:215-252 | The read-only variant refuses every write and reads like the writable one. |
| `LambdaModel.SetThenGetThroughField` | src/test/java/io/github/astrapi69/model/LambdaModelTest.java:111-121 | A property model over a bean with a field's getter and setter reads back what was written. |
| `LambdaModel.ClosuresOverField` | src/main/java/io/github/astrapi69/model/LambdaModel.java:88-121 | The closure variant over a bean's field writes to the bean and reads from it. |
| `LambdaBindingModel.Attach` | src/main/java/io/github/astrapi69/model/LambdaBindingModel.java:80-85 | The source, then the target. A null source throws before the target is reached. |
| `LambdaBindingModel.Detach` | src/main/java/io/github/astrapi69/model/LambdaBindingModel.java:87-92 | The same for detach. |
| `LambdaBindingModel.SourceSetter` | src/main/java/io/github/astrapi69/model/LambdaBindingModel.java:105-118 | The shared setter for the shared variant, the source setter for the two-sided one. |
| `LambdaBindingModel.TargetSetter` | src/main/java/io/github/astrapi69/model/LambdaBindingModel.java:105-118 | The shared setter again, or the target setter. |
| `LambdaBindingModel.SetObject` | src/main/java/io/github/astrapi69/model/LambdaBindingModel.java:105-118 | Writes the source object, then the target object as it is after that write. A null source throws. |
| `LambdaBindingModel.SharedGetObject` | src/main/java/io/github/astrapi69/model/LambdaBindingModel.java:94-103 | A null source object gives null, and otherwise its property. |
| `LambdaBindingModel.TwoSidedGetObjectAsWritten` | src/main/java/io/github/astrapi69/model/LambdaBindingModel.java:185-204 | As written: a null source or target model throws. A null source object answers null beside a null target object and otherwise hands null to the source getter. The heap changes only when both objects are non-null and the source getter gives a non-null value different from the target getter's. That value is then written by the target setter, and the answer is the source getter on the new heap. |
| `LambdaBindingModel.TwoSidedGetObject` | src/main/java/io/github/astrapi69/model/LambdaBindingModel.java:185-204 | Corrected: a null source object beside a non-null target object answers null. Every other case is as written. |
| `LambdaBindingModel.GetObjectAsWritten` | src/main/java/io/github/astrapi69/model/LambdaBindingModel.java:94-204 | getObject of either variant as written: the shared variant's read, or the two-sided read as written. |
| `LambdaBindingModel.GetObject` | src/main/java/io/github/astrapi69/model/LambdaBindingModel.java:94-204 | The corrected getObject: the shared variant's read, or the corrected two-sided read. It equals the read as written in every case except a null source object beside a non-null target model. |
| `LambdaBindingModel.BothNullReadsNull` | src/main/java/io/github/astrapi69/model/LambdaBindingModel.java:190-193 | Both objects null: the read answers null and writes nothing. |
| `LambdaBindingModel.NullSourceObjectThrowsAsWritten` | src/main/java/io/github/astrapi69/model/LambdaBindingModel.java:194-203 | As written, a null source object beside a non-null target hands null to the source getter, which throws: GetObjectAsWritten gives NullPointer. The corrected GetObject answers null. |
| `LambdaBindingModel.SetWritesBothSides` | src/test/java/io/github/astrapi69/model/LambdaBindingModelTest.java:55-87 | With field setters on two distinct beans, both fields hold the written value. |
| `LambdaBindingModel.ReadCopiesSourceToTarget` | src/main/java/io/github/astrapi69/model/LambdaBindingModel.java:194-203 | A set source value that differs from the target's is copied into the target bean and answered. |
| `LambdaBindingModel.SetSkipsNullObjects` | src/main/java/io/github/astrapi69/model/LambdaBindingModel.java:206-219 | While both models hold null, a write changes nothing and ends normally. |
| `CachingMethodResolver.WrappedResolver.GetId` | src/main/java/io/github/astrapi69/model/reflect/IMethodResolver.java:36 | The wrapped resolver's answer, counted. |
| `CachingMethodResolver.WrappedResolver.GetMethod` | src/main/java/io/github/astrapi69/model/reflect/IMethodResolver.java:47 | The wrapped resolver's answer, counted. |
| `CachingMethodResolver.WrappedResolver.GetSetter` | src/main/java/io/github/astrapi69/model/reflect/IMethodResolver.java:56 | The wrapped resolver's answer, counted. |
| `CachingMethodResolver.IdStep` | model-type-safe/src/main/java/de/alpharogroup/model/reflect/CachingMethodResolver.java:43-52 | A null method throws. The wrapped resolver is asked exactly when no non-null id is stored, and an id answered is never null. |
| `CachingMethodResolver.MethodStep` | model-type-safe/src/main/java/de/alpharogroup/model/reflect/CachingMethodResolver.java:55-67 | A null owner throws. The wrapped resolver is asked exactly when the key `owner:id` is not stored. |
| `CachingMethodResolver.SetterStep` | model-type-safe/src/main/java/de/alpharogroup/model/reflect/CachingMethodResolver.java:70-81 | A null getter throws. The wrapped resolver is asked exactly on a miss. |
| `CachingMethodResolver.IdStepTransparent` | model-type-safe/src/main/java/de/alpharogroup/model/reflect/CachingMethodResolver.java:43-52 | From a faithful memo, getId answers what the wrapped resolver answers, with a null answer as the exception, and the memo stays faithful. |
| `CachingMethodResolver.SetterStepTransparent` | model-type-safe/src/main/java/de/alpharogroup/model/reflect/CachingMethodResolver.java:70-81 | The same for getSetter. |
| `CachingMethodResolver.MethodStepTransparent` | model-type-safe/src/main/java/de/alpharogroup/model/reflect/CachingMethodResolver.java:55-67 | The same for getMethod, as long as ids that share a key text are answered alike. |
| `CachingMethodResolver.SharedKeySharesMethod` | model-type-safe/src/main/java/de/alpharogroup/model/reflect/CachingMethodResolver.java:57-58 | Two ids with the same text share the stored method, and the second is not forwarded. |
| `CachingMethodResolver.RepeatedQuestionsAreNotForwarded` | model-type-safe/src/main/java/de/alpharogroup/model/reflect/CachingMethodResolver.java:43-81 | A repeated successful question is answered from the memo with the same answer. |
| `CachingMethodResolver.ApplicationScope.constructor` | model-type-safe/src/main/java/de/alpharogroup/model/reflect/CachingMethodResolver.java:33-40 | The three maps start empty. |
| `CachingMethodResolver.ApplicationScope.GetId` | model-type-safe/src/main/java/de/alpharogroup/model/reflect/CachingMethodResolver.java:43-52 | The maps and answer are those of IdStep. |
| `CachingMethodResolver.ApplicationScope.GetMethod` | model-type-safe/src/main/java/de/alpharogroup/model/reflect/CachingMethodResolver.java:55-67 | The maps and answer are those of MethodStep. |
| `CachingMethodResolver.ApplicationScope.GetSetter` | model-type-safe/src/main/java/de/alpharogroup/model/reflect/CachingMethodResolver.java:70-81 | The maps and answer are those of SetterStep. |
| `CachingMethodResolver.CachingMethodResolver.Maps` | model-type-safe/src/main/java/de/alpharogroup/model/reflect/CachingMethodResolver.java:110-127 | The maps the own-class scope holds, empty while no scope exists. |
| `CachingMethodResolver.CachingMethodResolver.constructor` | model-type-safe/src/main/java/de/alpharogroup/model/reflect/CachingMethodResolver.java:88-91 | No scopes. |
| `CachingMethodResolver.CachingMethodResolver.Destroy` | model-type-safe/src/main/java/de/alpharogroup/model/reflect/CachingMethodResolver.java:93-96 | Removes the scope, and a null key throws. |
| `CachingMethodResolver.CachingMethodResolver.GetResolver` | model-type-safe/src/main/java/de/alpharogroup/model/reflect/CachingMethodResolver.java:110-127 | The stored scope, or a new empty one stored on first use. |
| `CachingMethodResolver.CachingMethodResolver.GetId` | model-type-safe/src/main/java/de/alpharogroup/model/reflect/CachingMethodResolver.java:99-102 | IdStep on the scope's maps. Other scopes are untouched. |
| `CachingMethodResolver.CachingMethodResolver.GetMethod` | model-type-safe/src/main/java/de/alpharogroup/model/reflect/CachingMethodResolver.java:105-108 | MethodStep on the scope's maps. |
| `CachingMethodResolver.CachingMethodResolver.GetSetter` | model-type-safe/src/main/java/de/alpharogroup/model/reflect/CachingMethodResolver.java:130-133 | SetterStep on the scope's maps. |
| `CachingMethodResolver.AskEachTwice` | model-type-safe/src/test/java/io/github/astrapi69/model/reflect/CachingMethodResolverTest.java:35-79 | Each of getId, getMethod and getSetter, asked twice, reaches the wrapped resolver once, so the count reads 1, 2 and 3. |
| `CachingMethodResolver.DestroyForgetsAnswers` | model-type-safe/src/main/java/de/alpharogroup/model/reflect/CachingMethodResolver.java:93-127 | After destroy, getResolver creates a new empty scope, so a question already answered is forwarded again. |
| `CachingProxyFactory.Reported` | src/main/java/io/github/astrapi69/model/reflect/CachingProxyFactory.java:98-103 | The sentinel is reported as null, and only the sentinel is. |
| `CachingProxyFactory.Recorded` | src/main/java/io/github/astrapi69/model/reflect/CachingProxyFactory.java:88-96 | The entry recorded for an answer reports that answer. |
| `CachingProxyFactory.CreateClassStep` | src/main/java/io/github/astrapi69/model/reflect/CachingProxyFactory.java:85-104 | A null class throws. The wrapped factory is asked exactly for a class not yet in the memo. |
| `CachingProxyFactory.CreateClassTransparent` | src/main/java/io/github/astrapi69/model/reflect/CachingProxyFactory.java:85-104 | From a faithful memo, createClass answers what the wrapped factory answers, the unproxyable null included, and the memo stays faithful. |
| `CachingProxyFactory.SecondCreateClassIsRemembered` | src/main/java/io/github/astrapi69/model/reflect/CachingProxyFactory.java:88-97 | A second request for the same class is not forwarded and gets the same answer. |
| `CachingProxyFactory.ApplicationScope.constructor` | src/main/java/io/github/astrapi69/model/reflect/CachingProxyFactory.java:79-82 | The memo starts empty. |
| `CachingProxyFactory.ApplicationScope.CreateClass` | src/main/java/io/github/astrapi69/model/reflect/CachingProxyFactory.java:85-104 | The memo and answer are those of CreateClassStep, counting one wrapped call on a miss. |
| `CachingProxyFactory.ApplicationScope.CreateInstance` | src/main/java/io/github/astrapi69/model/reflect/CachingProxyFactory.java:107-110 | Always forwarded. |
| `CachingProxyFactory.ApplicationScope.GetCallback` | src/main/java/io/github/astrapi69/model/reflect/CachingProxyFactory.java:113-116 | Always forwarded. |
| `CachingProxyFactory.CachingProxyFactory.Memo` | src/main/java/io/github/astrapi69/model/reflect/CachingProxyFactory.java:60-77 | The memo of the own-class scope, empty while none exists. |
| `CachingProxyFactory.CachingProxyFactory.constructor` | src/main/java/io/github/astrapi69/model/reflect/CachingProxyFactory.java:32-35 | No scopes. |
| `CachingProxyFactory.CachingProxyFactory.Destroy` | src/main/java/io/github/astrapi69/model/reflect/CachingProxyFactory.java:49-52 | Removes the scope, and a null key throws. |
| `CachingProxyFactory.CachingProxyFactory.GetFactory` | src/main/java/io/github/astrapi69/model/reflect/CachingProxyFactory.java:60-77 | The stored scope, or a new empty one stored on first use. |
| `CachingProxyFactory.CachingProxyFactory.CreateClass` | src/main/java/io/github/astrapi69/model/reflect/CachingProxyFactory.java:38-41 | CreateClassStep on the scope's memo. Other scopes are untouched. |
| `CachingProxyFactory.CachingProxyFactory.CreateInstance` | src/main/java/io/github/astrapi69/model/reflect/CachingProxyFactory.java:44-47 | Forwarded, and the memo is unchanged. |
| `CachingProxyFactory.CachingProxyFactory.GetCallback` | src/main/java/io/github/astrapi69/model/reflect/CachingProxyFactory.java:55-58 | Forwarded, and the memo is unchanged. |
| `CachingProxyFactory.AskTwice` | model-type-safe/src/test/java/io/github/astrapi69/model/reflect/CachingProxyFactoryTest.java:32-63 | Two requests for a class reach the wrapped factory once, and an unproxyable class is reported as null and not asked again. |
| `JavaObjects.Capitalize` | src/main/java/io/github/astrapi69/model/property/PropertyResolver.java:289-290 | toUpperCase of the first character plus the rest. An empty string throws. |
| `JavaObjects.ToUpper` | src/main/java/io/github/astrapi69/model/property/PropertyResolver.java:289-290 | Character.toUpperCase on Latin-1: `a`-`z` and the accented lower-case letters map 0x20 down, `ÿ` maps to `Ÿ`, `µ` to Greek capital mu, and every other character is unchanged. |
| `JavaObjects.DecimalZero` | src/main/java/io/github/astrapi69/model/property/PropertyResolver.java:218 | Character.digit's digit blocks: the result is -1 or the first code point of a ten-digit block holding the character, the ASCII digits are in the block at `0`, and only characters of the Basic Multilingual Plane are digits. |
| `JavaObjects.DigitValue` | src/main/java/io/github/astrapi69/model/property/PropertyResolver.java:218 | Character.digit(c, 10): a value from 0 to 9, which for an ASCII digit is its distance from `0`. |
| `JavaObjects.ParseInt` | src/main/java/io/github/astrapi69/model/property/PropertyResolver.java:218 | Integer.parseInt accepts an optional sign and decimal digits of any script in the Basic Multilingual Plane, and the value lies in the 32-bit range. |
| `JavaObjects.ParseIntRejectsLetters` | src/main/java/io/github/astrapi69/model/property/PropertyResolver.java:221-225 | A segment that starts with neither a sign nor a decimal digit of any script is never an index. |
| `JavaObjects.ParseIntReadsOtherScripts` | src/main/java/io/github/astrapi69/model/property/PropertyResolver.java:218-219 | Arabic-Indic one, fullwidth seven and a signed mix of Devanagari and ASCII digits are read as 1, 7 and -12, so such a segment on a list is an index. |
| `JavaObjects.ZeroFrom` | src/main/java/io/github/astrapi69/model/property/PropertyResolver.java:218 | Scanning the digit-block table from any position finds -1 or a block zero within ten below the character. |
| `JavaObjects.TableSpaced` | src/main/java/io/github/astrapi69/model/property/PropertyResolver.java:218 | The digit-block table has 37 blocks, starts at `0`, and its blocks do not overlap. |
| `JavaObjects.ZeroFromFinds` | src/main/java/io/github/astrapi69/model/property/PropertyResolver.java:218 | A character inside a table block is found in exactly that block. |
| `JavaObjects.ZeroFromBelow` | src/main/java/io/github/astrapi69/model/property/PropertyResolver.java:218 | A character below every remaining block is not a digit. |
| `JavaObjects.ZeroFromAtLeastAscii` | src/main/java/io/github/astrapi69/model/property/PropertyResolver.java:218 | No block found lies below the ASCII digits. |
| `JavaObjects.LatinLetterIsNotDigit` | src/main/java/io/github/astrapi69/model/property/PropertyResolver.java:218 | Latin letters are not decimal digits. |
| `JavaObjects.DigitBlocks` | src/main/java/io/github/astrapi69/model/property/PropertyResolver.java:218 | Arabic-Indic one, fullwidth seven and Devanagari one are digits of values 1, 7 and 1. |
| `JavaObjects.DigitInBlock` | src/main/java/io/github/astrapi69/model/property/PropertyResolver.java:218 | A code point inside the block at a table entry has that block's zero. |
| `JavaObjects.ParseIntOneDigit` | src/main/java/io/github/astrapi69/model/property/PropertyResolver.java:218 | A lone digit of any script parses to its value. |
| `JavaObjects.ParseIntOfNatText` | src/main/java/io/github/astrapi69/model/property/PropertyResolver.java:255 | parseInt inverts the decimal text of every in-range number. |
| `JavaObjects.FieldSet` | model-object/src/main/java/io/github/astrapi69/model/property/FieldGetAndSetter.java:100-111 | Field.set replaces one bean field, changes no other object, and is read back. |
| `JavaObjects.NewInstance` | model-object/src/main/java/io/github/astrapi69/model/property/MethodGetAndSet.java:150-170 | newInstance appends exactly one object of the class, and only for constructible non-array classes. |

## Left out

- Reflection, class loading and bean introspection are represented by a `ClassTable`. The real `getMethods()` order is whatever the table lists.
- Bean methods run a tiny behaviour language. In getter position a writing body fails instead of running.
- Concurrency is not modelled: the `ConcurrentHashMap`s are plain maps, and calls are sequential.
- Foreign code appears only as parameters:
  - nested models of unknown class, through the `Models` world;
  - subclass hooks (`load`, `onAttach`, `onDetach`);
  - lambdas;
  - the wrapped `IMethodResolver`;
  - the wrapped proxy factory (`IProxyFactory` is not part of this model) and cglib.
- `equals` is value equality on the model's values, which is identity for references.
- A null closure cannot be passed to a factory: closures are Dafny function values.
- `ChainingModel.Innermost`: the Java loop does not terminate on a cycle of two or more models. The model bounds it by a `fuel` argument, and `None` (the `OutOfFuel` error in the property model) means "still running".
- `PropertyModel.PropertyClass`: the PropertyDescriptor fallback of getObjectClass on a null innermost object (AbstractPropertyModel.java:131-148) uses java.beans introspection. It is modelled as answering null.
- `getPropertyField`, `getPropertyGetter` and `getPropertySetter` of AbstractPropertyModel go through java.beans and are left out. The resolver versions are modelled.
- The de `AbstractPropertyModel` calls the de.alpharogroup PropertyResolver, which is not part of this model. The model uses the io.github.astrapi69 resolver, which has the same interface.
- `PropertyModel.propertyExpression()` is the `expression` const field.
- The PropertyModel and ChainingModel `toString` text functions have no contract of their own. They state the format by their bodies.
- `LambdaModel.of(getter)` returns `getter::get` as an `IModel`, which has more than one abstract method, so the source cannot compile. It is left out.
- The `LambdaBindingModel` base `setObject` (the refusal) is overridden by both factories' objects, so nothing reaches it.
- The per-application `destroy` of the resolver and of the caches is modelled, but keys other than the owning class are never used for lookups, as in the source.
- These are not part of the core and are left out: `SimpleLambdaModel`, the collection models (`ListModel`, `SetModel`, `MapModel` and the wildcard variants), `BaseModel`, `SerializableModel`, the type-safe proxy models, and `ModeContext`.
- `CachingMethodResolver.MethodStepTransparent` assumes the wrapped resolver answers alike for ids with the same text. Without that assumption, `SharedKeySharesMethod` shows the memo can answer a different method.
- `ArrayPropertyGetSet.GetValue` and `MethodGetAndSet.GetValue` state only the null-object failure. The rest is the invoked method's behaviour, stated by `SetThenGet` and `SetterThenGetter`.
- `JavaObjects.ToUpper`: Character.toUpperCase is modelled on Latin-1 only (ASCII, the accented letters, `ÿ` and `µ`). Other Unicode letters are returned unchanged, because the model has no Unicode case tables.
- `JavaObjects.Capitalize`: it uses ToUpper, so a first letter outside Latin-1 is not upper-cased.
- `JavaObjects.FieldSet`: Field.set does not check the value's type against the field's type, so the IllegalArgumentException for a wrong type or a null into a primitive field is not modelled.
- `JavaObjects.CallMutator`: Method.invoke checks the argument count but not the argument types, so the IllegalArgumentException for an argument of the wrong type is not modelled.
- `ArrayGetSet.ArraySet`: Array.set fails only out of bounds. The IllegalArgumentException for a value of the wrong component type is not modelled.
- Nested models are read and written through `ModelWorld.Models`, whose `getOf` is a function of the heap alone. A nested model whose getObject has side effects, such as a detached LoadableDetachableModel that loads on read, is therefore not captured when it sits inside a chaining, property or binding model.
- `PropertyRoundTrip.ModelSetThenGetProperty` and `PropertyRoundTrip.ModelSetThenGetNested` take a plain bean as the target and do not cover a target that is itself a model (the second scenario of testSetInnerProperty), for the same reason.

## Findings

| source | as written | input that shows it | evidently intended | confidence | as-written member | corrected member |
|---|---|---|---|---|---|---|
| src/main/java/io/github/astrapi69/model/LambdaModel.java:151-153 | `Objects.nonNull(target)` returns a boolean that is discarded, so a null target is accepted | `LambdaModel.of(null, Person::getName, Person::setName)` builds a model whose attach, detach, getObject and setObject all throw NullPointerException | refuse a null target at construction (`Objects.requireNonNull`) | not executed | `LambdaModel.NullTargetAcceptedAsWritten` | `LambdaModel.CorrectedFactoryModelsAttach` |
| src/main/java/io/github/astrapi69/model/LambdaBindingModel.java:194-203 | when the source object is null and the target object is not, the code falls through to `sourceGetter.apply(sourceObject)` with null | a source model holding null, a target model holding a Company, and `Person::getName` as the source getter: getObject throws NullPointerException | answer null for a null source object, as the shared-getter variant does (lines 97-101) | not executed | `LambdaBindingModel.NullSourceObjectThrowsAsWritten` | `LambdaBindingModel.TwoSidedGetObject` |
