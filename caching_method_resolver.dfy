/**
 * CachingMethodResolver: a memo in front of another method resolver. Per
 * application scope it keeps three maps (method -> id, "owner:id" -> method,
 * getter -> setter) and asks the wrapped resolver only on a miss.
 *
 * The memo maps are ConcurrentHashMaps: a null key or a null value passed to
 * them throws NullPointerException, so a null answer from the wrapped resolver
 * is never stored and surfaces as that exception.
 */
module CachingMethodResolver {
  import opened JavaObjects

  /**
   * The wrapped resolver: foreign code, seen only through what it answers and
   * how many times it has been asked.
   */
  class WrappedResolver {
    const idOf: Method -> Value
    const methodOf: (ClassName, Value) -> Option<Method>
    const setterOf: Method -> Option<Method>
    var calls: nat

    constructor(idOf: Method -> Value, methodOf: (ClassName, Value) -> Option<Method>, setterOf: Method -> Option<Method>)
      ensures this.idOf == idOf && this.methodOf == methodOf && this.setterOf == setterOf
      ensures calls == 0
    {
      this.idOf := idOf;
      this.methodOf := methodOf;
      this.setterOf := setterOf;
      calls := 0;
    }

    method GetId(m: Method) returns (id: Value)
      modifies this
      ensures id == idOf(m) && calls == old(calls) + 1
    {
      calls := calls + 1;
      id := idOf(m);
    }

    method GetMethod(owner: ClassName, id: Value) returns (m: Option<Method>)
      modifies this
      ensures m == methodOf(owner, id) && calls == old(calls) + 1
    {
      calls := calls + 1;
      m := methodOf(owner, id);
    }

    method GetSetter(getter: Method) returns (s: Option<Method>)
      modifies this
      ensures s == setterOf(getter) && calls == old(calls) + 1
    {
      calls := calls + 1;
      s := setterOf(getter);
    }
  }

  /** The three memo maps of one application scope. */
  datatype Memo = Memo(ids: map<Method, Value>, methods: map<string, Method>, setters: map<Method, Method>)

  const EMPTY: Memo := Memo(map[], map[], map[])

  /** What a memo operation leaves behind: the new maps, the answer, and whether the wrapped resolver was asked. */
  datatype Step<T> = Step(memo: Memo, result: Result<T>, asked: bool)

  /** The text an id contributes to a key: String.valueOf(id); `refText` is the toString of a referenced id object. */
  function IdText(id: Value, refText: Value -> string): string
  {
    Render(id, refText(id))
  }

  /** The key getMethod memoises under: owner.getName() + ":" + id. */
  function MethodKey(owner: ClassName, id: Value, refText: Value -> string): string
  {
    owner + ":" + IdText(id, refText)
  }

  /** getId: a stored non-null id, else the wrapped answer, stored unless it is null. */
  function IdStep(memo: Memo, idOf: Method -> Value, m: Option<Method>): (s: Step<Value>)
    ensures m.None? ==> s == Step(memo, Err(NullPointer), false)
    ensures s.asked <==> m.Some? && (m.value !in memo.ids || memo.ids[m.value] == Null)
    ensures s.result.Ok? ==> s.result.value != Null
  {
    if m.None? then Step(memo, Err(NullPointer), false)
    else if m.value in memo.ids && memo.ids[m.value] != Null then Step(memo, Ok(memo.ids[m.value]), false)
    else
      var id := idOf(m.value);
      if id == Null then Step(memo, Err(NullPointer), true)
      else Step(memo.(ids := memo.ids[m.value := id]), Ok(id), true)
  }

  /** getMethod: the method stored under "owner:id", else the wrapped answer, stored unless it is null. */
  function MethodStep(memo: Memo, methodOf: (ClassName, Value) -> Option<Method>, refText: Value -> string,
                      owner: Option<ClassName>, id: Value): (s: Step<Method>)
    ensures owner.None? ==> s == Step(memo, Err(NullPointer), false)
    ensures s.asked <==> owner.Some? && MethodKey(owner.value, id, refText) !in memo.methods
  {
    if owner.None? then Step(memo, Err(NullPointer), false)
    else
      var key := MethodKey(owner.value, id, refText);
      if key in memo.methods then Step(memo, Ok(memo.methods[key]), false)
      else
        match methodOf(owner.value, id)
        case None => Step(memo, Err(NullPointer), true)
        case Some(found) => Step(memo.(methods := memo.methods[key := found]), Ok(found), true)
  }

  /** getSetter: a stored setter, else the wrapped answer, stored unless it is null. */
  function SetterStep(memo: Memo, setterOf: Method -> Option<Method>, getter: Option<Method>): (s: Step<Method>)
    ensures getter.None? ==> s == Step(memo, Err(NullPointer), false)
    ensures s.asked <==> getter.Some? && getter.value !in memo.setters
  {
    if getter.None? then Step(memo, Err(NullPointer), false)
    else if getter.value in memo.setters then Step(memo, Ok(memo.setters[getter.value]), false)
    else
      match setterOf(getter.value)
      case None => Step(memo, Err(NullPointer), true)
      case Some(found) => Step(memo.(setters := memo.setters[getter.value := found]), Ok(found), true)
  }

  /** Every stored id and setter is what the wrapped resolver answers, and no stored id is null. */
  predicate Faithful(memo: Memo, idOf: Method -> Value, setterOf: Method -> Option<Method>)
  {
    (forall m :: m in memo.ids ==> memo.ids[m] == idOf(m) && memo.ids[m] != Null) &&
    (forall g :: g in memo.setters ==> setterOf(g) == Some(memo.setters[g]))
  }

  /** Every stored method is what the wrapped resolver answers for each owner and id sharing its key. */
  ghost predicate FaithfulMethods(memo: Memo, methodOf: (ClassName, Value) -> Option<Method>, refText: Value -> string)
  {
    forall owner, id :: MethodKey(owner, id, refText) in memo.methods ==>
      methodOf(owner, id) == Some(memo.methods[MethodKey(owner, id, refText)])
  }

  /** The wrapped resolver gives one answer for all owners and ids that share a key. */
  ghost predicate KeyRespecting(methodOf: (ClassName, Value) -> Option<Method>, refText: Value -> string)
  {
    forall o1, i1, o2, i2 :: MethodKey(o1, i1, refText) == MethodKey(o2, i2, refText) ==> methodOf(o1, i1) == methodOf(o2, i2)
  }

  /** The empty memo is faithful. */
  lemma EmptyIsFaithful(idOf: Method -> Value, setterOf: Method -> Option<Method>,
                        methodOf: (ClassName, Value) -> Option<Method>, refText: Value -> string)
    ensures Faithful(EMPTY, idOf, setterOf) && FaithfulMethods(EMPTY, methodOf, refText)
  {
  }

  /**
   * The id cache is transparent: from a faithful memo getId answers exactly
   * what the wrapped resolver answers (a null answer as the exception), and
   * the memo stays faithful.
   */
  lemma IdStepTransparent(memo: Memo, idOf: Method -> Value, setterOf: Method -> Option<Method>, m: Method)
    requires Faithful(memo, idOf, setterOf)
    ensures IdStep(memo, idOf, Some(m)).result == (if idOf(m) == Null then Err(NullPointer) else Ok(idOf(m)))
    ensures Faithful(IdStep(memo, idOf, Some(m)).memo, idOf, setterOf)
  {
  }

  /** The setter cache is transparent in the same way. */
  lemma SetterStepTransparent(memo: Memo, idOf: Method -> Value, setterOf: Method -> Option<Method>, g: Method)
    requires Faithful(memo, idOf, setterOf)
    ensures SetterStep(memo, setterOf, Some(g)).result == (if setterOf(g).None? then Err(NullPointer) else Ok(setterOf(g).value))
    ensures Faithful(SetterStep(memo, setterOf, Some(g)).memo, idOf, setterOf)
  {
  }

  /** The method cache is transparent as long as the wrapped resolver answers alike for ids sharing a key. */
  lemma MethodStepTransparent(memo: Memo, methodOf: (ClassName, Value) -> Option<Method>, refText: Value -> string,
                              owner: ClassName, id: Value)
    requires KeyRespecting(methodOf, refText) && FaithfulMethods(memo, methodOf, refText)
    ensures MethodStep(memo, methodOf, refText, Some(owner), id).result ==
      (if methodOf(owner, id).None? then Err(NullPointer) else Ok(methodOf(owner, id).value))
    ensures FaithfulMethods(MethodStep(memo, methodOf, refText, Some(owner), id).memo, methodOf, refText)
  {
    var key := MethodKey(owner, id, refText);
    if key !in memo.methods && methodOf(owner, id).Some? {
      var memo' := memo.(methods := memo.methods[key := methodOf(owner, id).value]);
      forall o, i | MethodKey(o, i, refText) in memo'.methods
        ensures methodOf(o, i) == Some(memo'.methods[MethodKey(o, i, refText)])
      {
        if MethodKey(o, i, refText) == key {
          assert methodOf(o, i) == methodOf(owner, id);
        }
      }
    }
  }

  /**
   * Without that agreement the key decides: once a method is stored for one
   * id, a second id with the same text gets that method and the wrapped
   * resolver is not asked.
   */
  lemma SharedKeySharesMethod(memo: Memo, methodOf: (ClassName, Value) -> Option<Method>, refText: Value -> string,
                              owner: ClassName, id1: Value, id2: Value)
    requires IdText(id1, refText) == IdText(id2, refText)
    requires MethodStep(memo, methodOf, refText, Some(owner), id1).result.Ok?
    ensures var first := MethodStep(memo, methodOf, refText, Some(owner), id1);
      var second := MethodStep(first.memo, methodOf, refText, Some(owner), id2);
      !second.asked && second.result == first.result
  {
    assert MethodKey(owner, id1, refText) == MethodKey(owner, id2, refText);
  }

  /** A second identical question is answered from the memo, with the same answer, whenever the first succeeded. */
  lemma RepeatedQuestionsAreNotForwarded(memo: Memo, idOf: Method -> Value, methodOf: (ClassName, Value) -> Option<Method>,
                                         setterOf: Method -> Option<Method>, refText: Value -> string,
                                         m: Method, owner: ClassName, id: Value)
    ensures IdStep(memo, idOf, Some(m)).result.Ok? ==>
      var s := IdStep(IdStep(memo, idOf, Some(m)).memo, idOf, Some(m));
      !s.asked && s.result == IdStep(memo, idOf, Some(m)).result
    ensures MethodStep(memo, methodOf, refText, Some(owner), id).result.Ok? ==>
      var s := MethodStep(MethodStep(memo, methodOf, refText, Some(owner), id).memo, methodOf, refText, Some(owner), id);
      !s.asked && s.result == MethodStep(memo, methodOf, refText, Some(owner), id).result
    ensures SetterStep(memo, setterOf, Some(m)).result.Ok? ==>
      var s := SetterStep(SetterStep(memo, setterOf, Some(m)).memo, setterOf, Some(m));
      !s.asked && s.result == SetterStep(memo, setterOf, Some(m)).result
  {
  }

  /** One application scope: the three memo maps in front of the wrapped resolver. */
  class ApplicationScope {
    const resolver: WrappedResolver
    const refText: Value -> string
    var ids: map<Method, Value>
    var methods: map<string, Method>
    var setters: map<Method, Method>

    function Maps(): Memo
      reads this
    {
      Memo(ids, methods, setters)
    }

    constructor(resolver: WrappedResolver, refText: Value -> string)
      ensures this.resolver == resolver && this.refText == refText && Maps() == EMPTY
    {
      this.resolver := resolver;
      this.refText := refText;
      ids := map[];
      methods := map[];
      setters := map[];
    }

    method GetId(m: Option<Method>) returns (r: Result<Value>)
      modifies this, resolver
      ensures var s := IdStep(old(Maps()), resolver.idOf, m);
        Maps() == s.memo && r == s.result && resolver.calls == old(resolver.calls) + (if s.asked then 1 else 0)
    {
      if m.None? {
        return Err(NullPointer);
      }
      var id := if m.value in ids then ids[m.value] else Null;
      if id == Null {
        id := resolver.GetId(m.value);
        if id == Null {
          return Err(NullPointer);
        }
        ids := ids[m.value := id];
      }
      return Ok(id);
    }

    method GetMethod(owner: Option<ClassName>, id: Value) returns (r: Result<Method>)
      modifies this, resolver
      ensures var s := MethodStep(old(Maps()), resolver.methodOf, refText, owner, id);
        Maps() == s.memo && r == s.result && resolver.calls == old(resolver.calls) + (if s.asked then 1 else 0)
    {
      if owner.None? {
        return Err(NullPointer);
      }
      var key := owner.value + ":" + IdText(id, refText);
      var found := if key in methods then Some(methods[key]) else None;
      if found.None? {
        found := resolver.GetMethod(owner.value, id);
        if found.None? {
          return Err(NullPointer);
        }
        methods := methods[key := found.value];
      }
      return Ok(found.value);
    }

    method GetSetter(getter: Option<Method>) returns (r: Result<Method>)
      modifies this, resolver
      ensures var s := SetterStep(old(Maps()), resolver.setterOf, getter);
        Maps() == s.memo && r == s.result && resolver.calls == old(resolver.calls) + (if s.asked then 1 else 0)
    {
      if getter.None? {
        return Err(NullPointer);
      }
      var setter := if getter.value in setters then Some(setters[getter.value]) else None;
      if setter.None? {
        setter := resolver.GetSetter(getter.value);
        if setter.None? {
          return Err(NullPointer);
        }
        setters := setters[getter.value := setter.value];
      }
      return Ok(setter.value);
    }
  }

  /** The caching resolver: the wrapped resolver and the scopes, one created on first use. */
  class CachingMethodResolver {
    const resolver: WrappedResolver
    const refText: Value -> string
    var scopes: map<ScopeKey, ApplicationScope>

    /** Every scope asks this resolver's wrapped resolver. */
    ghost predicate Valid()
      reads this
    {
      forall k :: k in scopes ==> scopes[k].resolver == resolver && scopes[k].refText == refText
    }

    /** The memo maps lookups use, empty while no scope exists. */
    function Maps(): (r: Memo)
      reads this, if OwnClass in scopes then {scopes[OwnClass]} else {}
      ensures OwnClass !in scopes ==> r == EMPTY
    {
      if OwnClass in scopes then scopes[OwnClass].Maps() else EMPTY
    }

    constructor(resolver: WrappedResolver, refText: Value -> string)
      ensures this.resolver == resolver && this.refText == refText && scopes == map[]
      ensures Valid()
    {
      this.resolver := resolver;
      this.refText := refText;
      scopes := map[];
    }

    /** scopes.remove(application); a null application throws. */
    method Destroy(application: Option<ScopeKey>) returns (r: Outcome)
      requires Valid()
      modifies this
      ensures Valid()
      ensures application.None? ==> r == Fails(NullPointer) && scopes == old(scopes)
      ensures application.Some? ==> r == Done && scopes == old(scopes) - {application.value}
    {
      if application.None? {
        return Fails(NullPointer);
      }
      scopes := scopes - {application.value};
      return Done;
    }

    /** getResolver: the stored scope, or a new empty one stored on first use. */
    method GetResolver() returns (s: ApplicationScope)
      requires Valid()
      modifies this
      ensures Valid() && OwnClass in scopes && s == scopes[OwnClass]
      ensures old(OwnClass in scopes) ==> scopes == old(scopes)
      ensures old(OwnClass !in scopes) ==> fresh(s) && s.Maps() == EMPTY && scopes == old(scopes)[OwnClass := s]
    {
      if OwnClass in scopes {
        return scopes[OwnClass];
      }
      s := new ApplicationScope(resolver, refText);
      scopes := scopes[OwnClass := s];
    }

    method GetId(m: Option<Method>) returns (r: Result<Value>)
      requires Valid()
      modifies this, resolver, if OwnClass in scopes then {scopes[OwnClass]} else {}
      ensures Valid() && OwnClass in scopes
      ensures forall k :: k != OwnClass ==> (k in scopes <==> k in old(scopes)) && (k in scopes ==> scopes[k] == old(scopes[k]))
      ensures old(OwnClass in scopes) ==> scopes[OwnClass] == old(scopes[OwnClass])
      ensures old(OwnClass !in scopes) ==> fresh(scopes[OwnClass])
      ensures var s := IdStep(old(Maps()), resolver.idOf, m);
        Maps() == s.memo && r == s.result && resolver.calls == old(resolver.calls) + (if s.asked then 1 else 0)
    {
      var scope := GetResolver();
      r := scope.GetId(m);
    }

    method GetMethod(owner: Option<ClassName>, id: Value) returns (r: Result<Method>)
      requires Valid()
      modifies this, resolver, if OwnClass in scopes then {scopes[OwnClass]} else {}
      ensures Valid() && OwnClass in scopes
      ensures forall k :: k != OwnClass ==> (k in scopes <==> k in old(scopes)) && (k in scopes ==> scopes[k] == old(scopes[k]))
      ensures old(OwnClass in scopes) ==> scopes[OwnClass] == old(scopes[OwnClass])
      ensures old(OwnClass !in scopes) ==> fresh(scopes[OwnClass])
      ensures var s := MethodStep(old(Maps()), resolver.methodOf, refText, owner, id);
        Maps() == s.memo && r == s.result && resolver.calls == old(resolver.calls) + (if s.asked then 1 else 0)
    {
      var scope := GetResolver();
      r := scope.GetMethod(owner, id);
    }

    method GetSetter(getter: Option<Method>) returns (r: Result<Method>)
      requires Valid()
      modifies this, resolver, if OwnClass in scopes then {scopes[OwnClass]} else {}
      ensures Valid() && OwnClass in scopes
      ensures forall k :: k != OwnClass ==> (k in scopes <==> k in old(scopes)) && (k in scopes ==> scopes[k] == old(scopes[k]))
      ensures old(OwnClass in scopes) ==> scopes[OwnClass] == old(scopes[OwnClass])
      ensures old(OwnClass !in scopes) ==> fresh(scopes[OwnClass])
      ensures var s := SetterStep(old(Maps()), resolver.setterOf, getter);
        Maps() == s.memo && r == s.result && resolver.calls == old(resolver.calls) + (if s.asked then 1 else 0)
    {
      var scope := GetResolver();
      r := scope.GetSetter(getter);
    }
  }

  /**
   * The scenario of the resolver's test: each lookup asked twice reaches the
   * wrapped resolver once, so its call count reads 1, 2 and 3.
   */
  method AskEachTwice(m: Method, owner: ClassName) returns (afterIds: nat, afterMethods: nat, afterSetters: nat)
    ensures afterIds == 1 && afterMethods == 2 && afterSetters == 3
  {
    var wrapped := new WrappedResolver(_ => StrVal(""), (_, _) => Some(m), g => Some(g));
    var caching := new CachingMethodResolver(wrapped, _ => "");
    IdTwice(caching, m);
    afterIds := wrapped.calls;
    MethodTwice(caching, owner, StrVal(""));
    afterMethods := wrapped.calls;
    SetterTwice(caching, m);
    afterSetters := wrapped.calls;
  }

  /** Two getId calls on a scope without that method: one wrapped call. */
  method IdTwice(caching: CachingMethodResolver, m: Method)
    requires caching.Valid() && m !in caching.Maps().ids && caching.resolver.idOf(m) != Null
    modifies caching, caching.resolver, if OwnClass in caching.scopes then {caching.scopes[OwnClass]} else {}
    ensures caching.Valid() && caching.resolver.calls == old(caching.resolver.calls) + 1
    ensures caching.Maps().methods == old(caching.Maps().methods) && caching.Maps().setters == old(caching.Maps().setters)
  {
    var _ := caching.GetId(Some(m));
    var _ := caching.GetId(Some(m));
  }

  /** Two getMethod calls on a scope without that key: one wrapped call. */
  method MethodTwice(caching: CachingMethodResolver, owner: ClassName, id: Value)
    requires caching.Valid() && MethodKey(owner, id, caching.refText) !in caching.Maps().methods
    requires caching.resolver.methodOf(owner, id).Some?
    modifies caching, caching.resolver, if OwnClass in caching.scopes then {caching.scopes[OwnClass]} else {}
    ensures caching.Valid() && caching.resolver.calls == old(caching.resolver.calls) + 1
    ensures caching.Maps().setters == old(caching.Maps().setters)
  {
    var _ := caching.GetMethod(Some(owner), id);
    var _ := caching.GetMethod(Some(owner), id);
  }

  /** Two getSetter calls on a scope without that getter: one wrapped call. */
  method SetterTwice(caching: CachingMethodResolver, g: Method)
    requires caching.Valid() && g !in caching.Maps().setters && caching.resolver.setterOf(g).Some?
    modifies caching, caching.resolver, if OwnClass in caching.scopes then {caching.scopes[OwnClass]} else {}
    ensures caching.Valid() && caching.resolver.calls == old(caching.resolver.calls) + 1
  {
    var _ := caching.GetSetter(Some(g));
    var _ := caching.GetSetter(Some(g));
  }

  /** Destroying the scope forgets its answers: the same question is forwarded again. */
  method DestroyForgetsAnswers(m: Method) returns (beforeDestroy: nat, afterDestroy: nat)
    ensures beforeDestroy == 1 && afterDestroy == 2
  {
    var wrapped := new WrappedResolver(_ => StrVal(""), (_, _) => None, _ => None);
    var caching := new CachingMethodResolver(wrapped, _ => "");
    var _ := caching.GetId(Some(m));
    var _ := caching.GetId(Some(m));
    beforeDestroy := wrapped.calls;
    var _ := caching.Destroy(Some(OwnClass));
    var _ := caching.GetId(Some(m));
    afterDestroy := wrapped.calls;
  }
}
