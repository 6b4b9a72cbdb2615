/**
 * CachingProxyFactory: a memo of proxy classes in front of another proxy
 * factory. A class the wrapped factory cannot proxy is remembered with a
 * sentinel, so it is not asked again; instance creation and callback lookup
 * are always forwarded.
 */
module CachingProxyFactory {
  import opened JavaObjects

  /** The wrapped factory: foreign code, seen through its answers and how often each operation was asked. */
  class WrappedFactory {
    const classOf: ClassName -> Option<ClassName>
    const instanceOf: (Option<ClassName>, Value) -> Value
    const callbackOf: Value -> Value
    var classCalls: nat
    var instanceCalls: nat
    var callbackCalls: nat

    constructor(classOf: ClassName -> Option<ClassName>, instanceOf: (Option<ClassName>, Value) -> Value, callbackOf: Value -> Value)
      ensures this.classOf == classOf && this.instanceOf == instanceOf && this.callbackOf == callbackOf
      ensures classCalls == 0 && instanceCalls == 0 && callbackCalls == 0
    {
      this.classOf := classOf;
      this.instanceOf := instanceOf;
      this.callbackOf := callbackOf;
      classCalls, instanceCalls, callbackCalls := 0, 0, 0;
    }

    method CreateClass(c: ClassName) returns (r: Option<ClassName>)
      modifies this
      ensures r == classOf(c)
      ensures classCalls == old(classCalls) + 1 && instanceCalls == old(instanceCalls) && callbackCalls == old(callbackCalls)
    {
      classCalls := classCalls + 1;
      r := classOf(c);
    }

    method CreateInstance(proxyClass: Option<ClassName>, callback: Value) returns (r: Value)
      modifies this
      ensures r == instanceOf(proxyClass, callback)
      ensures instanceCalls == old(instanceCalls) + 1 && classCalls == old(classCalls) && callbackCalls == old(callbackCalls)
    {
      instanceCalls := instanceCalls + 1;
      r := instanceOf(proxyClass, callback);
    }

    method GetCallback(proxy: Value) returns (r: Value)
      modifies this
      ensures r == callbackOf(proxy)
      ensures callbackCalls == old(callbackCalls) + 1 && classCalls == old(classCalls) && instanceCalls == old(instanceCalls)
    {
      callbackCalls := callbackCalls + 1;
      r := callbackOf(proxy);
    }
  }

  /** A memo entry: a proxy class, or the NOT_PROXYABLE sentinel standing for a null answer. */
  datatype Entry = ProxyClass(c: ClassName) | NotProxyable

  /** What an entry reports: the sentinel is turned back into null. */
  function Reported(e: Entry): (r: Option<ClassName>)
    ensures r.None? <==> e.NotProxyable?
  {
    match e
    case ProxyClass(p) => Some(p)
    case NotProxyable => None
  }

  /** The entry recorded for a wrapped answer. */
  function Recorded(answer: Option<ClassName>): (e: Entry)
    ensures Reported(e) == answer
  {
    match answer
    case Some(p) => ProxyClass(p)
    case None => NotProxyable
  }

  /**
   * createClass on the memo: a null class throws; a known class is answered
   * from its entry; an unknown one asks the wrapped factory and records the
   * answer, the sentinel when it is null. The flag says whether it asked.
   */
  function CreateClassStep(memo: map<ClassName, Entry>, classOf: ClassName -> Option<ClassName>, c: Option<ClassName>):
    (r: (map<ClassName, Entry>, Result<Option<ClassName>>, bool))
    ensures c.None? ==> r == (memo, Err(NullPointer), false)
    ensures r.2 <==> c.Some? && c.value !in memo
  {
    if c.None? then (memo, Err(NullPointer), false)
    else if c.value in memo then (memo, Ok(Reported(memo[c.value])), false)
    else
      var e := Recorded(classOf(c.value));
      (memo[c.value := e], Ok(Reported(e)), true)
  }

  /** Every entry records what the wrapped factory answers for its class. */
  predicate Faithful(memo: map<ClassName, Entry>, classOf: ClassName -> Option<ClassName>)
  {
    forall c :: c in memo ==> Reported(memo[c]) == classOf(c)
  }

  /**
   * The memo is transparent, including for classes that cannot be proxied:
   * from a faithful memo createClass answers what the wrapped factory answers,
   * and the memo stays faithful.
   */
  lemma CreateClassTransparent(memo: map<ClassName, Entry>, classOf: ClassName -> Option<ClassName>, c: ClassName)
    requires Faithful(memo, classOf)
    ensures CreateClassStep(memo, classOf, Some(c)).1 == Ok(classOf(c))
    ensures Faithful(CreateClassStep(memo, classOf, Some(c)).0, classOf)
  {
  }

  /** Asking twice for the same class asks the wrapped factory at most once, a null answer included. */
  lemma SecondCreateClassIsRemembered(memo: map<ClassName, Entry>, classOf: ClassName -> Option<ClassName>, c: ClassName)
    ensures var first := CreateClassStep(memo, classOf, Some(c));
      var second := CreateClassStep(first.0, classOf, Some(c));
      !second.2 && second.1 == first.1 && second.0 == first.0
  {
  }

  /** One application scope: the proxy-class memo in front of the wrapped factory. */
  class ApplicationScope {
    const factory: WrappedFactory
    var proxyClasses: map<ClassName, Entry>

    constructor(factory: WrappedFactory)
      ensures this.factory == factory && proxyClasses == map[]
    {
      this.factory := factory;
      proxyClasses := map[];
    }

    method CreateClass(c: Option<ClassName>) returns (r: Result<Option<ClassName>>)
      modifies this, factory
      ensures var s := CreateClassStep(old(proxyClasses), factory.classOf, c);
        proxyClasses == s.0 && r == s.1
      ensures factory.classCalls == old(factory.classCalls) + (if c.Some? && c.value !in old(proxyClasses) then 1 else 0)
      ensures factory.instanceCalls == old(factory.instanceCalls) && factory.callbackCalls == old(factory.callbackCalls)
    {
      if c.None? {
        return Err(NullPointer);
      }
      var proxy: Entry;
      if c.value in proxyClasses {
        proxy := proxyClasses[c.value];
      } else {
        var answer := factory.CreateClass(c.value);
        if answer.None? {
          proxy := NotProxyable;
        } else {
          proxy := ProxyClass(answer.value);
        }
        proxyClasses := proxyClasses[c.value := proxy];
      }
      if proxy == NotProxyable {
        return Ok(None);
      }
      return Ok(Some(proxy.c));
    }

    method CreateInstance(proxyClass: Option<ClassName>, callback: Value) returns (r: Value)
      modifies factory
      ensures r == factory.instanceOf(proxyClass, callback)
      ensures factory.instanceCalls == old(factory.instanceCalls) + 1
      ensures factory.classCalls == old(factory.classCalls) && factory.callbackCalls == old(factory.callbackCalls)
    {
      r := factory.CreateInstance(proxyClass, callback);
    }

    method GetCallback(proxy: Value) returns (r: Value)
      modifies factory
      ensures r == factory.callbackOf(proxy)
      ensures factory.callbackCalls == old(factory.callbackCalls) + 1
      ensures factory.classCalls == old(factory.classCalls) && factory.instanceCalls == old(factory.instanceCalls)
    {
      r := factory.GetCallback(proxy);
    }
  }

  /** The caching factory: the wrapped factory and its scopes, one created on first use. */
  class CachingProxyFactory {
    const factory: WrappedFactory
    var scopes: map<ScopeKey, ApplicationScope>

    /** Every scope forwards to this factory's wrapped factory. */
    ghost predicate Valid()
      reads this
    {
      forall k :: k in scopes ==> scopes[k].factory == factory
    }

    /** The proxy-class memo lookups use, empty while no scope exists. */
    function Memo(): (r: map<ClassName, Entry>)
      reads this, if OwnClass in scopes then {scopes[OwnClass]} else {}
      ensures OwnClass !in scopes ==> r == map[]
    {
      if OwnClass in scopes then scopes[OwnClass].proxyClasses else map[]
    }

    constructor(factory: WrappedFactory)
      ensures this.factory == factory && scopes == map[] && Valid()
    {
      this.factory := factory;
      scopes := map[];
    }

    /** scopes.remove(application); a null application throws. */
    method Destroy(application: Option<ScopeKey>) returns (r: Outcome)
      requires Valid()
      modifies this
      ensures Valid()
      ensures application.None? ==> r == Fails(NullPointer) && scopes == old(scopes)
      ensures application.Some? ==> r == Done && scopes == old(scopes) - {application.value}
    {
      if application.None? {
        return Fails(NullPointer);
      }
      scopes := scopes - {application.value};
      return Done;
    }

    /** getFactory: the stored scope, or a new empty one stored on first use. */
    method GetFactory() returns (s: ApplicationScope)
      requires Valid()
      modifies this
      ensures Valid() && OwnClass in scopes && s == scopes[OwnClass]
      ensures old(OwnClass in scopes) ==> scopes == old(scopes)
      ensures old(OwnClass !in scopes) ==> fresh(s) && s.proxyClasses == map[] && scopes == old(scopes)[OwnClass := s]
    {
      if OwnClass in scopes {
        return scopes[OwnClass];
      }
      s := new ApplicationScope(factory);
      scopes := scopes[OwnClass := s];
    }

    method CreateClass(c: Option<ClassName>) returns (r: Result<Option<ClassName>>)
      requires Valid()
      modifies this, factory, if OwnClass in scopes then {scopes[OwnClass]} else {}
      ensures Valid() && OwnClass in scopes
      ensures forall k :: k != OwnClass ==> (k in scopes <==> k in old(scopes)) && (k in scopes ==> scopes[k] == old(scopes[k]))
      ensures var s := CreateClassStep(old(Memo()), factory.classOf, c);
        Memo() == s.0 && r == s.1 && factory.classCalls == old(factory.classCalls) + (if s.2 then 1 else 0)
    {
      var scope := GetFactory();
      r := scope.CreateClass(c);
    }

    method CreateInstance(proxyClass: Option<ClassName>, callback: Value) returns (r: Value)
      requires Valid()
      modifies this, factory
      ensures Valid() && OwnClass in scopes
      ensures forall k :: k != OwnClass ==> (k in scopes <==> k in old(scopes)) && (k in scopes ==> scopes[k] == old(scopes[k]))
      ensures old(OwnClass in scopes) ==> Memo() == old(Memo())
      ensures r == factory.instanceOf(proxyClass, callback) && factory.instanceCalls == old(factory.instanceCalls) + 1
    {
      var scope := GetFactory();
      r := scope.CreateInstance(proxyClass, callback);
    }

    method GetCallback(proxy: Value) returns (r: Value)
      requires Valid()
      modifies this, factory
      ensures Valid() && OwnClass in scopes
      ensures forall k :: k != OwnClass ==> (k in scopes <==> k in old(scopes)) && (k in scopes ==> scopes[k] == old(scopes[k]))
      ensures old(OwnClass in scopes) ==> Memo() == old(Memo())
      ensures r == factory.callbackOf(proxy) && factory.callbackCalls == old(factory.callbackCalls) + 1
    {
      var scope := GetFactory();
      r := scope.GetCallback(proxy);
    }
  }

  /**
   * The scenario of the factory's test: two requests for the same class reach
   * the wrapped factory once; a class it cannot proxy is reported as null and
   * is not asked for again.
   */
  method AskTwice(c: ClassName, d: ClassName) returns (afterSame: nat, afterRefused: nat, refused: Result<Option<ClassName>>)
    requires c != d
    ensures afterSame == 1 && afterRefused == 2 && refused == Ok(None)
  {
    var wrapped := new WrappedFactory(x => if x == d then None else Some(x), (_, _) => Null, _ => Null);
    var caching := new CachingProxyFactory(wrapped);
    var _ := caching.CreateClass(Some(c));
    var _ := caching.CreateClass(Some(c));
    afterSame := wrapped.classCalls;
    var _ := caching.CreateClass(Some(d));
    refused := caching.CreateClass(Some(d));
    afterRefused := wrapped.classCalls;
  }
}
