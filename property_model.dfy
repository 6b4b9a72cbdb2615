/**
 * PropertyModel: a chaining model with a property expression. An empty
 * expression makes it a plain chaining model unwrapped to the innermost
 * object; otherwise reads and writes go through the property resolver on the
 * innermost object. AbstractPropertyModel supplies the behaviour and
 * PropertyModel the final expression, the factory and toString.
 */
module PropertyModel {
  import opened JavaObjects
  import opened ModelWorld
  import opened ChainingModel
  import opened DefaultClassCache
  import opened PropertyResolver

  /** The innermost object, or the error standing for a loop that has not ended. */
  function InnermostOrFail(table: ClassTable, models: Models, h: Heap, target: Value, fuel: nat): (r: Result<Value>)
    ensures r.Ok? <==> Innermost(table, models, h, target, fuel).Some?
    ensures r.Ok? ==> r.value == Innermost(table, models, h, target, fuel).value
    ensures r.Err? ==> r.error == OutOfFuel
  {
    match Innermost(table, models, h, target, fuel)
    case Some(x) => Ok(x)
    case None => Err(OutOfFuel)
  }

  /** The expression starts with '.'. */
  predicate StartsWithDot(expression: Option<string>)
  {
    expression.Some? && |expression.value| > 0 && expression.value[0] == '.'
  }

  /**
   * getObject: an empty expression answers the innermost object; one that
   * starts with '.' is refused; a null innermost object answers null; any
   * other is read by the resolver. Reading never changes the heap.
   */
  function PropertyGet(table: ClassTable, models: Models, h: Heap, target: Value, expression: Option<string>, cache: CacheMap, fuel: nat): (r: Answer<Value>)
    ensures r.heap == h
    ensures IsEmpty(expression) ==> r == Answer(cache, h, InnermostOrFail(table, models, h, target, fuel))
    ensures StartsWithDot(expression) ==> r == Answer(cache, h, Err(IllegalArgument))
    ensures !IsEmpty(expression) && !StartsWithDot(expression) && InnermostOrFail(table, models, h, target, fuel).Ok? ==>
      r == GetValue(table, expression, InnermostOrFail(table, models, h, target, fuel).value, cache, h)
    ensures !IsEmpty(expression) && InnermostOrFail(table, models, h, target, fuel) == Ok(Null) ==> r.result.Ok? ==> r.result.value == Null
  {
    if IsEmpty(expression) then Answer(cache, h, InnermostOrFail(table, models, h, target, fuel))
    else if StartsWithDot(expression) then Answer(cache, h, Err(IllegalArgument))
    else
      match InnermostOrFail(table, models, h, target, fuel)
      case Err(e) => Answer(cache, h, Err(e))
      case Ok(x) => if x.Null? then Answer(cache, h, Ok(Null)) else GetValue(table, expression, x, cache, h)
  }

  /**
   * getObjectClass: an empty expression gives the innermost object's class,
   * or null for a null object; a non-null innermost object asks the resolver
   * and turns any exception into null. The descriptor lookup on a null
   * innermost object is not modelled and gives null.
   */
  function PropertyClass(table: ClassTable, models: Models, h: Heap, target: Value, expression: Option<string>, cache: CacheMap, fuel: nat): (r: Answer<Option<ClassName>>)
    ensures r.heap == h
    ensures r.result.Err? ==> r.result.error == OutOfFuel || r.result.error == Dangling
    ensures InnermostOrFail(table, models, h, target, fuel) == Ok(Null) ==> r.result == Ok(None)
    ensures IsEmpty(expression) && InnermostOrFail(table, models, h, target, fuel).Ok? && ClassOf(h, InnermostOrFail(table, models, h, target, fuel).value).Ok? ==>
      r == Answer(cache, h, Ok(Some(ClassOf(h, InnermostOrFail(table, models, h, target, fuel).value).value)))
    ensures !IsEmpty(expression) && InnermostOrFail(table, models, h, target, fuel).Ok? && InnermostOrFail(table, models, h, target, fuel).value != Null ==>
      var a := GetPropertyClassOf(table, expression, InnermostOrFail(table, models, h, target, fuel).value, cache, h);
      r == Answer(a.cache, h, if a.result.Ok? then a.result else Ok(None))
  {
    match InnermostOrFail(table, models, h, target, fuel)
    case Err(e) => Answer(cache, h, Err(e))
    case Ok(x) =>
      if x.Null? then Answer(cache, h, Ok(None))
      else if IsEmpty(expression) then
        (match ClassOf(h, x)
         case Ok(c) => Answer(cache, h, Ok(Some(c)))
         case Err(e) => Answer(cache, h, Err(e)))
      else
        var a := GetPropertyClassOf(table, expression, x, cache, h);
        Answer(a.cache, h, if a.result.Ok? then a.result else Ok(None))
  }

  /**
   * setObject: an empty expression writes through a model target or replaces
   * a plain one; any other sets the path on the innermost object through the
   * resolver. Gives the new target and the resolver's answer.
   */
  function PropertySet(table: ClassTable, models: Models, h: Heap, target: Value, expression: Option<string>, v: Value, cache: CacheMap, fuel: nat):
    (r: (Value, Answer<()>))
    ensures IsEmpty(expression) ==> r.1.cache == cache && r.1.result == Ok(()) && (r.0, r.1.heap) == SetThrough(table, models, h, target, v)
    ensures !IsEmpty(expression) ==> r.0 == target
    ensures !IsEmpty(expression) && InnermostOrFail(table, models, h, target, fuel).Ok? ==>
      r.1 == SetValue(table, expression, InnermostOrFail(table, models, h, target, fuel).value, v, cache, h)
  {
    if IsEmpty(expression) then
      var (t, h') := SetThrough(table, models, h, target, v);
      (t, Answer(cache, h', Ok(())))
    else
      match InnermostOrFail(table, models, h, target, fuel)
      case Err(e) => (target, Answer(cache, h, Err(e)))
      case Ok(x) => (target, SetValue(table, expression, x, v, cache, h))
  }

  /**
   * With an empty expression, a plain value written is read back, through any
   * box-like nested model.
   */
  lemma EmptyExpressionSetThenGet(table: ClassTable, models: Models, h: Heap, target: Value, expression: Option<string>, v: Value, cache: CacheMap, fuel: nat)
    requires Lawful(table, models) && IsEmpty(expression) && !IsModel(table, h, v) && fuel >= 1
    ensures var (t, a) := PropertySet(table, models, h, target, expression, v, cache, fuel);
      PropertyGet(table, models, a.heap, t, expression, a.cache, fuel).result == Ok(v)
  {
    if IsModel(table, h, target) {
      var h' := models.setOf(h, target, v);
      assert models.getOf(h', target) == v;
      assert IsModel(table, h', target) && !IsModel(table, h', v);
      InnermostOfOneModel(table, models, h', target, fuel);
    }
  }

  /** With a non-empty expression the target is never replaced, whatever the write does. */
  lemma PropertySetKeepsTarget(table: ClassTable, models: Models, h: Heap, target: Value, expression: Option<string>, v: Value, cache: CacheMap, fuel: nat)
    requires !IsEmpty(expression)
    ensures PropertySet(table, models, h, target, expression, v, cache, fuel).0 == target
  {
  }

  /** A '.' at the start is refused by getObject but not by setObject, which hands it to the resolver. */
  lemma LeadingDotOnlyRefusedOnRead(table: ClassTable, models: Models, h: Heap, target: Value, expression: Option<string>, v: Value, cache: CacheMap, fuel: nat)
    requires StartsWithDot(expression) && InnermostOrFail(table, models, h, target, fuel).Ok?
    ensures PropertyGet(table, models, h, target, expression, cache, fuel).result == Err(IllegalArgument)
    ensures PropertySet(table, models, h, target, expression, v, cache, fuel).1 ==
      SetValue(table, expression, InnermostOrFail(table, models, h, target, fuel).value, v, cache, h)
  {
  }

  /** The text toString shows for the expression: String.valueOf, so null reads "null". */
  function ExpressionText(expression: Option<string>): (r: string)
    ensures expression.Some? ==> r == expression.value
    ensures expression.None? ==> r == "null"
  {
    if expression.Some? then expression.value else "null"
  }

  class PropertyModel {
    /** The chaining model this one extends: the class name and the target. */
    const chain: ChainingModel
    /** The property expression, fixed at construction. */
    const expression: Option<string>

    constructor(className: ClassName, modelObject: Value, expression: Option<string>)
      ensures fresh(chain) && chain.className == className && chain.target == modelObject
      ensures this.expression == expression
    {
      chain := new ChainingModel(className, modelObject);
      this.expression := expression;
    }

    /** of(parent, property): the constructor under another name. */
    static method Of(className: ClassName, parent: Value, property: Option<string>) returns (m: PropertyModel)
      ensures fresh(m) && fresh(m.chain)
      ensures m.chain.className == className && m.chain.target == parent && m.expression == property
    {
      m := new PropertyModel(className, parent, property);
    }

    method GetInnermostModelOrObject(table: ClassTable, models: Models, h: Heap, fuel: nat) returns (r: Option<Value>)
      ensures r == Innermost(table, models, h, chain.target, fuel)
    {
      r := chain.GetInnermostModelOrObject(table, models, h, fuel);
    }

    method GetObject(resolver: PropertyResolver, table: ClassTable, models: Models, h: Heap, fuel: nat) returns (r: Result<Value>)
      modifies resolver, if OwnClass in resolver.scopes then {resolver.scopes[OwnClass]} else {}
      ensures forall k :: k != OwnClass ==> (k in resolver.scopes <==> k in old(resolver.scopes)) && (k in resolver.scopes ==> resolver.scopes[k] == old(resolver.scopes[k]))
      ensures Answer(resolver.DefaultEntries(), h, r) == PropertyGet(table, models, h, chain.target, expression, old(resolver.DefaultEntries()), fuel)
    {
      if IsEmpty(expression) {
        var inner := chain.GetInnermostModelOrObject(table, models, h, fuel);
        return if inner.Some? then Ok(inner.value) else Err(OutOfFuel);
      } else if StartsWithDot(expression) {
        return Err(IllegalArgument);
      }
      var inner := chain.GetInnermostModelOrObject(table, models, h, fuel);
      if inner.None? {
        return Err(OutOfFuel);
      }
      if inner.value != Null {
        r := resolver.GetValueOf(table, expression, inner.value, h);
        return;
      }
      return Ok(Null);
    }

    method GetObjectClass(resolver: PropertyResolver, table: ClassTable, models: Models, h: Heap, fuel: nat) returns (r: Result<Option<ClassName>>)
      modifies resolver, if OwnClass in resolver.scopes then {resolver.scopes[OwnClass]} else {}
      ensures forall k :: k != OwnClass ==> (k in resolver.scopes <==> k in old(resolver.scopes)) && (k in resolver.scopes ==> resolver.scopes[k] == old(resolver.scopes[k]))
      ensures Answer(resolver.DefaultEntries(), h, r) == PropertyClass(table, models, h, chain.target, expression, old(resolver.DefaultEntries()), fuel)
    {
      var inner := chain.GetInnermostModelOrObject(table, models, h, fuel);
      if inner.None? {
        return Err(OutOfFuel);
      }
      var target := inner.value;
      if IsEmpty(expression) {
        if target == Null {
          return Ok(None);
        }
        var c := ClassOf(h, target);
        return if c.Ok? then Ok(Some(c.value)) else Err(c.error);
      }
      if target != Null {
        var c := resolver.GetPropertyClassOfObject(table, expression, target, h);
        if c.Ok? {
          return c;
        }
      }
      return Ok(None);
    }

    method SetObject(resolver: PropertyResolver, table: ClassTable, models: Models, h: Heap, v: Value, fuel: nat) returns (h': Heap, r: Result<()>)
      modifies chain, resolver, if OwnClass in resolver.scopes then {resolver.scopes[OwnClass]} else {}
      ensures forall k :: k != OwnClass ==> (k in resolver.scopes <==> k in old(resolver.scopes)) && (k in resolver.scopes ==> resolver.scopes[k] == old(resolver.scopes[k]))
      ensures (chain.target, Answer(resolver.DefaultEntries(), h', r)) ==
        PropertySet(table, models, h, old(chain.target), expression, v, old(resolver.DefaultEntries()), fuel)
    {
      if IsEmpty(expression) {
        h' := chain.SetObject(table, models, h, v);
        return h', Ok(());
      }
      var inner := chain.GetInnermostModelOrObject(table, models, h, fuel);
      if inner.None? {
        return h, Err(OutOfFuel);
      }
      h', r := resolver.SetValueOf(table, expression, inner.value, v, h);
    }

    /** toString: the chaining text and ":expression=[<expression>]". */
    function ToString(targetText: string): string
      reads this, chain
    {
      chain.ToString(MODEL_PREFIX, targetText) + ":expression=[" + ExpressionText(expression) + "]"
    }
  }
}
