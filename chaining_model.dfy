/**
 * ChainingModel: a model whose target is either a plain object or another
 * model. Reads and writes go through a model target and act on a plain one;
 * attach/detach are passed on when the target supports them; the innermost
 * object is found by unwrapping models one at a time.
 */
module ChainingModel {
  import opened JavaObjects
  import opened ModelWorld

  /** getObject: a model target's object, else the target itself. */
  function ObjectOf(table: ClassTable, models: Models, h: Heap, target: Value): (r: Value)
    ensures !IsModel(table, h, target) ==> r == target
    ensures IsModel(table, h, target) ==> r == models.getOf(h, target)
  {
    if IsModel(table, h, target) then models.getOf(h, target) else target
  }

  /** setObject: a model target is written through and kept; a plain target is replaced. Gives the new target and heap. */
  function SetThrough(table: ClassTable, models: Models, h: Heap, target: Value, v: Value): (r: (Value, Heap))
    ensures IsModel(table, h, target) ==> r == (target, models.setOf(h, target, v))
    ensures !IsModel(table, h, target) ==> r == (v, h)
  {
    if IsModel(table, h, target) then (target, models.setOf(h, target, v)) else (v, h)
  }

  /**
   * What is written is read back, when nested models behave like boxes and a
   * plain target is not replaced by a model.
   */
  lemma SetThenGet(table: ClassTable, models: Models, h: Heap, target: Value, v: Value)
    requires Lawful(table, models)
    requires IsModel(table, h, target) || !IsModel(table, h, v)
    ensures var (t, h') := SetThrough(table, models, h, target, v); ObjectOf(table, models, h', t) == v
  {
    if IsModel(table, h, target) {
      assert IsModel(table, models.setOf(h, target, v), target);
    }
  }

  /** Writing a model into a plain target chains to it: the next read answers that model's object. */
  lemma SetModelChains(table: ClassTable, models: Models, h: Heap, target: Value, m: Value)
    requires !IsModel(table, h, target) && IsModel(table, h, m)
    ensures var (t, h') := SetThrough(table, models, h, target, m); t == m && ObjectOf(table, models, h', t) == models.getOf(h, m)
  {
  }

  /**
   * getInnermostModelOrObject, as a specification: unwrap models until a
   * non-model or a model that answers itself. The Java loop does not end on a
   * cycle of two or more models, so the answer is bounded by `fuel` further
   * unwrappings and None means the loop is still running.
   */
  function Innermost(table: ClassTable, models: Models, h: Heap, v: Value, fuel: nat): (r: Option<Value>)
    ensures r.Some? ==> !IsModel(table, h, r.value) || models.getOf(h, r.value) == r.value
    ensures !IsModel(table, h, v) ==> r == Some(v)
    decreases fuel
  {
    if !IsModel(table, h, v) then Some(v)
    else
      var tmp := models.getOf(h, v);
      if tmp == v then Some(v)
      else if fuel == 0 then None
      else Innermost(table, models, h, tmp, fuel - 1)
  }

  /** More fuel never changes an answer already reached. */
  lemma {:induction false} InnermostMoreFuel(table: ClassTable, models: Models, h: Heap, v: Value, fuel: nat, more: nat)
    requires Innermost(table, models, h, v, fuel).Some?
    ensures Innermost(table, models, h, v, fuel + more) == Innermost(table, models, h, v, fuel)
    decreases fuel
  {
    if IsModel(table, h, v) && models.getOf(h, v) != v {
      InnermostMoreFuel(table, models, h, models.getOf(h, v), fuel - 1, more);
    }
  }

  /** A model that holds a plain object unwraps to that object. */
  lemma InnermostOfOneModel(table: ClassTable, models: Models, h: Heap, m: Value, fuel: nat)
    requires IsModel(table, h, m) && !IsModel(table, h, models.getOf(h, m)) && fuel >= 1
    ensures Innermost(table, models, h, m, fuel) == Some(models.getOf(h, m))
  {
  }

  /** Two models answering each other never settle: the Java loop runs forever. */
  lemma TwoCycleDoesNotSettle(table: ClassTable, models: Models, h: Heap, a: Value, b: Value, fuel: nat)
    requires a != b && IsModel(table, h, a) && IsModel(table, h, b)
    requires models.getOf(h, a) == b && models.getOf(h, b) == a
    ensures Innermost(table, models, h, a, fuel) == None
    decreases fuel
  {
    if fuel > 0 {
      TwoCycleDoesNotSettle(table, models, h, b, a, fuel - 1);
    }
  }

  /** The unwrapping loop, with at most `fuel` steps after the first getObject. */
  method InnermostModelOrObject(table: ClassTable, models: Models, h: Heap, start: Value, fuel: nat) returns (r: Option<Value>)
    ensures r == Innermost(table, models, h, start, fuel)
  {
    var obj := start;
    var left := fuel;
    while IsModel(table, h, obj)
      invariant Innermost(table, models, h, obj, left) == Innermost(table, models, h, start, fuel)
      decreases left
    {
      var tmp := models.getOf(h, obj);
      if tmp == obj {
        break;
      }
      if left == 0 {
        return None;
      }
      obj := tmp;
      left := left - 1;
    }
    return Some(obj);
  }

  /** The toString prefix of the io.github.astrapi69 copy in the main module. */
  const IMODEL_PREFIX: string := "IModel:classname=["
  /** The toString prefix of the model-object copies. */
  const MODEL_PREFIX: string := "Model:classname=["

  class ChainingModel {
    /** getClass().getName(): the runtime class of this model. */
    const className: ClassName
    var target: Value

    constructor(className: ClassName, target: Value)
      ensures this.className == className && this.target == target
    {
      this.className := className;
      this.target := target;
    }

    method Attach(table: ClassTable, h: Heap) returns (calls: seq<Forward>)
      ensures calls == ForwardIf(table, h, target, ATTACHABLE_IFACE, AttachCall(target))
    {
      calls := [];
      if InstanceOf(table, h, target, ATTACHABLE_IFACE) {
        calls := [AttachCall(target)];
      }
    }

    method Detach(table: ClassTable, h: Heap) returns (calls: seq<Forward>)
      ensures calls == ForwardIf(table, h, target, DETACHABLE_IFACE, DetachCall(target))
    {
      calls := [];
      if InstanceOf(table, h, target, DETACHABLE_IFACE) {
        calls := [DetachCall(target)];
      }
    }

    /** getChainedModel: the target when it is a model, else null. */
    function GetChainedModel(table: ClassTable, h: Heap): (r: Option<Value>)
      reads this
      ensures r.Some? <==> IsModel(table, h, target)
      ensures r.Some? ==> r.value == target
    {
      if IsModel(table, h, target) then Some(target) else None
    }

    method SetChainedModel(m: Value)
      modifies this
      ensures target == m
    {
      target := m;
    }

    method SetTarget(modelObject: Value) returns (self: ChainingModel)
      modifies this
      ensures target == modelObject && self == this
    {
      target := modelObject;
      return this;
    }

    /** getObject: the nested model's object when the target is a model, else the target itself. */
    function GetObject(table: ClassTable, models: Models, h: Heap): (r: Value)
      reads this
      ensures !IsModel(table, h, target) ==> r == target
      ensures IsModel(table, h, target) ==> r == models.getOf(h, target)
    {
      ObjectOf(table, models, h, target)
    }

    method SetObject(table: ClassTable, models: Models, h: Heap, v: Value) returns (h': Heap)
      modifies this
      ensures (target, h') == SetThrough(table, models, h, old(target), v)
    {
      h' := h;
      if IsModel(table, h, target) {
        h' := models.setOf(h, target, v);
      } else {
        target := v;
      }
    }

    /** toString: the prefix, the class name, and the target's text (`targetText` for a referenced object). */
    function ToString(prefix: string, targetText: string): string
      reads this
    {
      prefix + className + "]:nestedModel=[" + Render(target, targetText) + "]"
    }

    method GetInnermostModelOrObject(table: ClassTable, models: Models, h: Heap, fuel: nat) returns (r: Option<Value>)
      ensures r == Innermost(table, models, h, target, fuel)
    {
      r := InnermostModelOrObject(table, models, h, target, fuel);
    }
  }
}
