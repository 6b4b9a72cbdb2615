/**
 * Model (and GenericModel, its copy with the other interface names): a box
 * around one object, with attach/detach passed on to the object when it
 * supports them.
 */
module GenericModel {
  import opened JavaObjects
  import opened ModelWorld

  class Model {
    /** The field `object`. */
    var obj: Value

    /** The no-argument constructor: an empty box. */
    constructor Empty()
      ensures obj == Null
    {
      obj := Null;
    }

    /** The constructor with an object, which stores it through setObject. */
    constructor(obj: Value)
      ensures this.obj == obj
    {
      this.obj := obj;
    }

    /** of(): a new empty model. */
    static method Of() returns (m: Model)
      ensures fresh(m) && m.obj == Null
    {
      m := new Model.Empty();
    }

    /** of(object): a new model holding the object. */
    static method OfObject(obj: Value) returns (m: Model)
      ensures fresh(m) && m.obj == obj
    {
      m := new Model(obj);
    }

    /** of(model): no new model, the argument itself. */
    static method OfModel(model: Model) returns (m: Model)
      ensures m == model
    {
      m := model;
    }

    function GetObject(): Value
      reads this
    {
      obj
    }

    method SetObject(obj: Value)
      modifies this
      ensures this.obj == obj
    {
      this.obj := obj;
    }

    method Attach(table: ClassTable, h: Heap) returns (calls: seq<Forward>)
      ensures calls == ForwardIf(table, h, obj, ATTACHABLE_IFACE, AttachCall(obj))
    {
      calls := [];
      if InstanceOf(table, h, obj, ATTACHABLE_IFACE) {
        calls := [AttachCall(obj)];
      }
    }

    method Detach(table: ClassTable, h: Heap) returns (calls: seq<Forward>)
      ensures calls == ForwardIf(table, h, obj, DETACHABLE_IFACE, DetachCall(obj))
    {
      calls := [];
      if InstanceOf(table, h, obj, DETACHABLE_IFACE) {
        calls := [DetachCall(obj)];
      }
    }

    /** getObjectClass: null exactly for a null object, else the object's runtime class. */
    function GetObjectClass(h: Heap): (r: Result<Option<ClassName>>)
      reads this
      ensures r == Ok(None) <==> obj == Null
      ensures ClassOf(h, obj).Ok? ==> r == Ok(Some(ClassOf(h, obj).value))
    {
      if obj == Null then Ok(None)
      else
        match ClassOf(h, obj)
        case Ok(c) => Ok(Some(c))
        case Err(e) => Err(e)
    }
  }

  /**
   * The box keeps what it is given: the constructor's object is read back,
   * then each later setObject's.
   */
  method BoxKeepsLastObject(x: Value, y: Value) returns (first: Value, second: Value, same: bool)
    ensures first == x && second == y && same
  {
    var m := new Model(x);
    first := m.GetObject();
    m.SetObject(y);
    second := m.GetObject();
    var again := Model.OfModel(m);
    same := again == m;
  }
}
