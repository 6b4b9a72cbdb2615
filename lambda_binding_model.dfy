/**
 * LambdaBindingModel: a model that binds a property of a source model's
 * object to a property of a target model's object. Writes go to both sides;
 * the two-sided variant also copies the source value into the target when it
 * is read and the two differ.
 */
module LambdaBindingModel {
  import opened JavaObjects
  import opened ModelWorld

  datatype BindingModel =
    | Shared(source: Value, target: Value, getter: Getter, setter: Setter)  // of(source, target, getter, setter)
    | TwoSided(source: Value, target: Value, sourceGetter: Getter, sourceSetter: Setter,
               targetGetter: Getter, targetSetter: Setter)                    // the six-argument of

  /** attach and detach go to the source model and then to the target model. */
  function Attach(b: BindingModel): (r: Forwarded)
    ensures b.source != Null && b.target != Null ==> r == Forwarded([AttachCall(b.source), AttachCall(b.target)], Done)
    ensures b.source.Null? ==> r == Forwarded([], Fails(NullPointer))
  {
    Then(CallOn(b.source, AttachCall(b.source)), CallOn(b.target, AttachCall(b.target)))
  }

  function Detach(b: BindingModel): (r: Forwarded)
    ensures b.source != Null && b.target != Null ==> r == Forwarded([DetachCall(b.source), DetachCall(b.target)], Done)
    ensures b.source.Null? ==> r == Forwarded([], Fails(NullPointer))
  {
    Then(CallOn(b.source, DetachCall(b.source)), CallOn(b.target, DetachCall(b.target)))
  }

  /** The setter applied to the source's object: the shared one, or the source's own. */
  function SourceSetter(b: BindingModel): (r: Setter)
    ensures b.Shared? ==> r == b.setter
    ensures b.TwoSided? ==> r == b.sourceSetter
  {
    if b.Shared? then b.setter else b.sourceSetter
  }

  /** The setter applied to the target's object: the shared one again, or the target's own. */
  function TargetSetter(b: BindingModel): (r: Setter)
    ensures b.Shared? ==> r == b.setter
    ensures b.TwoSided? ==> r == b.targetSetter
  {
    if b.Shared? then b.setter else b.targetSetter
  }

  /**
   * setObject (both variants): the source's object is written, then the
   * target's object as it is after that write; a null object is skipped.
   */
  function SetObject(models: Models, b: BindingModel, h: Heap, t: Value): (r: Effect<()>)
    ensures b.source.Null? ==> r == Effect(h, Err(NullPointer))
  {
    match ModelObject(models, h, b.source)
    case Err(e) => Effect(h, Err(e))
    case Ok(so) =>
      var first := if so.Null? then Ok(h) else SourceSetter(b)(h, so, t);
      match first
      case Err(e) => Effect(h, Err(e))
      case Ok(h1) =>
        match ModelObject(models, h1, b.target)
        case Err(e) => Effect(h1, Err(e))
        case Ok(to) =>
          var second := if to.Null? then Ok(h1) else TargetSetter(b)(h1, to, t);
          match second
          case Err(e) => Effect(h1, Err(e))
          case Ok(h2) => Effect(h2, Ok(()))
  }

  /** getObject of the shared variant: null for a null source object, else its property. */
  function SharedGetObject(models: Models, b: BindingModel, h: Heap): (r: Result<Value>)
    requires b.Shared?
    ensures b.source.Null? ==> r == Err(NullPointer)
    ensures b.source != Null && models.getOf(h, b.source) == Null ==> r == Ok(Null)
    ensures b.source != Null && models.getOf(h, b.source) != Null ==> r == b.getter(h, models.getOf(h, b.source))
  {
    match ModelObject(models, h, b.source)
    case Err(e) => Err(e)
    case Ok(so) => if so.Null? then Ok(Null) else b.getter(h, so)
  }

  /**
   * getObject of the two-sided variant as written: both objects null answer
   * null; both non-null copy a non-null source value that differs from the
   * target's into the target; then the source getter is applied to the source
   * object, even when that object is null.
   */
  function TwoSidedGetObjectAsWritten(models: Models, b: BindingModel, h: Heap): (r: Effect<Value>)
    requires b.TwoSided?
    ensures b.source.Null? ==> r == Effect(h, Err(NullPointer))
    ensures b.source != Null && b.target.Null? ==> r == Effect(h, Err(NullPointer))
    ensures b.source != Null && b.target != Null && models.getOf(h, b.source) == Null ==>
      r == Effect(h, if models.getOf(h, b.target) == Null then Ok(Null) else b.sourceGetter(h, Null))
    ensures r.heap != h ==> b.source != Null && b.target != Null
    ensures r.heap != h ==>
      var so, to := models.getOf(h, b.source), models.getOf(h, b.target);
      so != Null && to != Null && b.sourceGetter(h, so).Ok? && b.sourceGetter(h, so).value != Null &&
      b.targetGetter(h, to) != b.sourceGetter(h, so) &&
      b.targetSetter(h, to, b.sourceGetter(h, so).value) == Ok(r.heap) && r.result == b.sourceGetter(r.heap, so)
  {
    match (ModelObject(models, h, b.source), ModelObject(models, h, b.target))
    case (Err(e), _) => Effect(h, Err(e))
    case (_, Err(e)) => Effect(h, Err(e))
    case (Ok(so), Ok(to)) =>
      if so.Null? && to.Null? then Effect(h, Ok(Null))
      else if so != Null && to != Null then
        match (b.sourceGetter(h, so), b.targetGetter(h, to))
        case (Err(e), _) => Effect(h, Err(e))
        case (_, Err(e)) => Effect(h, Err(e))
        case (Ok(sa), Ok(ta)) =>
          if sa != Null && sa != ta then
            match b.targetSetter(h, to, sa)
            case Err(e) => Effect(h, Err(e))
            case Ok(h1) => Effect(h1, b.sourceGetter(h1, so))
          else Effect(h, b.sourceGetter(h, so))
      else Effect(h, b.sourceGetter(h, so))
  }

  /** The two-sided getObject as evidently intended: a null source object answers null, like the shared variant. */
  function TwoSidedGetObject(models: Models, b: BindingModel, h: Heap): (r: Effect<Value>)
    requires b.TwoSided?
    ensures b.source != Null && models.getOf(h, b.source) == Null && b.target != Null ==> r == Effect(h, Ok(Null))
    ensures b.source.Null? || models.getOf(h, b.source) != Null ==> r == TwoSidedGetObjectAsWritten(models, b, h)
  {
    if b.source != Null && models.getOf(h, b.source) == Null && b.target != Null then Effect(h, Ok(Null))
    else TwoSidedGetObjectAsWritten(models, b, h)
  }

  /** getObject of either variant, as written. */
  function GetObjectAsWritten(models: Models, b: BindingModel, h: Heap): (r: Effect<Value>)
    ensures b.Shared? ==> r == Effect(h, SharedGetObject(models, b, h))
    ensures b.TwoSided? ==> r == TwoSidedGetObjectAsWritten(models, b, h)
  {
    if b.Shared? then Effect(h, SharedGetObject(models, b, h)) else TwoSidedGetObjectAsWritten(models, b, h)
  }

  /**
   * getObject of either variant with the two-sided read corrected: it differs
   * from the code as written only for a null source object beside a non-null
   * target object, which answers null.
   */
  function GetObject(models: Models, b: BindingModel, h: Heap): (r: Effect<Value>)
    ensures b.Shared? ==> r == Effect(h, SharedGetObject(models, b, h))
    ensures b.TwoSided? ==> r == TwoSidedGetObject(models, b, h)
    ensures !(b.TwoSided? && b.source != Null && b.target != Null && models.getOf(h, b.source) == Null) ==>
      r == GetObjectAsWritten(models, b, h)
  {
    if b.Shared? then Effect(h, SharedGetObject(models, b, h)) else TwoSidedGetObject(models, b, h)
  }

  /** Both objects null: the two-sided read answers null and writes nothing. */
  lemma BothNullReadsNull(models: Models, b: BindingModel, h: Heap)
    requires b.TwoSided? && b.source != Null && b.target != Null
    requires models.getOf(h, b.source) == Null && models.getOf(h, b.target) == Null
    ensures GetObjectAsWritten(models, b, h) == Effect(h, Ok(Null))
    ensures GetObject(models, b, h) == Effect(h, Ok(Null))
  {
  }

  /**
   * As written, a null source object beside a non-null target object hands
   * null to the source getter; a getter method reference then throws.
   */
  lemma NullSourceObjectThrowsAsWritten(models: Models, source: Value, target: Value, bean: Value,
                                        fs: FieldDecl, ft: FieldDecl, h: Heap)
    requires source != Null && target != Null && bean != Null
    requires models.getOf(h, source) == Null && models.getOf(h, target) == bean
    ensures var b := TwoSided(source, target, FieldGetter(fs), FieldSetter(fs), FieldGetter(ft), FieldSetter(ft));
      GetObjectAsWritten(models, b, h) == Effect(h, Err(NullPointer)) &&
      GetObject(models, b, h) == Effect(h, Ok(Null))
  {
  }

  /**
   * Writing through either variant with field setters on two beans: each
   * bean's field holds the value written, when the models keep holding their
   * beans.
   */
  lemma SetWritesBothSides(models: Models, b: BindingModel, person: Value, other: Value,
                           fs: FieldDecl, ft: FieldDecl, h: Heap, t: Value)
    requires b.source != Null && b.target != Null
    requires Holds(models, b.source, person) && Holds(models, b.target, other)
    requires person.Ref? && other.Ref? && person.addr != other.addr
    requires FieldSet(h, fs, person, t).Ok? && FieldSet(FieldSet(h, fs, person, t).value, ft, other, t).Ok?
    requires SourceSetter(b) == FieldSetter(fs) && TargetSetter(b) == FieldSetter(ft)
    ensures var r := SetObject(models, b, h, t);
      r.result == Ok(()) && FieldGet(r.heap, fs, person) == Ok(t) && FieldGet(r.heap, ft, other) == Ok(t)
  {
    var h1 := FieldSet(h, fs, person, t).value;
    var h2 := FieldSet(h1, ft, other, t).value;
    assert models.getOf(h, b.source) == person && models.getOf(h1, b.target) == other;
    assert SetObject(models, b, h, t) == Effect(h2, Ok(()));
    assert h2[person.addr] == h1[person.addr];
  }

  /**
   * Reading the two-sided variant over two beans whose source value is set
   * and differs from the target's: the target bean receives the source value
   * and the read answers it.
   */
  lemma ReadCopiesSourceToTarget(models: Models, source: Value, target: Value, person: Value, company: Value,
                                 fs: FieldDecl, ft: FieldDecl, h: Heap)
    requires source != Null && target != Null
    requires Holds(models, source, person) && Holds(models, target, company)
    requires person.Ref? && company.Ref? && person.addr != company.addr
    requires FieldGet(h, fs, person).Ok? && FieldGet(h, fs, person).value != Null
    requires FieldGet(h, ft, company).Ok? && FieldGet(h, ft, company) != FieldGet(h, fs, person)
    requires FieldSet(h, ft, company, FieldGet(h, fs, person).value).Ok?
    ensures var b := TwoSided(source, target, FieldGetter(fs), FieldSetter(fs), FieldGetter(ft), FieldSetter(ft));
      var r := GetObjectAsWritten(models, b, h);
      r == GetObject(models, b, h) &&
      r.result == FieldGet(h, fs, person) && FieldGet(r.heap, ft, company) == FieldGet(h, fs, person)
  {
    var sa := FieldGet(h, fs, person).value;
    var h1 := FieldSet(h, ft, company, sa).value;
    assert models.getOf(h, source) == person && models.getOf(h, target) == company;
    assert h1[person.addr] == h[person.addr];
    assert FieldGet(h1, fs, person) == FieldGet(h, fs, person);
  }

  /** While both models hold null, a write changes nothing and ends normally. */
  lemma SetSkipsNullObjects(models: Models, b: BindingModel, h: Heap, t: Value)
    requires b.source != Null && b.target != Null
    requires Holds(models, b.source, Null) && Holds(models, b.target, Null)
    ensures SetObject(models, b, h, t) == Effect(h, Ok(()))
  {
    assert models.getOf(h, b.source) == Null && models.getOf(h, b.target) == Null;
  }
}
