/**
 * LoadableDetachableModel: a model that loads its object on first use, keeps
 * it while attached, and forgets it on detach. Its two fields are an
 * `attached` flag and the transient object.
 *
 * The hooks a subclass provides (load, onAttach, onDetach) are foreign code:
 * the n-th call of each answers `load(n)`, `onAttach(n)` and `onDetach(n)`,
 * and the model counts how often each was called.
 */
module LoadableDetachableModel {
  import opened JavaObjects

  class LoadableDetachableModel {
    var attached: bool
    var transientModelObject: Value
    const load: nat -> Result<Value>
    const onAttach: nat -> Outcome
    const onDetach: nat -> Outcome
    var loads: nat
    var attaches: nat
    var detaches: nat

    /** A detached model holds no object. */
    predicate Valid()
      reads this
    {
      !attached ==> transientModelObject == Null
    }

    /** The no-argument constructor: detached, no object. */
    constructor(load: nat -> Result<Value>, onAttach: nat -> Outcome, onDetach: nat -> Outcome)
      ensures Valid() && !attached && transientModelObject == Null
      ensures this.load == load && this.onAttach == onAttach && this.onDetach == onDetach
      ensures loads == 0 && attaches == 0 && detaches == 0
    {
      this.load, this.onAttach, this.onDetach := load, onAttach, onDetach;
      attached := false;
      transientModelObject := Null;
      loads, attaches, detaches := 0, 0, 0;
    }

    /** The constructor with an already retrieved object: attached, holding it. */
    constructor WithObject(obj: Value, load: nat -> Result<Value>, onAttach: nat -> Outcome, onDetach: nat -> Outcome)
      ensures Valid() && attached && transientModelObject == obj
      ensures this.load == load && this.onAttach == onAttach && this.onDetach == onDetach
      ensures loads == 0 && attaches == 0 && detaches == 0
    {
      this.load, this.onAttach, this.onDetach := load, onAttach, onDetach;
      transientModelObject := obj;
      attached := true;
      loads, attaches, detaches := 0, 0, 0;
    }

    /** attach (of the io copy): does nothing. */
    method Attach()
    {
    }

    /**
     * detach: on an attached model onDetach runs, and then (even when it
     * throws) the flag and the object are cleared; a detached model is left
     * alone.
     */
    method Detach() returns (r: Outcome)
      requires Valid()
      modifies this
      ensures Valid() && !attached && transientModelObject == Null
      ensures old(attached) ==> r == onDetach(old(detaches)) && detaches == old(detaches) + 1
      ensures !old(attached) ==> r == Done && detaches == old(detaches)
      ensures loads == old(loads) && attaches == old(attaches)
    {
      r := Done;
      if attached {
        r := onDetach(detaches);
        detaches := detaches + 1;
        attached := false;
        transientModelObject := Null;
      }
    }

    /**
     * getObject: a detached model is marked attached, loads and runs onAttach;
     * an attached one answers its object without loading. A load that throws
     * leaves the model attached with no object.
     */
    method GetObject() returns (r: Result<Value>)
      requires Valid()
      modifies this
      ensures Valid() && attached
      ensures old(attached) ==> r == Ok(transientModelObject) && transientModelObject == old(transientModelObject)
      ensures old(attached) ==> loads == old(loads) && attaches == old(attaches)
      ensures !old(attached) ==> loads == old(loads) + 1
      ensures !old(attached) && load(old(loads)).Err? ==>
        r == Err(load(old(loads)).error) && transientModelObject == Null && attaches == old(attaches)
      ensures !old(attached) && load(old(loads)).Ok? ==>
        transientModelObject == load(old(loads)).value && attaches == old(attaches) + 1 &&
        r == (if onAttach(old(attaches)).Fails? then Err(onAttach(old(attaches)).error) else Ok(transientModelObject))
      ensures detaches == old(detaches)
    {
      if !attached {
        attached := true;
        var loaded := load(loads);
        loads := loads + 1;
        if loaded.Err? {
          return Err(loaded.error);
        }
        transientModelObject := loaded.value;
        var hook := onAttach(attaches);
        attaches := attaches + 1;
        if hook.Fails? {
          return Err(hook.error);
        }
      }
      return Ok(transientModelObject);
    }

    /** setObject: the object is stored and the model counts as attached, so no load follows. */
    method SetObject(obj: Value)
      modifies this
      ensures attached && transientModelObject == obj && Valid()
      ensures loads == old(loads) && attaches == old(attaches) && detaches == old(detaches)
    {
      attached := true;
      transientModelObject := obj;
    }

    function IsAttached(): (r: bool)
      reads this
      ensures r == attached
    {
      attached
    }

    /**
     * toString: Object.toString (`identity`), then ":attached=<flag>" and
     * ":tempModelObject=[<object>]"; `objectText` is the text of a referenced object.
     */
    function ToString(identity: string, objectText: string): string
      reads this
    {
      identity + StateText(attached, transientModelObject, objectText)
    }
  }

  /** What toString appends to the identity part: the flag and the object. */
  function StateText(attached: bool, obj: Value, objectText: string): string
  {
    ":attached=" + Render(BoolVal(attached), "") + ":tempModelObject=[" + Render(obj, objectText) + "]"
  }

  /** The text of a detached model, which holds null. */
  lemma DetachedText()
    ensures StateText(false, Null, "") == ":attached=false:tempModelObject=[null]"
  {
  }

  /** The text of an attached model holding "foo". */
  lemma AttachedText()
    ensures StateText(true, StrVal("foo"), "") == ":attached=true:tempModelObject=[foo]"
  {
  }

  /** A load that throws is not tried again: the model stays attached and answers null from then on. */
  method FailedLoadIsNotRetried() returns (first: Result<Value>, second: Result<Value>, loadsMade: nat)
    ensures first == Err(HookFailed) && second == Ok(Null) && loadsMade == 1
  {
    var m := new LoadableDetachableModel(_ => Err(HookFailed), _ => Done, _ => Done);
    first := m.GetObject();
    second := m.GetObject();
    loadsMade := m.loads;
  }

  /**
   * The toString test: a model whose load gives "foo" reads detached and null,
   * then attached and "foo" after getObject, then detached and null after
   * detach; a second getObject in between does not load again.
   */
  method LoadDetachCycle(identity: string)
    returns (before: string, loaded: string, detached: string, loadsMade: nat, afterSet: Result<Value>)
    ensures before == identity + ":attached=false:tempModelObject=[null]"
    ensures loaded == identity + ":attached=true:tempModelObject=[foo]"
    ensures detached == identity + ":attached=false:tempModelObject=[null]"
    ensures loadsMade == 1
    ensures afterSet == Ok(StrVal("bar"))
  {
    var m := new LoadableDetachableModel(_ => Ok(StrVal("foo")), _ => Done, _ => Done);
    DetachedText();
    AttachedText();
    before := m.ToString(identity, "");
    var _ := m.GetObject();
    var _ := m.GetObject();
    loaded := m.ToString(identity, "");
    loadsMade := m.loads;
    var _ := m.Detach();
    detached := m.ToString(identity, "");
    m.SetObject(StrVal("bar"));
    afterSet := m.GetObject();
  }
}
