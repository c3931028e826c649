/**
 * Object.defineProperty and the integrity levels of ECMAScript 5.1: the
 * property-descriptor merge of [[DefineOwnProperty]] (ECMA-262 5.1 section
 * 8.12.9), the descriptor validation of ToPropertyDescriptor (section
 * 8.10.5), and Object.freeze, seal, preventExtensions, isFrozen and isSealed
 * (sections 15.2.3.8 to 15.2.3.12), with the error numbers the
 * "defineProperty" and "isFrozen" tests of es5.js expect.
 */
module Es5Descriptors {
  import opened Wrappers
  import opened Es5Values

  /** An own property: a data property or an accessor property (getter and setter are functions or undefined). */
  datatype Property =
    | DataProp(value: JsValue, writable: bool, enumerable: bool, configurable: bool)
    | AccessorProp(getter: JsValue, setter: JsValue, enumerable: bool, configurable: bool)

  /** A property descriptor: each field present or absent. */
  datatype Descriptor = Descriptor(
    value: Option<JsValue>, writable: Option<bool>,
    getter: Option<JsValue>, setter: Option<JsValue>,
    enumerable: Option<bool>, configurable: Option<bool>)

  /** The TypeErrors of these operations (JS_E_* in the engine). */
  datatype JsError =
    | NONCONFIGURABLE_REDEFINED
    | NONWRITABLE_MODIFIED
    | PROP_DESC_MISMATCH
    | INVALID_WRITABLE_PROP_DESC
    | OBJECT_NONEXTENSIBLE

  datatype DefineResult = Defined(prop: Property) | Rejected(error: JsError)

  predicate IsAccessorDescriptor(d: Descriptor) { d.getter.Some? || d.setter.Some? }
  predicate IsDataDescriptor(d: Descriptor) { d.value.Some? || d.writable.Some? }
  predicate IsGenericDescriptor(d: Descriptor) { !IsAccessorDescriptor(d) && !IsDataDescriptor(d) }

  function Or<T>(o: Option<T>, dflt: T): T { if o.Some? then o.value else dflt }

  /** Step 12: every field present in the descriptor is set on the property. */
  function Apply(p: Property, d: Descriptor): Property
  {
    match p
    case DataProp(v, w, e, c) =>
      DataProp(Or(d.value, v), Or(d.writable, w), Or(d.enumerable, e), Or(d.configurable, c))
    case AccessorProp(g, s, e, c) =>
      AccessorProp(Or(d.getter, g), Or(d.setter, s), Or(d.enumerable, e), Or(d.configurable, c))
  }

  /** Step 9: converting between kinds keeps enumerable and configurable and resets the rest. */
  function ConvertKind(p: Property): Property
  {
    match p
    case DataProp(_, _, e, c) => AccessorProp(Undefined, Undefined, e, c)
    case AccessorProp(_, _, e, c) => DataProp(Undefined, false, e, c)
  }

  /** Step 4: a new property of the descriptor's kind with every attribute at its default. */
  function Fresh(d: Descriptor): Property
  {
    if IsAccessorDescriptor(d) then AccessorProp(Undefined, Undefined, false, false)
    else DataProp(Undefined, false, false, false)
  }

  /** [[DefineOwnProperty]] with Throw true, on the current own property (None when absent). */
  function DefineOwnProperty(current: Option<Property>, d: Descriptor, extensible: bool): DefineResult
  {
    if current.None? then
      if !extensible then Rejected(OBJECT_NONEXTENSIBLE) else Defined(Apply(Fresh(d), d))
    else
      var p := current.value;
      if !p.configurable && (d.configurable == Some(true) || (d.enumerable.Some? && d.enumerable.value != p.enumerable)) then
        Rejected(NONCONFIGURABLE_REDEFINED)
      else if IsGenericDescriptor(d) then
        Defined(Apply(p, d))
      else if p.DataProp? != IsDataDescriptor(d) then
        if !p.configurable then Rejected(NONCONFIGURABLE_REDEFINED) else Defined(Apply(ConvertKind(p), d))
      else if p.DataProp? then
        if !p.configurable && !p.writable && (d.writable == Some(true) || (d.value.Some? && d.value.value != p.value)) then
          Rejected(NONWRITABLE_MODIFIED)
        else
          Defined(Apply(p, d))
      else
        if !p.configurable && ((d.setter.Some? && d.setter.value != p.setter) || (d.getter.Some? && d.getter.value != p.getter)) then
          Rejected(NONCONFIGURABLE_REDEFINED)
        else
          Defined(Apply(p, d))
  }

  /** An object: its own properties by name and its [[Extensible]] flag. */
  datatype JsObject = JsObject(props: map<string, Property>, extensible: bool)

  datatype ObjectResult = Done(obj: JsObject) | Threw(error: JsError)

  /**
   * Object.defineProperty(o, name, desc): a descriptor mixing accessor fields
   * with value fails with PROP_DESC_MISMATCH, one mixing them with writable
   * with INVALID_WRITABLE_PROP_DESC; otherwise the property is defined.
   */
  function DefineProperty(o: JsObject, name: string, d: Descriptor): ObjectResult
  {
    if IsAccessorDescriptor(d) && d.value.Some? then Threw(PROP_DESC_MISMATCH)
    else if IsAccessorDescriptor(d) && d.writable.Some? then Threw(INVALID_WRITABLE_PROP_DESC)
    else
      match DefineOwnProperty(if name in o.props then Some(o.props[name]) else None, d, o.extensible)
      case Defined(p) => Done(o.(props := o.props[name := p]))
      case Rejected(e) => Threw(e)
  }

  /** Every field the descriptor has, the property already has. */
  predicate Agrees(p: Property, d: Descriptor)
  {
    && d.enumerable in {None, Some(p.enumerable)}
    && d.configurable in {None, Some(p.configurable)}
    && (if p.DataProp? then
          d.getter.None? && d.setter.None? && d.value in {None, Some(p.value)} && d.writable in {None, Some(p.writable)}
        else
          d.value.None? && d.writable.None? && d.getter in {None, Some(p.getter)} && d.setter in {None, Some(p.setter)})
  }

  /**
   * A successful definition carries every field the descriptor has, and
   * a new property takes the descriptor's kind with unspecified attributes
   * false and an unspecified value, getter or setter undefined.
   */
  lemma DefinedReflectsDescriptor(current: Option<Property>, d: Descriptor, extensible: bool)
    ensures var r := DefineOwnProperty(current, d, extensible);
      r.Defined? ==>
        && (d.enumerable.Some? ==> r.prop.enumerable == d.enumerable.value)
        && (d.configurable.Some? ==> r.prop.configurable == d.configurable.value)
        && (IsDataDescriptor(d) && !IsAccessorDescriptor(d) ==> r.prop.DataProp?)
        && (IsAccessorDescriptor(d) && !IsDataDescriptor(d) ==> r.prop.AccessorProp?)
        && (d.value.Some? && r.prop.DataProp? ==> r.prop.value == d.value.value)
        && (d.writable.Some? && r.prop.DataProp? ==> r.prop.writable == d.writable.value)
        && (d.getter.Some? && r.prop.AccessorProp? ==> r.prop.getter == d.getter.value)
        && (d.setter.Some? && r.prop.AccessorProp? ==> r.prop.setter == d.setter.value)
    ensures current.None? ==>
      var r := DefineOwnProperty(current, d, extensible);
      && (r.Rejected? <==> !extensible)
      && (r.Defined? ==>
            && r.prop.enumerable == Or(d.enumerable, false)
            && r.prop.configurable == Or(d.configurable, false)
            && (r.prop.DataProp? ==> r.prop.value == Or(d.value, Undefined) && r.prop.writable == Or(d.writable, false))
            && (r.prop.AccessorProp? ==> r.prop.getter == Or(d.getter, Undefined) && r.prop.setter == Or(d.setter, Undefined)))
  {
    if current.None? {
      ApplyReflects(Fresh(d), d);
    } else {
      ApplyReflects(current.value, d);
      ApplyReflects(ConvertKind(current.value), d);
    }
  }

  /** Applying a descriptor keeps the property's kind and sets every field the descriptor has. */
  lemma ApplyReflects(p: Property, d: Descriptor)
    ensures var r := Apply(p, d);
      && r.DataProp? == p.DataProp?
      && r.enumerable == Or(d.enumerable, p.enumerable)
      && r.configurable == Or(d.configurable, p.configurable)
      && (r.DataProp? ==> r.value == Or(d.value, p.value) && r.writable == Or(d.writable, p.writable))
      && (r.AccessorProp? ==> r.getter == Or(d.getter, p.getter) && r.setter == Or(d.setter, p.setter))
  {
  }

  /** Redefining a property with fields it already has succeeds and changes nothing. */
  lemma AgreeingRedefinitionIsIdentity(p: Property, d: Descriptor, extensible: bool)
    requires Agrees(p, d)
    ensures DefineOwnProperty(Some(p), d, extensible) == Defined(p)
  {
  }

  /** A configurable property can be redefined with any descriptor. */
  lemma ConfigurableIsRedefinable(p: Property, d: Descriptor, extensible: bool)
    requires p.configurable
    ensures DefineOwnProperty(Some(p), d, extensible).Defined?
  {
  }

  /**
   * On a non-configurable property, making it configurable, changing its
   * enumerability, switching its kind, or giving an accessor a different
   * getter or setter fails with NONCONFIGURABLE_REDEFINED.
   */
  lemma NonConfigurableRedefinition(p: Property, d: Descriptor, extensible: bool)
    requires !p.configurable
    ensures d.configurable == Some(true) ==> DefineOwnProperty(Some(p), d, extensible) == Rejected(NONCONFIGURABLE_REDEFINED)
    ensures d.enumerable == Some(!p.enumerable) ==> DefineOwnProperty(Some(p), d, extensible) == Rejected(NONCONFIGURABLE_REDEFINED)
    ensures !IsGenericDescriptor(d) && p.DataProp? != IsDataDescriptor(d) ==>
      DefineOwnProperty(Some(p), d, extensible) == Rejected(NONCONFIGURABLE_REDEFINED)
    ensures p.AccessorProp? && !IsDataDescriptor(d) && ((d.getter.Some? && d.getter.value != p.getter) || (d.setter.Some? && d.setter.value != p.setter)) ==>
      DefineOwnProperty(Some(p), d, extensible) == Rejected(NONCONFIGURABLE_REDEFINED)
  {
  }

  /**
   * On a non-configurable, non-writable data property, a data descriptor
   * that keeps configurable and enumerable but sets writable to true or
   * gives a different value fails with NONWRITABLE_MODIFIED.
   */
  lemma NonWritableModification(p: Property, d: Descriptor, extensible: bool)
    requires p.DataProp? && !p.configurable && !p.writable
    requires !IsAccessorDescriptor(d) && d.configurable != Some(true) && d.enumerable in {None, Some(p.enumerable)}
    ensures (d.writable == Some(true) || (d.value.Some? && d.value.value != p.value)) <==>
      DefineOwnProperty(Some(p), d, extensible) == Rejected(NONWRITABLE_MODIFIED)
  {
  }

  /**
   * defineProperty rejects a descriptor mixing get or set with value as
   * PROP_DESC_MISMATCH and one mixing them with writable as
   * INVALID_WRITABLE_PROP_DESC, whatever the object; on failure the object
   * is not changed, and on success only the named property is.
   */
  lemma DefinePropertySpec(o: JsObject, name: string, d: Descriptor)
    ensures IsAccessorDescriptor(d) && d.value.Some? ==> DefineProperty(o, name, d) == Threw(PROP_DESC_MISMATCH)
    ensures IsAccessorDescriptor(d) && d.value.None? && d.writable.Some? ==> DefineProperty(o, name, d) == Threw(INVALID_WRITABLE_PROP_DESC)
    ensures var r := DefineProperty(o, name, d);
      r.Done? ==>
        && r.obj.extensible == o.extensible
        && r.obj.props.Keys == o.props.Keys + {name}
        && (forall n :: n in o.props && n != name ==> r.obj.props[n] == o.props[n])
  {
  }

  // ---- integrity levels ----

  /** Object.isSealed: not extensible and no configurable property. */
  predicate IsSealed(o: JsObject)
  {
    !o.extensible && forall n :: n in o.props ==> !o.props[n].configurable
  }

  /** Object.isFrozen: sealed, and no writable data property. */
  predicate IsFrozen(o: JsObject)
  {
    IsSealed(o) && forall n :: n in o.props && o.props[n].DataProp? ==> !o.props[n].writable
  }

  function PreventExtensions(o: JsObject): JsObject
  {
    o.(extensible := false)
  }

  function Sealed(p: Property): Property
  {
    match p
    case DataProp(v, w, e, _) => DataProp(v, w, e, false)
    case AccessorProp(g, s, e, _) => AccessorProp(g, s, e, false)
  }

  function Frozen(p: Property): Property
  {
    match p
    case DataProp(v, _, e, _) => DataProp(v, false, e, false)
    case AccessorProp(g, s, e, _) => AccessorProp(g, s, e, false)
  }

  /** Object.seal. */
  function Seal(o: JsObject): JsObject
  {
    JsObject(map n | n in o.props :: Sealed(o.props[n]), false)
  }

  /** Object.freeze. */
  function Freeze(o: JsObject): JsObject
  {
    JsObject(map n | n in o.props :: Frozen(o.props[n]), false)
  }

  /**
   * freeze yields a frozen object and seal a sealed one, both keeping every
   * property's name, value, accessors and enumerability; a frozen object is
   * sealed; a sealed object is frozen exactly when its data properties
   * were already read-only.
   */
  lemma IntegrityLevels(o: JsObject)
    ensures IsFrozen(o) ==> IsSealed(o)
    ensures IsFrozen(Freeze(o)) && Freeze(o).props.Keys == o.props.Keys
    ensures IsSealed(Seal(o)) && Seal(o).props.Keys == o.props.Keys
    ensures forall n :: n in o.props ==> Freeze(o).props[n].enumerable == o.props[n].enumerable
    ensures forall n :: n in o.props && o.props[n].DataProp? ==> Freeze(o).props[n].value == o.props[n].value
    ensures IsFrozen(Seal(o)) <==> forall n :: n in o.props && o.props[n].DataProp? ==> !o.props[n].writable
  {
    if forall n :: n in o.props && o.props[n].DataProp? ==> !o.props[n].writable {
      forall n | n in Seal(o).props && Seal(o).props[n].DataProp?
        ensures !Seal(o).props[n].writable
      {
        assert o.props[n].DataProp?;
      }
    } else {
      var n :| n in o.props && o.props[n].DataProp? && o.props[n].writable;
      assert Seal(o).props[n].DataProp? && Seal(o).props[n].writable;
    }
  }

  /**
   * preventExtensions alone makes an object sealed exactly when no property
   * is configurable, and frozen exactly when in addition no data property
   * is writable: an empty object becomes both.
   */
  lemma PreventExtensionsLevels(o: JsObject)
    ensures IsSealed(PreventExtensions(o)) <==> forall n :: n in o.props ==> !o.props[n].configurable
    ensures IsFrozen(PreventExtensions(o)) <==>
      forall n :: n in o.props ==> !o.props[n].configurable && (o.props[n].DataProp? ==> !o.props[n].writable)
    ensures o.props == map[] ==> IsFrozen(PreventExtensions(o))
  {
  }

  function Desc(): Descriptor { Descriptor(None, None, None, None, None, None) }

  /** The "defineProperty" sequence on an initially empty object with two functions f and g. */
  lemma DefinePropertyExamples(f: JsValue, g: JsValue)
    requires f.Obj? && g.Obj? && f != g
    ensures DefineOwnProperty(None, Desc(), true) == Defined(DataProp(Undefined, false, false, false))
    ensures var notConf := DataProp(Num(Finite(1.0)), true, true, false);
      && DefineOwnProperty(Some(notConf), Desc().(writable := Some(true), enumerable := Some(true), configurable := Some(true), value := Some(Num(Finite(1.0)))), true)
           == Rejected(NONCONFIGURABLE_REDEFINED)
      && DefineOwnProperty(Some(notConf), Desc().(writable := Some(true), value := Some(Num(Finite(2.0)))), true)
           == Defined(DataProp(Num(Finite(2.0)), true, true, false))
    ensures var notConf2 := DataProp(Num(Finite(1.0)), false, false, false);
      && DefineOwnProperty(Some(notConf2), Desc().(value := Some(Num(Finite(2.0)))), true) == Rejected(NONWRITABLE_MODIFIED)
      && DefineOwnProperty(Some(notConf2), Desc().(writable := Some(false), value := Some(Num(Finite(1.0)))), true) == Defined(notConf2)
    ensures var notConfAcc := AccessorProp(f, g, false, false);
      && DefineOwnProperty(Some(notConfAcc), Desc().(value := Some(Num(Finite(1.0)))), true) == Rejected(NONCONFIGURABLE_REDEFINED)
      && DefineOwnProperty(Some(notConfAcc), Desc().(getter := Some(Undefined), setter := Some(g)), true) == Rejected(NONCONFIGURABLE_REDEFINED)
      && DefineOwnProperty(Some(notConfAcc), Desc().(getter := Some(f)), true) == Defined(notConfAcc)
    ensures DefineOwnProperty(Some(AccessorProp(f, g, false, true)), Desc().(writable := Some(true)), true)
      == Defined(DataProp(Undefined, true, false, true))
  {
  }

  /**
   * The "isFrozen" cases: after defineProperty on an empty object and
   * preventExtensions, {value: 1} and an accessor pair give a frozen
   * object, {value: 1, writable: true} a sealed but not frozen one, and
   * {value: 1, configurable: true} neither.
   */
  lemma IsFrozenExamples(f: JsValue, g: JsValue)
    ensures var r := DefineProperty(JsObject(map[], true), "prop", Desc().(value := Some(Num(Finite(1.0)))));
      r.Done? && IsFrozen(PreventExtensions(r.obj))
    ensures var r := DefineProperty(JsObject(map[], true), "prop", Desc().(value := Some(Num(Finite(1.0))), writable := Some(true)));
      r.Done? && IsSealed(PreventExtensions(r.obj)) && !IsFrozen(PreventExtensions(r.obj))
    ensures var r := DefineProperty(JsObject(map[], true), "prop", Desc().(value := Some(Num(Finite(1.0))), configurable := Some(true)));
      r.Done? && !IsSealed(PreventExtensions(r.obj)) && !IsFrozen(PreventExtensions(r.obj))
    ensures var r := DefineProperty(JsObject(map[], true), "prop", Desc().(getter := Some(f), setter := Some(g)));
      r.Done? && IsFrozen(PreventExtensions(r.obj))
  {
  }

  /**
   * An object literal's property is writable and configurable: preventing
   * extensions leaves it unsealed, freezing freezes it, and sealing seals
   * it without freezing it.
   */
  lemma SealFreezeExamples()
    ensures var literal := JsObject(map["prop" := DataProp(Num(Finite(1.0)), true, true, true)], true);
      && !IsSealed(PreventExtensions(literal))
      && IsFrozen(Freeze(literal))
      && IsSealed(Seal(literal)) && !IsFrozen(Seal(literal))
  {
    var literal := JsObject(map["prop" := DataProp(Num(Finite(1.0)), true, true, true)], true);
    assert Seal(literal).props["prop"].writable;
  }
}
