/**
 * The immutable field descriptor (`FieldValueTypeInformation`), its structural invariants,
 * renaming, and the one-of constructor.
 */
module Descriptors {
  import opened Wrappers
  import opened Types
  import opened Reflection

  /**
   * Type information for one schema field. `member` is the field or method it was built
   * from (the source keeps these as two nullable slots, never both set); `None` marks a
   * synthesized descriptor.
   */
  datatype Descriptor = Descriptor(
    number: Option<int>,
    name: string,
    nullable: bool,
    typ: Type,
    rawType: RawClass,
    member: Option<Member>,
    oneOfTypes: map<string, Descriptor>,
    elementType: Option<Descriptor>,
    mapKeyType: Option<Descriptor>,
    mapValueType: Option<Descriptor>,
    description: Option<string>)

  /** The attributes every synthesized element, key or value descriptor carries. */
  predicate Anonymous(d: Descriptor) {
    && d.name == ""
    && !d.nullable
    && d.number.None?
    && d.member.None?
    && d.oneOfTypes == map[]
    && d.description.None?
  }

  /** Every element, key and value descriptor below `d`, at any depth, is anonymous. */
  predicate SubsAnonymous(d: Descriptor) {
    && (d.elementType.Some? ==> Anonymous(d.elementType.value) && SubsAnonymous(d.elementType.value))
    && (d.mapKeyType.Some? ==> Anonymous(d.mapKeyType.value) && SubsAnonymous(d.mapKeyType.value))
    && (d.mapValueType.Some? ==> Anonymous(d.mapValueType.value) && SubsAnonymous(d.mapValueType.value))
  }

  /**
   * `d` and everything below it describe the shape of their own type: the raw type is the
   * erasure, an element descriptor exists exactly for an iterable type and describes its
   * element type, and key and value descriptors exist exactly for a map type and describe
   * its key and value types.
   */
  predicate TypeShaped(d: Descriptor) {
    && d.rawType == Raw(d.typ)
    && (d.elementType.Some? <==> d.typ.ListT?)
    && (d.mapKeyType.Some? <==> d.typ.MapT?)
    && (d.mapValueType.Some? <==> d.typ.MapT?)
    && (d.elementType.Some? ==> d.elementType.value.typ == d.typ.elem && TypeShaped(d.elementType.value))
    && (d.mapKeyType.Some? ==> d.mapKeyType.value.typ == d.typ.key && TypeShaped(d.mapKeyType.value))
    && (d.mapValueType.Some? ==> d.mapValueType.value.typ == d.typ.value && TypeShaped(d.mapValueType.value))
  }

  /** The four shapes a descriptor can have. */
  datatype Shape = Sequence | Associative | Union | Plain

  /**
   * A descriptor has one shape: key and value descriptors come together, and at most one of
   * {element, key and value, one-of variants} is populated.
   */
  predicate SingleShape(d: Descriptor) {
    && (d.mapKeyType.Some? <==> d.mapValueType.Some?)
    && !(d.elementType.Some? && d.mapKeyType.Some?)
    && !(d.elementType.Some? && |d.oneOfTypes| > 0)
    && !(d.mapKeyType.Some? && |d.oneOfTypes| > 0)
  }

  function ShapeOf(d: Descriptor): Shape {
    if d.elementType.Some? then Sequence
    else if d.mapKeyType.Some? then Associative
    else if |d.oneOfTypes| > 0 then Union
    else Plain
  }

  /** How many element descriptors are nested below `d`. */
  function ElementDepth(d: Descriptor): nat {
    match d.elementType
    case None => 0
    case Some(e) => 1 + ElementDepth(e)
  }

  /** How many iterable layers a type nests. */
  function ListDepth(t: Type): nat {
    match t
    case ListT(e) => 1 + ListDepth(e)
    case _ => 0
  }

  /** A type-shaped descriptor nests exactly as many element descriptors as its type nests lists. */
  lemma {:induction false} ElementDepthIsListDepth(d: Descriptor)
    requires TypeShaped(d)
    ensures ElementDepth(d) == ListDepth(d.typ)
  {
    match d.elementType
    case None =>
    case Some(e) => ElementDepthIsListDepth(e);
  }

  /** A type-shaped descriptor without one-of variants has a single shape, read off its type. */
  lemma TypeShapedHasSingleShape(d: Descriptor)
    requires TypeShaped(d) && d.oneOfTypes == map[]
    ensures SingleShape(d)
    ensures ShapeOf(d) == (if d.typ.ListT? then Sequence else if d.typ.MapT? then Associative else Plain)
  {
  }

  /** A copy of `d` with only the name replaced (`withName`). */
  function WithName(d: Descriptor, name: string): (r: Descriptor)
    ensures r.name == name
    ensures r.(name := d.name) == d
  {
    d.(name := name)
  }

  /** Renaming and renaming back gives the original descriptor. */
  lemma WithNameRoundTrip(d: Descriptor, x: string)
    ensures WithName(WithName(d, x), d.name) == d
  {
  }

  /**
   * The descriptor of a one-of field: its type is `OneOfType.Value`, its variants are the
   * given map, and it has no member, number, description or element, key or value descriptor.
   */
  function ForOneOf(name: string, nullable: bool, oneOfTypes: map<string, Descriptor>): (r: Descriptor)
    ensures r.name == name && r.nullable == nullable
    ensures r.oneOfTypes == oneOfTypes
    ensures r.typ == OneOfValue && r.rawType == Raw(OneOfValue)
    ensures r.member.None? && r.number.None? && r.description.None?
    ensures SingleShape(r)
    ensures ShapeOf(r) == (if |oneOfTypes| > 0 then Union else Plain)
  {
    Descriptor(
      number := None,
      name := name,
      nullable := nullable,
      typ := OneOfValue,
      rawType := Raw(OneOfValue),
      member := None,
      oneOfTypes := oneOfTypes,
      elementType := None,
      mapKeyType := None,
      mapValueType := None,
      description := None)
  }
}
