/**
 * Recursive decomposition of iterable and map types into anonymous element, key and value
 * descriptors (`getIterableComponentType`, `getMapKeyType`, `getMapValueType`, `getMapType`).
 */
module Decomposer {
  import opened Wrappers
  import opened Types
  import opened Descriptors

  /** Which type argument of a map `getMapType` asks for: index 0 (key) or 1 (value). */
  datatype MapSide = KeySide | ValueSide

  /**
   * `ReflectUtils.getIterableComponentType`: the resolved element type of an iterable type,
   * or `None` for any other type.
   */
  function ComponentType(t: Type, bound: Bindings): (r: Option<Type>)
    ensures r.Some? <==> t.ListT?
    ensures r.Some? ==> r.value == Resolve(t.elem, bound)
  {
    match t
    case ListT(e) => Some(Resolve(e, bound))
    case _ => None
  }

  /**
   * `ReflectUtils.getMapType`: the resolved key or value type of a map type, or `None` for
   * any other type.
   */
  function MapArgument(t: Type, side: MapSide, bound: Bindings): (r: Option<Type>)
    ensures r.Some? <==> t.MapT?
    ensures r.Some? ==> r.value == Resolve(if side == KeySide then t.key else t.value, bound)
  {
    match t
    case MapT(k, v) => Some(Resolve(if side == KeySide then k else v, bound))
    case _ => None
  }

  /** The anonymous descriptor built for a resolved component type, itself decomposed. */
  function SubDescriptor(c: Type, bound: Bindings): (d: Descriptor)
    requires Closed(bound) && FreeOf(c, bound)
    ensures d.typ == c
    ensures Anonymous(d) && SubsAnonymous(d) && TypeShaped(d)
    decreases c, 2
  {
    assert Resolve(c, bound) == c;
    Descriptor(
      number := None,
      name := "",
      nullable := false,
      typ := c,
      rawType := Raw(c),
      member := None,
      oneOfTypes := map[],
      elementType := IterableComponentType(c, bound),
      mapKeyType := MapKeyType(c, bound),
      mapValueType := MapValueType(c, bound),
      description := None)
  }

  /**
   * `getIterableComponentType`: for an iterable type, the anonymous descriptor of its
   * resolved element type; `None` otherwise.
   */
  function IterableComponentType(t: Type, bound: Bindings): (r: Option<Descriptor>)
    requires Closed(bound)
    ensures r.Some? <==> t.ListT?
    ensures r.Some? ==> r.value.typ == Resolve(t.elem, bound)
    ensures r.Some? ==> Anonymous(r.value) && SubsAnonymous(r.value) && TypeShaped(r.value)
    decreases Resolve(t, bound), 0
  {
    match ComponentType(t, bound)
    case None => None
    case Some(c) =>
      ResolvedIsFree(t.elem, bound);
      Some(SubDescriptor(c, bound))
  }

  /**
   * `getMapType`: for a map type, the anonymous descriptor of its resolved key or value
   * type; `None` otherwise.
   */
  function MapType(t: Type, side: MapSide, bound: Bindings): (r: Option<Descriptor>)
    requires Closed(bound)
    ensures r.Some? <==> t.MapT?
    ensures r.Some? ==> r.value.typ == Resolve(if side == KeySide then t.key else t.value, bound)
    ensures r.Some? ==> Anonymous(r.value) && SubsAnonymous(r.value) && TypeShaped(r.value)
    decreases Resolve(t, bound), 0
  {
    match MapArgument(t, side, bound)
    case None => None
    case Some(c) =>
      ResolvedIsFree(if side == KeySide then t.key else t.value, bound);
      Some(SubDescriptor(c, bound))
  }

  /** `getMapKeyType`. */
  function MapKeyType(t: Type, bound: Bindings): (r: Option<Descriptor>)
    requires Closed(bound)
    ensures r.Some? <==> t.MapT?
    ensures r.Some? ==> r.value.typ == Resolve(t.key, bound)
    decreases Resolve(t, bound), 1
  {
    MapType(t, KeySide, bound)
  }

  /** `getMapValueType`. */
  function MapValueType(t: Type, bound: Bindings): (r: Option<Descriptor>)
    requires Closed(bound)
    ensures r.Some? <==> t.MapT?
    ensures r.Some? ==> r.value.typ == Resolve(t.value, bound)
    decreases Resolve(t, bound), 1
  {
    MapType(t, ValueSide, bound)
  }
}
