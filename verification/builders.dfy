/**
 * The entry points that build a descriptor from a field, a getter or a setter
 * (`forField`, `forGetter`, both `forSetter` overloads).
 */
module Builders {
  import opened Wrappers
  import opened Types
  import opened Numbers
  import opened Reflection
  import opened Descriptors
  import opened Overrides
  import opened Nullability
  import opened Decomposer

  /** `String.startsWith`. */
  predicate StartsWith(s: string, prefix: string) {
    |prefix| <= |s| && s[..|prefix|] == prefix
  }

  /**
   * `forField`. The descriptor's type is the field's generic type resolved against `bound`,
   * while the element, key and value descriptors are computed from the field's generic type
   * as declared, before resolution.
   */
  function ForField(f: FieldDecl, index: int, bound: Bindings, env: Env): (r: Result<Descriptor, SchemaError>)
    requires Closed(bound)
    ensures r.Failure? <==> HasNameConflict(FieldMember(f)) || GetNumberOverride(index, FieldMember(f)).Failure?
    ensures HasNameConflict(FieldMember(f)) ==> r == Failure(NameConflict(f.name))
    ensures !HasNameConflict(FieldMember(f)) && f.annotations.fieldNumber.Some?
            && ParseInt(f.annotations.fieldNumber.value).None? ==>
      r == Failure(NumberFormat(f.annotations.fieldNumber.value))
    ensures r.Success? ==> r.value.member == Some(FieldMember(f))
    ensures r.Success? ==> r.value.typ == Resolve(f.genericType, bound) && r.value.rawType == Raw(r.value.typ)
    ensures r.Success? ==>
      (r.value.nullable <==> MarkedNullable(f.annotations.simpleNames) || MarkedNullable(f.typeAnnotations))
    ensures r.Success? ==> r.value.oneOfTypes == map[] && SingleShape(r.value) && SubsAnonymous(r.value)
    ensures r.Success? ==> (r.value.elementType.Some? <==> f.genericType.ListT?)
    ensures r.Success? ==> (r.value.mapKeyType.Some? <==> f.genericType.MapT?)
    ensures r.Success? ==> r.value.description == f.annotations.description
  {
    var member := FieldMember(f);
    var typ := Resolve(f.genericType, bound);
    var name :- GetNameOverride(f.name, member, env);
    var number :- GetNumberOverride(index, member);
    Success(Descriptor(
      number := Some(number),
      name := name,
      nullable := HasNullableAnnotation(f),
      typ := typ,
      rawType := Raw(typ),
      member := Some(member),
      oneOfTypes := map[],
      elementType := IterableComponentType(f.genericType, bound),
      mapKeyType := MapKeyType(f.genericType, bound),
      mapValueType := MapValueType(f.genericType, bound),
      description := GetFieldDescription(member)))
  }

  /** The name a getter declares before overrides: `get` is tried before `is`. */
  function GetterBaseName(m: MethodDecl, env: Env): (r: Result<string, SchemaError>)
    ensures r.Failure? <==> !StartsWith(m.name, "get") && !StartsWith(m.name, "is")
    ensures r.Failure? ==> r.error == GetterPrefix(m.name)
    ensures StartsWith(m.name, "get") ==> r == Success(env.stripPrefix(m.name, "get"))
    ensures !StartsWith(m.name, "get") && StartsWith(m.name, "is") ==> r == Success(env.stripPrefix(m.name, "is"))
  {
    if StartsWith(m.name, "get") then Success(env.stripPrefix(m.name, "get"))
    else if StartsWith(m.name, "is") then Success(env.stripPrefix(m.name, "is"))
    else Failure(GetterPrefix(m.name))
  }

  /**
   * `forGetter`. The element, key and value descriptors are computed from the resolved
   * return type, so the result describes the shape of its own type.
   */
  function ForGetter(m: MethodDecl, index: int, bound: Bindings, env: Env): (r: Result<Descriptor, SchemaError>)
    requires Closed(bound)
    ensures GetterBaseName(m, env).Failure? ==> r == Failure(GetterPrefix(m.name))
    ensures GetterBaseName(m, env).Success? && HasNameConflict(MethodMember(m)) ==>
      r == Failure(NameConflict(m.name))
    ensures GetterBaseName(m, env).Success? && !HasNameConflict(MethodMember(m))
            && m.annotations.fieldNumber.Some? && ParseInt(m.annotations.fieldNumber.value).None? ==>
      r == Failure(NumberFormat(m.annotations.fieldNumber.value))
    ensures r.Failure? <==>
      || GetterBaseName(m, env).Failure?
      || HasNameConflict(MethodMember(m))
      || GetNumberOverride(index, MethodMember(m)).Failure?
    ensures r.Success? ==> r.value.member == Some(MethodMember(m))
    ensures r.Success? ==> r.value.typ == Resolve(m.genericReturnType, bound)
    ensures r.Success? ==>
      (r.value.nullable <==> MarkedNullable(m.annotations.simpleNames) || MarkedNullable(m.returnTypeAnnotations))
    ensures r.Success? ==> r.value.oneOfTypes == map[] && TypeShaped(r.value) && SubsAnonymous(r.value)
    ensures r.Success? ==> r.value.description == m.annotations.description
  {
    var base :- GetterBaseName(m, env);
    var member := MethodMember(m);
    var typ := Resolve(m.genericReturnType, bound);
    var nullable := HasNullableReturnType(m);
    var name :- GetNameOverride(base, member, env);
    var number :- GetNumberOverride(index, member);
    ResolvedIsFree(m.genericReturnType, bound);
    Success(Descriptor(
      number := Some(number),
      name := name,
      nullable := nullable,
      typ := typ,
      rawType := Raw(typ),
      member := Some(member),
      oneOfTypes := map[],
      elementType := IterableComponentType(typ, bound),
      mapKeyType := MapKeyType(typ, bound),
      mapValueType := MapValueType(typ, bound),
      description := GetFieldDescription(member)))
  }

  /**
   * `forSetter` with an explicit prefix. The name is the stripped method name with no
   * override applied; number and description stay absent. The prefix check comes first,
   * then the lookup of parameter 0, then the arity check.
   */
  function ForSetterWithPrefix(m: MethodDecl, setterPrefix: string, bound: Bindings, env: Env)
    : (r: Result<Descriptor, SchemaError>)
    requires Closed(bound)
    ensures r.Success? <==> StartsWith(m.name, setterPrefix) && |m.parameters| == 1
    ensures !StartsWith(m.name, setterPrefix) ==> r == Failure(SetterPrefix(m.name))
    ensures StartsWith(m.name, setterPrefix) && |m.parameters| == 0 ==> r == Failure(MissingParameter(m.name))
    ensures StartsWith(m.name, setterPrefix) && |m.parameters| > 1 ==> r == Failure(SetterArity(m.name))
    ensures r.Success? ==> r.value.name == env.stripPrefix(m.name, setterPrefix)
    ensures r.Success? ==> r.value.number.None? && r.value.description.None?
    ensures r.Success? ==> r.value.member == Some(MethodMember(m))
    ensures r.Success? ==> r.value.typ == Resolve(m.parameters[0].genericType, bound)
    ensures r.Success? ==>
      (r.value.nullable <==>
         MarkedNullable(m.parameters[0].typeAnnotations) || MarkedNullable(m.parameters[0].annotations))
    ensures r.Success? ==> r.value.oneOfTypes == map[] && TypeShaped(r.value) && SubsAnonymous(r.value)
  {
    if !StartsWith(m.name, setterPrefix) then Failure(SetterPrefix(m.name))
    else if |m.parameters| == 0 then Failure(MissingParameter(m.name))
    else
      var name := env.stripPrefix(m.name, setterPrefix);
      var typ := Resolve(m.parameters[0].genericType, bound);
      var nullable :- HasSingleNullableParameter(m);
      ResolvedIsFree(m.parameters[0].genericType, bound);
      Success(Descriptor(
        number := None,
        name := name,
        nullable := nullable,
        typ := typ,
        rawType := Raw(typ),
        member := Some(MethodMember(m)),
        oneOfTypes := map[],
        elementType := IterableComponentType(typ, bound),
        mapKeyType := MapKeyType(typ, bound),
        mapValueType := MapValueType(typ, bound),
        description := None))
  }

  /** `forSetter` with the default prefix `set`. */
  function ForSetter(m: MethodDecl, bound: Bindings, env: Env): (r: Result<Descriptor, SchemaError>)
    requires Closed(bound)
    ensures r.Success? <==> StartsWith(m.name, "set") && |m.parameters| == 1
    ensures r.Success? ==> r.value.name == env.stripPrefix(m.name, "set")
  {
    ForSetterWithPrefix(m, "set", bound, env)
  }
}
