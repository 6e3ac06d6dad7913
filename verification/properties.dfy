/** Properties relating the entry points to each other and to the override policy. */
module Properties {
  import opened Wrappers
  import opened Types
  import opened Reflection
  import opened Descriptors
  import opened Overrides
  import opened Nullability
  import opened Decomposer
  import opened Builders

  /** A field's name and number are those the override policy gives for its own name and the index. */
  lemma FieldNameAndNumber(f: FieldDecl, index: int, bound: Bindings, env: Env)
    requires Closed(bound)
    requires ForField(f, index, bound, env).Success?
    ensures ForField(f, index, bound, env).value.name == GetNameOverride(f.name, FieldMember(f), env).value
    ensures ForField(f, index, bound, env).value.number == Some(GetNumberOverride(index, FieldMember(f)).value)
  {
  }

  /** Without any marker a field keeps its declared name and takes the index as its number. */
  lemma FieldDefaultPath(f: FieldDecl, index: int, bound: Bindings, env: Env)
    requires Closed(bound)
    requires f.annotations.fieldName.None? && f.annotations.caseFormat.None? && f.annotations.fieldNumber.None?
    requires f.declaringClass.caseFormat.None?
    ensures ForField(f, index, bound, env).Success?
    ensures ForField(f, index, bound, env).value.name == f.name
    ensures ForField(f, index, bound, env).value.number == Some(index)
  {
  }

  /**
   * A getter's name is the override policy applied to its stripped name (`get` before `is`),
   * and its number is the override policy applied to the index.
   */
  lemma GetterNameAndNumber(m: MethodDecl, index: int, bound: Bindings, env: Env)
    requires Closed(bound)
    requires ForGetter(m, index, bound, env).Success?
    ensures GetterBaseName(m, env).Success?
    ensures ForGetter(m, index, bound, env).value.name
         == GetNameOverride(GetterBaseName(m, env).value, MethodMember(m), env).value
    ensures ForGetter(m, index, bound, env).value.number
         == Some(GetNumberOverride(index, MethodMember(m)).value)
  {
  }

  /**
   * A setter's result does not depend on the method's own annotations or on the annotations
   * of its return type: name, number, nullability, description, type and shape all agree.
   */
  lemma SetterIgnoresMethodAnnotations(
    m: MethodDecl, a: Annotations, returnAnnotations: seq<string>, prefix: string, bound: Bindings, env: Env)
    requires Closed(bound)
    ensures
      var m' := m.(annotations := a, returnTypeAnnotations := returnAnnotations);
      var r := ForSetterWithPrefix(m, prefix, bound, env);
      var r' := ForSetterWithPrefix(m', prefix, bound, env);
      && r.Success? == r'.Success?
      && (r.Success? ==> r.value.(member := None) == r'.value.(member := None))
  {
  }

  /** A field whose declared type is not a bare type variable describes its resolved type's shape. */
  lemma FieldShapeFollowsType(f: FieldDecl, index: int, bound: Bindings, env: Env)
    requires Closed(bound)
    requires ForField(f, index, bound, env).Success?
    requires !f.genericType.Var?
    ensures TypeShaped(ForField(f, index, bound, env).value)
  {
  }

  /**
   * A field whose declared type is a type variable bound to an iterable type gets the raw
   * type of an iterable but no element descriptor, while a getter returning the same type
   * gets one: `forField` decomposes the declared type, `forGetter` the resolved type.
   */
  lemma BoundVariableFieldIsNotDecomposed(f: FieldDecl, m: MethodDecl, index: int, env: Env)
    requires f.genericType == Var("T") && m.genericReturnType == Var("T")
    requires f.annotations.fieldName.None? && f.annotations.fieldNumber.None?
    requires m.name == "getItems" && m.annotations.fieldName.None? && m.annotations.fieldNumber.None?
    ensures
      var bound := map["T" := ListT(Scalar("String"))];
      && Closed(bound)
      && ForField(f, index, bound, env).Success?
      && ForField(f, index, bound, env).value.rawType == IterableClass
      && ForField(f, index, bound, env).value.elementType.None?
      && !TypeShaped(ForField(f, index, bound, env).value)
      && ForGetter(m, index, bound, env).Success?
      && ForGetter(m, index, bound, env).value.rawType == IterableClass
      && ForGetter(m, index, bound, env).value.elementType.Some?
  {
  }

  /** A getter nests exactly as many element descriptors as its resolved return type nests lists. */
  lemma GetterElementDepth(m: MethodDecl, index: int, bound: Bindings, env: Env)
    requires Closed(bound)
    requires ForGetter(m, index, bound, env).Success?
    ensures ElementDepth(ForGetter(m, index, bound, env).value) == ListDepth(Resolve(m.genericReturnType, bound))
  {
    ElementDepthIsListDepth(ForGetter(m, index, bound, env).value);
  }

  /**
   * A field nests as many element descriptors as its resolved type nests lists when its
   * declared type is a list, and none otherwise.
   */
  lemma {:induction false} FieldElementDepth(f: FieldDecl, index: int, bound: Bindings, env: Env)
    requires Closed(bound)
    requires ForField(f, index, bound, env).Success?
    ensures ElementDepth(ForField(f, index, bound, env).value)
         == if f.genericType.ListT? then ListDepth(Resolve(f.genericType, bound)) else 0
  {
    var d := ForField(f, index, bound, env).value;
    if f.genericType.ListT? {
      ElementDepthIsListDepth(d.elementType.value);
    }
  }

  /** Every descriptor a field, getter or setter produces pairs its key and value descriptors. */
  lemma KeyAndValueTogether(
    f: FieldDecl, m: MethodDecl, s: MethodDecl, index: int, prefix: string, bound: Bindings, env: Env)
    requires Closed(bound)
    ensures ForField(f, index, bound, env).Success? ==>
      (ForField(f, index, bound, env).value.mapKeyType.Some? <==> ForField(f, index, bound, env).value.mapValueType.Some?)
    ensures ForGetter(m, index, bound, env).Success? ==>
      (ForGetter(m, index, bound, env).value.mapKeyType.Some? <==> ForGetter(m, index, bound, env).value.mapValueType.Some?)
    ensures ForSetterWithPrefix(s, prefix, bound, env).Success? ==>
      var d := ForSetterWithPrefix(s, prefix, bound, env).value;
      d.mapKeyType.Some? <==> d.mapValueType.Some?
  {
  }
}
