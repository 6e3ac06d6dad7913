/** Concrete declarations and the descriptors built for them. */
module Scenarios {
  import opened Wrappers
  import opened Types
  import opened Reflection
  import opened Descriptors
  import opened Builders

  const NoAnnotations: Annotations := Annotations(None, None, None, None, [])
  const Plain: ClassDecl := ClassDecl("Record", None)
  const NoBindings: Bindings := map[]

  /** A field `List<Map<String, Integer>> xs` without markers. */
  lemma ListOfMapField(env: Env)
    ensures
      var f := FieldDecl("xs", Plain, NoAnnotations, ListT(MapT(Scalar("String"), Scalar("Integer"))), []);
      var r := ForField(f, 0, NoBindings, env);
      && r.Success?
      && r.value.rawType == IterableClass
      && r.value.elementType.Some?
      && r.value.elementType.value.rawType == MapClass
      && r.value.elementType.value.mapKeyType.Some?
      && r.value.elementType.value.mapKeyType.value.rawType == ClassNamed("String")
      && r.value.elementType.value.mapValueType.Some?
      && r.value.elementType.value.mapValueType.value.rawType == ClassNamed("Integer")
  {
  }

  /** A getter returning `List<List<String>>` has two nested element descriptors and no third. */
  lemma NestedListGetter(env: Env)
    ensures
      var m := MethodDecl("getRows", Plain, NoAnnotations, ListT(ListT(Scalar("String"))), [], []);
      var r := ForGetter(m, 0, NoBindings, env);
      && r.Success?
      && r.value.elementType.Some?
      && r.value.elementType.value.elementType.Some?
      && r.value.elementType.value.elementType.value.elementType.None?
  {
  }

  /** `getUserId` at index 3 without markers, and again with `@SchemaCaseFormat(UPPER_UNDERSCORE)`. */
  lemma GetUserId(env: Env)
    ensures
      var m := MethodDecl("getUserId", Plain, NoAnnotations, Scalar("Long"), [], []);
      var r := ForGetter(m, 3, NoBindings, env);
      r.Success? && r.value.name == env.stripPrefix("getUserId", "get") && r.value.number == Some(3)
    ensures
      var m := MethodDecl("getUserId", Plain, NoAnnotations.(caseFormat := Some(UpperUnderscore)), Scalar("Long"), [], []);
      var r := ForGetter(m, 3, NoBindings, env);
      r.Success? && r.value.name == env.lowerCamelTo(UpperUnderscore, env.stripPrefix("getUserId", "get"))
  {
  }

  /** A getter carrying both `@SchemaFieldName` and `@SchemaCaseFormat` is rejected. */
  lemma ConflictingGetter(env: Env)
    ensures
      var a := NoAnnotations.(fieldName := Some("id"), caseFormat := Some(LowerUnderscore));
      var m := MethodDecl("getUserId", Plain, a, Scalar("Long"), [], []);
      ForGetter(m, 0, NoBindings, env) == Failure(NameConflict("getUserId"))
  {
  }

  /** `setAmount(@Nullable x)` is nullable; `setName(String x, int y)` has the wrong arity. */
  lemma Setters(env: Env)
    ensures
      var m := MethodDecl("setAmount", Plain, NoAnnotations, Scalar("void"), [],
                          [Parameter(Scalar("Long"), ["Nullable"], [])]);
      var r := ForSetter(m, NoBindings, env);
      r.Success? && r.value.nullable && r.value.number.None?
    ensures
      var m := MethodDecl("setName", Plain, NoAnnotations, Scalar("void"), [],
                          [Parameter(Scalar("String"), [], []), Parameter(Scalar("int"), [], [])]);
      ForSetter(m, NoBindings, env) == Failure(SetterArity("setName"))
  {
  }

  /** A one-of over two variants keeps them verbatim and has no element, key or value. */
  lemma OneOfTwoVariants(intVal: Descriptor, strVal: Descriptor)
    ensures
      var variants := map["intVal" := intVal, "strVal" := strVal];
      var r := ForOneOf("value", false, variants);
      && r.oneOfTypes == variants
      && r.elementType.None? && r.mapKeyType.None? && r.mapValueType.None?
      && ShapeOf(r) == Union
  {
  }

  /** `@SchemaFieldNumber("7")` overrides the index; `@SchemaFieldNumber("x7")` is a format error. */
  lemma FieldNumbers(env: Env)
    ensures
      var f := FieldDecl("id", Plain, NoAnnotations.(fieldNumber := Some("7")), Scalar("Long"), []);
      ForField(f, 2, NoBindings, env).Success? && ForField(f, 2, NoBindings, env).value.number == Some(7)
    ensures
      var f := FieldDecl("id", Plain, NoAnnotations.(fieldNumber := Some("x7")), Scalar("Long"), []);
      ForField(f, 2, NoBindings, env) == Failure(NumberFormat("x7"))
  {
  }
}
