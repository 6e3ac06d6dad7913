/**
 * Nullability detection. Any annotation whose simple name is `Nullable` counts, whatever
 * package declares it.
 */
module Nullability {
  import opened Wrappers
  import opened Reflection

  /** `isNullableAnnotation`. */
  predicate IsNullableAnnotation(simpleName: string) {
    simpleName == "Nullable"
  }

  /** Some annotation in `names` is a Nullable annotation. */
  predicate MarkedNullable(names: seq<string>) {
    exists i :: 0 <= i < |names| && IsNullableAnnotation(names[i])
  }

  /** `Stream.anyMatch(isNullableAnnotation)`, scanning the annotations in order. */
  function AnyNullable(names: seq<string>): (r: bool)
    ensures r <==> MarkedNullable(names)
  {
    if |names| == 0 then false
    else if IsNullableAnnotation(names[0]) then true
    else
      var rest := AnyNullable(names[1..]);
      assert forall i :: 1 <= i < |names| ==> names[i] == names[1..][i - 1];
      rest
  }

  /** The annotations of `a + b` carry a Nullable one exactly when `a` or `b` does. */
  lemma {:induction false} MarkedNullableConcat(a: seq<string>, b: seq<string>)
    ensures MarkedNullable(a + b) <==> MarkedNullable(a) || MarkedNullable(b)
  {
    if MarkedNullable(a + b) {
      var i :| 0 <= i < |a + b| && IsNullableAnnotation((a + b)[i]);
      if i >= |a| {
        assert b[i - |a|] == (a + b)[i];
      }
    }
    if MarkedNullable(a) {
      var j :| 0 <= j < |a| && IsNullableAnnotation(a[j]);
      assert (a + b)[j] == a[j];
    }
    if MarkedNullable(b) {
      var j :| 0 <= j < |b| && IsNullableAnnotation(b[j]);
      assert (a + b)[|a| + j] == b[j];
    }
  }

  /** `hasNullableAnnotation`: the field or its annotated type carries Nullable. */
  function HasNullableAnnotation(f: FieldDecl): (r: bool)
    ensures r <==> MarkedNullable(f.annotations.simpleNames) || MarkedNullable(f.typeAnnotations)
  {
    MarkedNullableConcat(f.annotations.simpleNames, f.typeAnnotations);
    AnyNullable(f.annotations.simpleNames + f.typeAnnotations)
  }

  /** `hasNullableReturnType`: the method or its annotated return type carries Nullable. */
  function HasNullableReturnType(m: MethodDecl): (r: bool)
    ensures r <==> MarkedNullable(m.annotations.simpleNames) || MarkedNullable(m.returnTypeAnnotations)
  {
    MarkedNullableConcat(m.annotations.simpleNames, m.returnTypeAnnotations);
    AnyNullable(m.annotations.simpleNames + m.returnTypeAnnotations)
  }

  /**
   * `hasSingleNullableParameter`: fails unless the method has exactly one parameter, and
   * otherwise tells whether that parameter or its annotated type carries Nullable. The
   * method's own annotations play no part.
   */
  function HasSingleNullableParameter(m: MethodDecl): (r: Result<bool, SchemaError>)
    ensures r.Failure? <==> |m.parameters| != 1
    ensures r.Failure? ==> r.error == SetterArity(m.name)
    ensures r.Success? ==>
      (r.value <==> MarkedNullable(m.parameters[0].typeAnnotations) || MarkedNullable(m.parameters[0].annotations))
  {
    if |m.parameters| != 1 then Failure(SetterArity(m.name))
    else
      var p := m.parameters[0];
      MarkedNullableConcat(p.typeAnnotations, p.annotations);
      Success(AnyNullable(p.typeAnnotations + p.annotations))
  }
}
