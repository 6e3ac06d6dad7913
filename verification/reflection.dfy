/**
 * What Java reflection and annotation lookup report about a declaration, as plain data,
 * and the external helpers the descriptor builders call.
 */
module Reflection {
  import opened Wrappers
  import opened Types

  /** The naming conventions of Guava's `CaseFormat`. */
  datatype CaseFormat = LowerHyphen | LowerUnderscore | LowerCamel | UpperCamel | UpperUnderscore

  /** The annotations found on one declaration site (a field, a method or a class). */
  datatype Annotations = Annotations(
    fieldName: Option<string>,       // value of @SchemaFieldName
    caseFormat: Option<CaseFormat>,  // value of @SchemaCaseFormat
    fieldNumber: Option<string>,     // value of @SchemaFieldNumber, not yet parsed
    description: Option<string>,     // value of @SchemaFieldDescription
    simpleNames: seq<string>)        // simple name of every annotation present

  /** The class that declares a member, with its own `@SchemaCaseFormat`, if any. */
  datatype ClassDecl = ClassDecl(name: string, caseFormat: Option<CaseFormat>)

  /** A `java.lang.reflect.Field`; `typeAnnotations` are those on its annotated type. */
  datatype FieldDecl = FieldDecl(
    name: string,
    declaringClass: ClassDecl,
    annotations: Annotations,
    genericType: Type,
    typeAnnotations: seq<string>)

  /** One formal parameter of a method. */
  datatype Parameter = Parameter(
    genericType: Type,
    annotations: seq<string>,
    typeAnnotations: seq<string>)

  /** A `java.lang.reflect.Method`; `returnTypeAnnotations` are those on its annotated return type. */
  datatype MethodDecl = MethodDecl(
    name: string,
    declaringClass: ClassDecl,
    annotations: Annotations,
    genericReturnType: Type,
    returnTypeAnnotations: seq<string>,
    parameters: seq<Parameter>)

  /** A member a descriptor can be built from: a field or a method. */
  datatype Member = FieldMember(fieldDecl: FieldDecl) | MethodMember(methodDecl: MethodDecl) {

    function Name(): string {
      match this
      case FieldMember(f) => f.name
      case MethodMember(m) => m.name
    }

    function DeclaringClass(): ClassDecl {
      match this
      case FieldMember(f) => f.declaringClass
      case MethodMember(m) => m.declaringClass
    }

    function SiteAnnotations(): Annotations {
      match this
      case FieldMember(f) => f.annotations
      case MethodMember(m) => m.annotations
    }
  }

  /** The ways building a descriptor can fail; each is a RuntimeException in the source. */
  datatype SchemaError =
    | NameConflict(memberName: string)      // both @SchemaFieldName and @SchemaCaseFormat on a member
    | NumberFormat(text: string)            // a @SchemaFieldNumber value that does not parse
    | GetterPrefix(methodName: string)      // a getter named neither get... nor is...
    | SetterPrefix(methodName: string)      // a setter whose name lacks the setter prefix
    | MissingParameter(methodName: string)  // a setter without parameters: index 0 is out of bounds
    | SetterArity(methodName: string)       // a setter with more than one parameter

  /**
   * Library code the builders call but whose behaviour is not part of this model:
   * `stripPrefix(name, prefix)` is `ReflectUtils.stripPrefix`, and
   * `lowerCamelTo(format, s)` is `CaseFormat.LOWER_CAMEL.to(format, s)`.
   */
  datatype Env = Env(
    stripPrefix: (string, string) -> string,
    lowerCamelTo: (CaseFormat, string) -> string)
}
