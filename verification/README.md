# FieldValueTypeInformation in Dafny

A model of Apache Beam's `FieldValueTypeInformation`. This is the immutable, recursive
descriptor that Java schema inference builds for one schema field. A descriptor is built
from a Java field, a getter, a setter or a one-of specification. It records the field's name,
number, nullability, type, raw type and description. It also records the member it came
from, the one-of variants, and anonymous descriptors for the element type of an iterable
and the key and value types of a map.

Modules, one per part of the source file:

- `Wrappers` (wrappers.dfy): `Option` stands for Java `null`, and `Result` stands for a
  thrown `RuntimeException`.
- `Types` (types.dfy): an abstract Java `Type`, its erasure `Raw`, and `Resolve`, which
  substitutes bound type variables and stands in for `ReflectUtils.resolveType`.
- `Numbers` (numbers.dfy): `ParseInt`, which follows `Integer.parseInt`, and `FormatInt`,
  its inverse on canonical numerals (no `+` sign, no leading zero, no `-0`).
- `Reflection` (reflection.dfy): fields, methods, parameters, declaring classes and their
  annotations as plain data. `Env` holds the two library helpers whose behaviour is not
  modelled: `ReflectUtils.stripPrefix` and Guava's `CaseFormat.LOWER_CAMEL.to`.
- `Descriptors` (descriptor.dfy): the descriptor datatype, its shape invariants, `withName`
  and `forOneOf`.
- `Overrides` (overrides.dfy): `getNameOverride`, `getNumberOverride` and `getFieldDescription`.
- `Nullability` (nullability.dfy): Nullable detection by simple name.
- `Decomposer` (decomposer.dfy): recursive element, key and value descriptors.
- `Builders` (builders.dfy): `forField`, `forGetter` and both `forSetter` overloads.
- `Properties` (properties.dfy) and `Scenarios` (scenarios.dfy): lemmas that relate the entry
  points, and concrete declarations.

Behaviour of the source that is easy to misread:

- `forField` decomposes the field's declared generic type, not its resolved type. The
  type-variable bindings are passed through, so components are still resolved. The top-level
  descriptor's type and raw type, however, come from the resolved type. Take a field declared
  `T` with `T` bound to `List<String>`. It gets raw type Iterable but no element descriptor.
  A getter returning `T` gets one. So "an element descriptor exists exactly for an iterable
  raw type" holds for getters, setters and every synthesized descriptor. For fields it is
  guaranteed only when the declared type is not a bare type variable. A bare variable bound
  to an iterable or map type gets that raw type but no element, key or value descriptor
  (`Properties.BoundVariableFieldIsNotDecomposed`, `Properties.FieldShapeFollowsType`).
- A setter with no parameters fails when parameter 0 is looked up. This happens before the
  arity check, so it gets its own error, `MissingParameter`. Only a setter with two or more
  parameters gets `SetterArity`.

## Model

| member | source | states |
|---|---|---|
| Types.Resolve | sdks/java/core/src/main/java/org/apache/beam/sdk/schemas/FieldValueTypeInformation.java:133-134 | a bound type variable resolves to exactly its binding; a type with no bound variable is returned unchanged, so unbound variables stay as they are; resolving a non-variable type keeps its erasure |
| Types.ResolvedIsFree | sdks/java/core/src/main/java/org/apache/beam/sdk/schemas/FieldValueTypeInformation.java:203-204 | with concrete bindings, no bound type variable survives resolution |
| Types.ResolveIdempotent | sdks/java/core/src/main/java/org/apache/beam/sdk/schemas/FieldValueTypeInformation.java:213-215 | with concrete bindings, resolving an already resolved type changes nothing |
| Numbers.ParseInt | sdks/java/core/src/main/java/org/apache/beam/sdk/schemas/FieldValueTypeInformation.java:155 | a parsed field number always fits in a 32-bit int |
| Numbers.NatDigits | sdks/java/core/src/main/java/org/apache/beam/sdk/schemas/FieldValueTypeInformation.java:155 | the decimal form of a natural number is a non-empty digit string without a leading zero whose value is that number |
| Numbers.ParseFormatRoundTrip | sdks/java/core/src/main/java/org/apache/beam/sdk/schemas/FieldValueTypeInformation.java:155 | every 32-bit integer parses back from its decimal form |
| Numbers.CanonicalDigitsRoundTrip | sdks/java/core/src/main/java/org/apache/beam/sdk/schemas/FieldValueTypeInformation.java:155 | a digit string without a leading zero is the decimal form of its own value |
| Numbers.CanonicalRoundTrip | sdks/java/core/src/main/java/org/apache/beam/sdk/schemas/FieldValueTypeInformation.java:155 | a canonical numeral that parses formats back to itself, so parsing and formatting are inverse on canonical numerals |
| Numbers.ParsedValue | sdks/java/core/src/main/java/org/apache/beam/sdk/schemas/FieldValueTypeInformation.java:155 | a numeral that parses has digits after an optional sign, and its value is their decimal value, negated after a minus sign |
| Numbers.SignedDigitsParse | sdks/java/core/src/main/java/org/apache/beam/sdk/schemas/FieldValueTypeInformation.java:155 | an optional sign followed by digits whose signed value fits in 32 bits parses to that value |
| Numbers.ParseAcceptsNonCanonicalNumerals | sdks/java/core/src/main/java/org/apache/beam/sdk/schemas/FieldValueTypeInformation.java:155 | "007" and "+7" parse to 7 and "-0" parses to 0 |
| Numbers.ParseRejectsEmptyNumerals | sdks/java/core/src/main/java/org/apache/beam/sdk/schemas/FieldValueTypeInformation.java:155 | the empty string, "-" and "+" are not numbers |
| Overrides.GetNameOverride | sdks/java/core/src/main/java/org/apache/beam/sdk/schemas/FieldValueTypeInformation.java:158-180 | fails exactly when the member carries both @SchemaFieldName and its own @SchemaCaseFormat, with the member's name in the error |
| Overrides.FirstPresent | sdks/java/core/src/main/java/org/apache/beam/sdk/schemas/FieldValueTypeInformation.java:165-179 | the chosen candidate is present and every higher-precedence candidate is absent; nothing is chosen only when no candidate is present |
| Overrides.NameOverrideFollowsPrecedence | sdks/java/core/src/main/java/org/apache/beam/sdk/schemas/FieldValueTypeInformation.java:165-179 | a successful name is the first present of: member name override, member case format, class case format, original name |
| Overrides.ExplicitNameWins | sdks/java/core/src/main/java/org/apache/beam/sdk/schemas/FieldValueTypeInformation.java:165-172 | @SchemaFieldName alone gives exactly its literal, even when the declaring class has a case format |
| Overrides.MemberCaseFormatWins | sdks/java/core/src/main/java/org/apache/beam/sdk/schemas/FieldValueTypeInformation.java:173-174 | without a name override, a member case format converts the original name from lower camel, ignoring the class format |
| Overrides.ClassCaseFormatApplies | sdks/java/core/src/main/java/org/apache/beam/sdk/schemas/FieldValueTypeInformation.java:175-176 | without member-level overrides, the class case format converts the original name |
| Overrides.OriginalNameByDefault | sdks/java/core/src/main/java/org/apache/beam/sdk/schemas/FieldValueTypeInformation.java:177-178 | with no override anywhere, the name is the original name |
| Overrides.GetNumberOverride | sdks/java/core/src/main/java/org/apache/beam/sdk/schemas/FieldValueTypeInformation.java:150-156 | without @SchemaFieldNumber the number is the index; with it, the number is the parsed value, and a value that does not parse fails |
| Overrides.AnnotatedNumberIgnoresIndex | sdks/java/core/src/main/java/org/apache/beam/sdk/schemas/FieldValueTypeInformation.java:150-156 | an annotated number does not depend on the index |
| Nullability.AnyNullable | sdks/java/core/src/main/java/org/apache/beam/sdk/schemas/FieldValueTypeInformation.java:257-260 | the scan answers true exactly when some annotation's simple name is "Nullable" |
| Nullability.MarkedNullableConcat | sdks/java/core/src/main/java/org/apache/beam/sdk/schemas/FieldValueTypeInformation.java:222-227 | a concatenated stream has a Nullable annotation exactly when one of its parts has one |
| Nullability.HasNullableAnnotation | sdks/java/core/src/main/java/org/apache/beam/sdk/schemas/FieldValueTypeInformation.java:221-228 | a field is nullable exactly when the field or its annotated type carries a Nullable annotation |
| Nullability.HasNullableReturnType | sdks/java/core/src/main/java/org/apache/beam/sdk/schemas/FieldValueTypeInformation.java:230-241 | a getter is nullable exactly when the method or its annotated return type carries a Nullable annotation |
| Nullability.HasSingleNullableParameter | sdks/java/core/src/main/java/org/apache/beam/sdk/schemas/FieldValueTypeInformation.java:243-255 | fails exactly when the method does not have one parameter; otherwise nullable exactly when that parameter or its annotated type carries Nullable |
| Descriptors.WithName | sdks/java/core/src/main/java/org/apache/beam/sdk/schemas/FieldValueTypeInformation.java:293-295 | the copy has the new name and agrees with the original in every other attribute |
| Descriptors.WithNameRoundTrip | sdks/java/core/src/main/java/org/apache/beam/sdk/schemas/FieldValueTypeInformation.java:293-295 | renaming and renaming back gives the original descriptor |
| Descriptors.ForOneOf | sdks/java/core/src/main/java/org/apache/beam/sdk/schemas/FieldValueTypeInformation.java:115-129 | the variants are stored verbatim, the type is OneOfType.Value, no member, number or description; the shape is Union exactly when there are variants |
| Descriptors.ElementDepthIsListDepth | sdks/java/core/src/main/java/org/apache/beam/sdk/schemas/FieldValueTypeInformation.java:310-319 | a descriptor that follows its type nests as many element descriptors as the type nests lists |
| Descriptors.TypeShapedHasSingleShape | sdks/java/core/src/main/java/org/apache/beam/sdk/schemas/FieldValueTypeInformation.java:355-364 | a descriptor that follows its type has exactly one shape: sequence for a list, associative for a map, plain otherwise |
| Decomposer.ComponentType | sdks/java/core/src/main/java/org/apache/beam/sdk/schemas/FieldValueTypeInformation.java:305 | there is a component type exactly for an iterable type, and it is the resolved element type |
| Decomposer.MapArgument | sdks/java/core/src/main/java/org/apache/beam/sdk/schemas/FieldValueTypeInformation.java:351 | there is a map argument exactly for a map type, and it is the resolved key (index 0) or value (index 1) type |
| Decomposer.SubDescriptor | sdks/java/core/src/main/java/org/apache/beam/sdk/schemas/FieldValueTypeInformation.java:310-319 | a synthesized descriptor has empty name, is not nullable, has no number, member, variants or description, and all of this holds recursively below it, whose shape follows its type |
| Decomposer.IterableComponentType | sdks/java/core/src/main/java/org/apache/beam/sdk/schemas/FieldValueTypeInformation.java:302-320 | an element descriptor exists exactly for an iterable type; it describes the resolved element type, is anonymous, and is itself decomposed |
| Decomposer.MapType | sdks/java/core/src/main/java/org/apache/beam/sdk/schemas/FieldValueTypeInformation.java:349-365 | a key or value descriptor exists exactly for a map type; it describes the resolved key or value type, is anonymous, and is itself decomposed |
| Decomposer.MapKeyType | sdks/java/core/src/main/java/org/apache/beam/sdk/schemas/FieldValueTypeInformation.java:329-332 | a key descriptor exists exactly for a map type and describes its resolved key type |
| Decomposer.MapValueType | sdks/java/core/src/main/java/org/apache/beam/sdk/schemas/FieldValueTypeInformation.java:341-344 | a value descriptor exists exactly for a map type and describes its resolved value type |
| Builders.ForField | sdks/java/core/src/main/java/org/apache/beam/sdk/schemas/FieldValueTypeInformation.java:131-148 | fails exactly on a name conflict or a bad number, with NameConflict naming the field for a conflict and NumberFormat carrying the text for a bad number; on success, the type is the resolved generic type and the member is the field; nullable follows the field's annotations; element, key and value follow the declared type, all anonymous; the description is the annotation's |
| Builders.GetterBaseName | sdks/java/core/src/main/java/org/apache/beam/sdk/schemas/FieldValueTypeInformation.java:194-201 | "get" is stripped before "is", and a name with neither prefix fails |
| Builders.ForGetter | sdks/java/core/src/main/java/org/apache/beam/sdk/schemas/FieldValueTypeInformation.java:192-219 | a wrong prefix fails first with GetterPrefix; otherwise fails exactly on a name conflict (NameConflict naming the method) or, failing that, a bad number (NumberFormat carrying the text); on success, the type is the resolved return type and the descriptor follows that type's shape; nullable follows the method and return-type annotations |
| Builders.ForSetterWithPrefix | sdks/java/core/src/main/java/org/apache/beam/sdk/schemas/FieldValueTypeInformation.java:267-291 | succeeds exactly with the prefix and one parameter; the prefix error comes before the missing-parameter and arity errors; on success, the name is the stripped name, there is no number or description, nullable comes from parameter 0 only, and the shape follows the resolved parameter type |
| Builders.ForSetter | sdks/java/core/src/main/java/org/apache/beam/sdk/schemas/FieldValueTypeInformation.java:262-265 | the one-argument overload is the prefixed one with prefix "set" |
| Properties.FieldNameAndNumber | sdks/java/core/src/main/java/org/apache/beam/sdk/schemas/FieldValueTypeInformation.java:136-137 | a field's name and number are the override policy applied to its declared name and its index |
| Properties.FieldDefaultPath | sdks/java/core/src/main/java/org/apache/beam/sdk/schemas/FieldValueTypeInformation.java:131-148 | a field without markers keeps its declared name and takes the index as its number |
| Properties.GetterNameAndNumber | sdks/java/core/src/main/java/org/apache/beam/sdk/schemas/FieldValueTypeInformation.java:206-208 | a getter's name is the override policy applied to its stripped name, and its number is the override policy applied to the index |
| Properties.SetterIgnoresMethodAnnotations | sdks/java/core/src/main/java/org/apache/beam/sdk/schemas/FieldValueTypeInformation.java:279-290 | a setter's descriptor does not depend on the method's own annotations or return-type annotations |
| Properties.FieldShapeFollowsType | sdks/java/core/src/main/java/org/apache/beam/sdk/schemas/FieldValueTypeInformation.java:142-144 | a field whose declared type is not a bare variable follows the shape of its resolved type |
| Properties.BoundVariableFieldIsNotDecomposed | sdks/java/core/src/main/java/org/apache/beam/sdk/schemas/FieldValueTypeInformation.java:133-144 | a field declared T, with T bound to a list, has an iterable raw type but no element descriptor, while a getter returning T has one |
| Properties.GetterElementDepth | sdks/java/core/src/main/java/org/apache/beam/sdk/schemas/FieldValueTypeInformation.java:213-215 | a getter's element nesting depth equals the list nesting depth of its resolved return type |
| Properties.FieldElementDepth | sdks/java/core/src/main/java/org/apache/beam/sdk/schemas/FieldValueTypeInformation.java:297-300 | a field's element nesting depth is the list depth of its resolved type when it is declared as a list, and zero otherwise |
| Properties.KeyAndValueTogether | sdks/java/core/src/main/java/org/apache/beam/sdk/schemas/FieldValueTypeInformation.java:324-344 | for fields, getters and setters, a key descriptor is present exactly when a value descriptor is |
| Scenarios.ListOfMapField | sdks/java/core/src/main/java/org/apache/beam/sdk/schemas/FieldValueTypeInformation.java:131-148 | List of Map of String to Integer: raw Iterable, element raw Map, key raw String, value raw Integer |
| Scenarios.NestedListGetter | sdks/java/core/src/main/java/org/apache/beam/sdk/schemas/FieldValueTypeInformation.java:302-320 | List of List of String: two nested element descriptors and no third |
| Scenarios.GetUserId | sdks/java/core/src/main/java/org/apache/beam/sdk/schemas/FieldValueTypeInformation.java:192-219 | getUserId at index 3 is named by stripping "get" and numbered 3; with an upper-underscore case format the stripped name is converted |
| Scenarios.ConflictingGetter | sdks/java/core/src/main/java/org/apache/beam/sdk/schemas/FieldValueTypeInformation.java:165-171 | a getter with both a name override and a case format fails with a conflict naming the method |
| Scenarios.Setters | sdks/java/core/src/main/java/org/apache/beam/sdk/schemas/FieldValueTypeInformation.java:243-291 | a setter whose parameter is Nullable is nullable and unnumbered; a two-parameter setter fails on arity |
| Scenarios.OneOfTwoVariants | sdks/java/core/src/main/java/org/apache/beam/sdk/schemas/FieldValueTypeInformation.java:115-129 | a two-variant one-of keeps the variants and has no element, key or value |
| Scenarios.FieldNumbers | sdks/java/core/src/main/java/org/apache/beam/sdk/schemas/FieldValueTypeInformation.java:150-156 | a field number of "7" overrides the index; "x7" is a number-format failure |

## Left out

- Java reflection (`Field`, `Method`, `AnnotatedElement`, `getDeclaringClass`, annotation
  lookup) is replaced by the records in `Reflection`. They carry names, declared types,
  parameters and the annotation data of each declaration site.
- `ReflectUtils.stripPrefix` and `CaseFormat.LOWER_CAMEL.to` are not part of this model. They
  are function-valued fields of `Env`, so every result naming them holds for any
  implementation.
- Types.Resolve: a one-step substitution over the abstract `Type`. A binding's value is not
  resolved again. All decomposing entry points require `Closed` bindings, whose values
  contain no type variables. With a self-referential binding such as `T` to `List<T>`, the
  source's recursion does not end, so the model does not admit it.
- Builders.ForField, Builders.ForGetter, Builders.ForSetterWithPrefix, Builders.ForSetter:
  their `Closed` precondition also excludes acyclic bindings whose values mention another
  bound variable, such as `T` to `List<U>` with `U` to `String`, which the source accepts.
  Under the one-step `Resolve` such a getter would have type `List<U>` but an element
  descriptor for `String`, so the promise that the descriptor follows its type's shape
  depends on `Closed` and is not made for these bindings.
- Decomposer.ComponentType and Decomposer.MapArgument stand in for
  `ReflectUtils.getIterableComponentType` and `ReflectUtils.getMapType`, which are not part of
  this model. They recognise only the `ListT` and `MapT` constructors. Java arrays, the
  `byte[]` special case, subclasses found through their supertypes, and the exception for an
  unparameterized collection or map are not modelled.
- Types.Raw stands in for `TypeDescriptor.getRawType`. It gives only the head constructor of a
  type, and a type variable erases to `Object` whatever its bound.
- Numbers.ParseInt: accepts ASCII digits only, whereas Java's `Character.digit` also accepts
  other Unicode decimal digits.
- The AutoValue builder, `equals`/`hashCode` and `Serializable` are replaced by a Dafny
  datatype with structural equality. The two nullable slots `getField` and `getMethod` are
  modelled as one optional `Member`, so they cannot both be set.
- Exception messages are reduced to the offending member's name, or to the number's text.
  The source's failure for a setter without parameters is an ArrayIndexOutOfBoundsException
  whose message names no member; the model adds the method name to `MissingParameter`.
- `getFieldDescription` is a plain lookup. `Overrides.GetFieldDescription` carries no contract
  of its own; the builders' contracts state where the description comes from.
