/**
 * Java type expressions and their resolution against a map of type-variable bindings.
 * `Resolve` stands in for `ReflectUtils.resolveType` and `Raw` for `TypeDescriptor.getRawType`.
 */
module Types {

  /** A Java type expression, reduced to the shapes schema inference tells apart. */
  datatype Type =
    | Var(name: string)                      // a type variable such as `T`
    | Scalar(cls: string)                    // a non-generic class: String, Integer, a POJO
    | ListT(elem: Type)                      // an Iterable shape: List<E>, Collection<E>, ...
    | MapT(key: Type, value: Type)           // a Map<K, V> shape
    | Generic(cls: string, args: seq<Type>)  // any other parameterized class, e.g. Optional<T>
    | OneOfValue                             // the class OneOfType.Value

  /** The erased class of a type. */
  datatype RawClass =
    | ObjectClass
    | ClassNamed(name: string)
    | IterableClass
    | MapClass
    | OneOfValueClass

  /** Bindings from type-variable name to the type substituted for it. */
  type Bindings = map<string, Type>

  /** The erasure of a type; an unbounded type variable erases to Object. */
  function Raw(t: Type): RawClass {
    match t
    case Var(_) => ObjectClass
    case Scalar(c) => ClassNamed(c)
    case ListT(_) => IterableClass
    case MapT(_, _) => MapClass
    case Generic(c, _) => ClassNamed(c)
    case OneOfValue => OneOfValueClass
  }

  /** `t` mentions no type variable at all. */
  predicate Ground(t: Type) {
    match t
    case Var(_) => false
    case Scalar(_) => true
    case ListT(e) => Ground(e)
    case MapT(k, v) => Ground(k) && Ground(v)
    case Generic(_, args) => forall i :: 0 <= i < |args| ==> Ground(args[i])
    case OneOfValue => true
  }

  /** Every binding maps to a concrete type, as the callers of the resolver supply them. */
  predicate Closed(bound: Bindings) {
    forall x :: x in bound ==> Ground(bound[x])
  }

  /** No type variable of `t` has a binding in `bound`. */
  predicate FreeOf(t: Type, bound: Bindings) {
    match t
    case Var(x) => x !in bound
    case Scalar(_) => true
    case ListT(e) => FreeOf(e, bound)
    case MapT(k, v) => FreeOf(k, bound) && FreeOf(v, bound)
    case Generic(_, args) => forall i :: 0 <= i < |args| ==> FreeOf(args[i], bound)
    case OneOfValue => true
  }

  /**
   * Substitutes every bound type variable of `t`, recursing into type arguments;
   * a variable without a binding is left as it is.
   */
  function Resolve(t: Type, bound: Bindings): (r: Type)
    ensures t.Var? && t.name in bound ==> r == bound[t.name]
    ensures FreeOf(t, bound) ==> r == t
    ensures !t.Var? ==> Raw(r) == Raw(t)
  {
    match t
    case Var(x) => if x in bound then bound[x] else t
    case Scalar(_) => t
    case ListT(e) => ListT(Resolve(e, bound))
    case MapT(k, v) => MapT(Resolve(k, bound), Resolve(v, bound))
    case Generic(c, args) =>
      var resolved := seq(|args|, i requires 0 <= i < |args| => Resolve(args[i], bound));
      assert FreeOf(t, bound) ==> resolved == args;
      Generic(c, resolved)
    case OneOfValue => t
  }

  /** A ground type is its own resolution. */
  lemma {:induction false} GroundIsFree(t: Type, bound: Bindings)
    requires Ground(t)
    ensures FreeOf(t, bound)
  {
    match t
    case Var(_) =>
    case Scalar(_) =>
    case ListT(e) => GroundIsFree(e, bound);
    case MapT(k, v) => GroundIsFree(k, bound); GroundIsFree(v, bound);
    case Generic(_, args) =>
      forall i | 0 <= i < |args|
        ensures FreeOf(args[i], bound)
      {
        GroundIsFree(args[i], bound);
      }
    case OneOfValue =>
  }

  /** With concrete bindings, no bound variable survives resolution. */
  lemma {:induction false} ResolvedIsFree(t: Type, bound: Bindings)
    requires Closed(bound)
    ensures FreeOf(Resolve(t, bound), bound)
  {
    match t
    case Var(x) =>
      if x in bound {
        GroundIsFree(bound[x], bound);
      }
    case Scalar(_) =>
    case ListT(e) => ResolvedIsFree(e, bound);
    case MapT(k, v) => ResolvedIsFree(k, bound); ResolvedIsFree(v, bound);
    case Generic(_, args) =>
      forall i | 0 <= i < |args|
        ensures FreeOf(Resolve(args[i], bound), bound)
      {
        ResolvedIsFree(args[i], bound);
      }
    case OneOfValue =>
  }

  /** With concrete bindings, resolving twice is resolving once. */
  lemma ResolveIdempotent(t: Type, bound: Bindings)
    requires Closed(bound)
    ensures Resolve(Resolve(t, bound), bound) == Resolve(t, bound)
  {
    ResolvedIsFree(t, bound);
  }
}
