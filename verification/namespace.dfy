/**
 * The evaluation namespace: the closed `allowed_names` table and the copy of
 * it that `eval_expression` hands to the interpreter, with `x` bound only
 * when a value is supplied.
 */
module Namespace {
  import opened Wrappers

  /**
   * What a name of the table stands for. The numpy objects themselves are
   * library code, so an entry records which one it is, not what it computes.
   * `Bound(v)` is a value supplied by the caller for `x`.
   */
  datatype Binding<V> =
    | NumpyFunction(name: string)   // np.sin, np.arcsin, np.round, ...
    | NumpyConstant(name: string)   // np.pi, np.e
    | FactorialLambda               // lambda x: np.math.factorial(int(x))
    | NoneValue                     // the placeholder None for `x`
    | Bound(value: V)

  /** The name of the free variable. */
  const FreeVariable: string := "x"

  /** The shared, module-level `allowed_names` table. */
  function AllowedNames<V>(): (t: map<string, Binding<V>>)
    ensures FreeVariable in t && t[FreeVariable] == NoneValue
    ensures forall k :: k in t && k != FreeVariable ==> !t[k].NoneValue? && !t[k].Bound?
  {
    map[
      "sin" := NumpyFunction("sin"),
      "cos" := NumpyFunction("cos"),
      "tan" := NumpyFunction("tan"),
      "sqrt" := NumpyFunction("sqrt"),
      "log" := NumpyFunction("log"),
      "exp" := NumpyFunction("exp"),
      "abs" := NumpyFunction("abs"),
      "pi" := NumpyConstant("pi"),
      "e" := NumpyConstant("e"),
      "factorial" := FactorialLambda,
      "asin" := NumpyFunction("arcsin"),
      "acos" := NumpyFunction("arccos"),
      "atan" := NumpyFunction("arctan"),
      "floor" := NumpyFunction("floor"),
      "ceil" := NumpyFunction("ceil"),
      "round" := NumpyFunction("round"),
      "x" := NoneValue
    ]
  }

  /**
   * `local_dict = allowed_names.copy()` followed by `local_dict['x'] = x_value`
   * when `x_value is not None`. Maps are values here, so the copy is the map
   * itself and the shared table is never changed.
   */
  function LocalNamespace<V>(xValue: Option<V>): (ns: map<string, Binding<V>>)
    ensures ns.Keys == AllowedNames<V>().Keys
    ensures ns[FreeVariable] == (if xValue.Some? then Bound(xValue.value) else NoneValue)
    ensures forall k :: k in ns && k != FreeVariable ==> ns[k] == AllowedNames<V>()[k]
  {
    var local := AllowedNames<V>();
    if xValue.Some? then local[FreeVariable := Bound(xValue.value)] else local
  }

  /**
   * The namespace handed to the interpreter has exactly the table's keys,
   * whether or not `x` is bound, and only `x` can hold a caller's value.
   */
  lemma NamespaceIsClosed<V>(xValue: Option<V>, name: string)
    ensures name in LocalNamespace(xValue) <==> name in AllowedNames<V>()
    ensures name in LocalNamespace(xValue) && LocalNamespace(xValue)[name].Bound? ==>
              name == FreeVariable && xValue == Some(LocalNamespace(xValue)[name].value)
  {
  }
}
