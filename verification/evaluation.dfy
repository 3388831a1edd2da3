/**
 * Evaluation of an expression and the classification of its outcome.
 * Python's `eval` over numpy is not modelled: it is an oracle supplied by the
 * caller, together with the numpy tests the plot path applies to its result.
 */
module Evaluation {
  import opened Wrappers
  import opened Sanitizer
  import opened Namespace

  /** The exception classes `calculate_expression` tells apart; every other one is `OtherException`. */
  datatype ExceptionKind =
    | ZeroDivisionError
    | SyntaxError
    | NameError
    | OtherException(typeName: string)

  /** A raised exception: its class and its `str(e)` text. */
  datatype PyException = PyException(kind: ExceptionKind, text: string)

  /** What `eval` does: return an object or raise an exception. */
  datatype EvalOutcome<V> = Returned(value: V) | Raised(exception: PyException)

  /**
   * The host interpreter and numpy, seen from the calculator.
   * `eval` is `eval(text, {"__builtins__": {}}, namespace)`;
   * `isArray` is `isinstance(y, (list, np.ndarray))`;
   * `allFinite` is `np.all(np.isfinite(y))`;
   * `str` is Python's `str` as an f-string applies it, which can itself raise
   * (an int of more than 4300 digits raises ValueError, for one);
   * `linspace` is `np.linspace(-10, 10, 400)`.
   */
  datatype Oracle<!V> = Oracle(
    eval: (string, map<string, Binding<V>>) -> EvalOutcome<V>,
    isArray: V -> bool,
    allFinite: V -> bool,
    str: V -> EvalOutcome<string>,
    linspace: V)

  /** `eval_expression`: sanitize, build the namespace, evaluate; exceptions propagate. */
  function EvalExpression<V>(o: Oracle<V>, expression: string, xValue: Option<V>): (r: EvalOutcome<V>)
    ensures xValue.None? ==> r == o.eval(Sanitize(expression), AllowedNames())
    ensures xValue.Some? ==>
      r == o.eval(Sanitize(expression), AllowedNames()[FreeVariable := Bound(xValue.value)])
  {
    o.eval(Sanitize(expression), LocalNamespace(xValue))
  }

  /**
   * Sanitizing before calling `eval_expression`, as `plot_function` does,
   * changes nothing: the interpreter sees the same text, and two inputs that
   * differ only in their minus signs evaluate alike.
   */
  lemma EvalExpressionSanitizesOnce<V>(o: Oracle<V>, expression: string, other: string, xValue: Option<V>)
    ensures EvalExpression(o, Sanitize(expression), xValue) == EvalExpression(o, expression, xValue)
    ensures Sanitize(other) == Sanitize(expression) ==>
              EvalExpression(o, other, xValue) == EvalExpression(o, expression, xValue)
  {
    SanitizeIdempotent(expression);
  }

  /** The message `calculate_expression` shows for an evaluation error. */
  datatype ErrorMessage =
    | MathErrorMessage       // "Math Error: Division by zero is undefined."
    | SyntaxErrorMessage     // "Syntax Error: Please check the expression ..."
    | NameErrorMessage       // "Name Error: Ensure all functions and variables ..."
    | GenericErrorMessage(detail: string)  // f"Error: {e}"

  /** The `except` clauses of `calculate_expression`, tried in order. */
  function Classify(e: PyException): (m: ErrorMessage)
    ensures m.MathErrorMessage? <==> e.kind == ZeroDivisionError
    ensures m.SyntaxErrorMessage? <==> e.kind == SyntaxError
    ensures m.NameErrorMessage? <==> e.kind == NameError
    ensures m.GenericErrorMessage? <==> e.kind.OtherException?
    ensures m.GenericErrorMessage? ==> m.detail == e.text
  {
    match e.kind
    case ZeroDivisionError => MathErrorMessage
    case SyntaxError => SyntaxErrorMessage
    case NameError => NameErrorMessage
    case OtherException(_) => GenericErrorMessage(e.text)
  }

  /** Classification never merges two different handled kinds into one message. */
  lemma ClassifyKeepsKind(e1: PyException, e2: PyException)
    requires Classify(e1) == Classify(e2)
    ensures e1.kind == e2.kind || (e1.kind.OtherException? && e2.kind.OtherException? && e1.text == e2.text)
  {
  }

  /** What `plot_function` ends with. */
  datatype PlotOutcome<V> =
    | ExpressionError(detail: string)   // f"Error in expression: {e}"
    | NotAFunctionOfX                   // "The expression must be a function of 'x'."
    | NonFiniteValues                   // "... non-finite values (NaN or Inf)."
    | Plotted(title: string, xs: V, ys: V)

  /** `plot_function`: sanitize, evaluate with `x` bound to the samples, then check the result. */
  function PlotFunction<V>(o: Oracle<V>, expression: string): (r: PlotOutcome<V>)
    ensures r.Plotted? ==> IsSanitized(r.title) && r.xs == o.linspace && o.isArray(r.ys) && o.allFinite(r.ys)
  {
    var text := Sanitize(expression);
    match EvalExpression(o, text, Some(o.linspace))
    case Raised(e) => ExpressionError(e.text)
    case Returned(y) =>
      if !o.isArray(y) then NotAFunctionOfX
      else if !o.allFinite(y) then NonFiniteValues
      else Plotted(text, o.linspace, y)
  }

  /**
   * The plot checks run in a fixed order and a plot is produced only when all
   * three pass. The interpreter sees the expression sanitized once, with `x`
   * bound to the sample points, and the plot is titled with that text.
   */
  lemma PlotChecksInOrder<V>(o: Oracle<V>, expression: string)
    ensures var out := o.eval(Sanitize(expression), LocalNamespace(Some(o.linspace)));
      && (PlotFunction(o, expression).ExpressionError? <==> out.Raised?)
      && (out.Raised? ==> PlotFunction(o, expression).detail == out.exception.text)
      && (PlotFunction(o, expression).NotAFunctionOfX? <==> out.Returned? && !o.isArray(out.value))
      && (PlotFunction(o, expression).NonFiniteValues? <==>
            out.Returned? && o.isArray(out.value) && !o.allFinite(out.value))
      && (PlotFunction(o, expression).Plotted? <==>
            out.Returned? && o.isArray(out.value) && o.allFinite(out.value))
      && (PlotFunction(o, expression).Plotted? ==>
            PlotFunction(o, expression) == Plotted(Sanitize(expression), o.linspace, out.value))
  {
    SanitizeIdempotent(expression);
  }
}
