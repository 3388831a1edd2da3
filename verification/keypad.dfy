/**
 * The keypad: the grid of button labels and what pressing each one does to
 * the session expression.
 */
module Keypad {
  import opened Sanitizer
  import opened Namespace

  /** The button grid, row by row, as laid out on screen. */
  const ButtonLabels: seq<seq<string>> := [
    ["7", "8", "9", "/", "sin"],
    ["4", "5", "6", "*", "cos"],
    ["1", "2", "3", "-", "tan"],
    ["0", ".", "(", ")", "sqrt"],
    ["pi", "x", "^", "log", "plot"],
    ["exp", "abs", "+", "=", "clear"]
  ]

  /** The labels whose button opens a function call. */
  const FunctionLabels: set<string> := {"sin", "cos", "tan", "sqrt", "log", "exp", "abs"}

  /** `str(np.pi)`: the shortest decimal text that reads back as the float64 nearest to pi. */
  const PiText: string := "3.141592653589793"

  /** True when `button` is the label of one of the keypad's buttons. */
  predicate OnKeypad(button: string) {
    exists r, c :: 0 <= r < |ButtonLabels| && 0 <= c < |ButtonLabels[r]| && ButtonLabels[r][c] == button
  }

  /** The four things a button can do. */
  datatype Effect = Append(text: string) | Calculate | Plot | Clear

  /** The `if`/`elif` chain of the button loop, tried in order. */
  function Dispatch(button: string): (e: Effect)
    ensures e == Calculate <==> button == "="
    ensures e == Plot <==> button == "plot"
    ensures e == Clear <==> button == "clear"
    ensures e.Append? && button in FunctionLabels ==> e.text == button + "("
  {
    if button == "=" then Calculate
    else if button == "plot" then Plot
    else if button == "clear" then Clear
    else if button == "pi" then Append(PiText)
    else if button in FunctionLabels then Append(button + "(")
    else if button == "^" then Append("**")
    else Append(button)
  }

  /**
   * What every keypad button appends: `^` appends `**`, each function button
   * its name and an opening parenthesis, `pi` the decimal text of pi, and
   * every other label except `=`, `plot` and `clear` the label itself.
   */
  lemma KeypadEffects(button: string)
    requires OnKeypad(button)
    ensures button == "^" ==> Dispatch(button) == Append("**")
    ensures button == "pi" ==> Dispatch(button) == Append(PiText)
    ensures button in FunctionLabels ==> Dispatch(button) == Append(button + "(")
    ensures button !in FunctionLabels && button !in {"^", "pi", "=", "plot", "clear"} ==>
              |button| == 1 && Dispatch(button) == Append(button)
  {
  }

  /**
   * Every function a button opens is a function of the evaluation namespace,
   * and the `x` button appends the name the plot binds.
   */
  lemma KeypadNamesResolve<V>(button: string)
    requires OnKeypad(button)
    ensures button in FunctionLabels ==> button in AllowedNames<V>() && AllowedNames<V>()[button].NumpyFunction?
    ensures button == "x" ==> Dispatch(button) == Append(FreeVariable)
  {
  }

  /** Dispatch adds no Unicode minus sign of its own. */
  lemma DispatchKeepsSanitized(button: string)
    requires IsSanitized(button)
    ensures Dispatch(button).Append? ==> IsSanitized(Dispatch(button).text)
  {
    assert IsSanitized(PiText) && IsSanitized("(") && IsSanitized("**");
  }

  /** No button appends a Unicode minus sign: all keypad text is already sanitized. */
  lemma KeypadTextIsSanitized(button: string)
    requires OnKeypad(button)
    ensures Dispatch(button).Append? ==> IsSanitized(Dispatch(button).text)
  {
    var r, c :| 0 <= r < |ButtonLabels| && 0 <= c < |ButtonLabels[r]| && ButtonLabels[r][c] == button;
    assert IsSanitized(button);
    DispatchKeepsSanitized(button);
  }
}
