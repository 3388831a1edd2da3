# Scientific calculator: session, keypad and evaluation outcomes

A model of the browser calculator in `scientific_calculator.py`: a grid of
buttons that edits a session-held expression string, evaluates it (appending
`expression = result` to a session history on success) or plots it as a
function of `x` over fixed sample points.

The model has five modules:

- `Sanitizer` (sanitizer.dfy): `sanitize_expression`, the rewrite of U+2212
  MINUS SIGN to ASCII `-`, with its pointwise meaning, idempotence, its fixed
  points and its distribution over concatenation.
- `Namespace` (namespace.dfy): the closed `allowed_names` table and the copy
  of it handed to the interpreter, with `x` bound only when a value is
  supplied.
- `Evaluation` (evaluation.dfy): `eval_expression`, the error classification
  of `calculate_expression` and the ordered result checks of `plot_function`.
  Python's `eval` over numpy is an oracle (`Oracle<V>`): a function from the
  sanitized text and the namespace to a returned object or a raised
  exception, with `isinstance(y, (list, np.ndarray))`, `np.all(np.isfinite(y))`,
  `str` and `np.linspace(-10, 10, 400)` as its other fields.
- `Keypad` (keypad.dfy): the button grid and the label-to-effect dispatch.
- `Calculator` (calculator.dfy): the session fields `expression` and
  `history` as a class `Session` whose methods are the button effects and one
  script run of the button loop, each proved against a specification
  function on a `State` value (`CalculateStep`, `PressStep`, `RunButtons`),
  and lemmas about those functions: the history is append-only, `clear` is
  idempotent, an empty expression is never evaluated, an expression typed on
  the keypad stays sanitized, and the history view shows the ten newest
  entries newest first.

The code hands the expression text to Python's `eval` and reports every
outcome as an on-screen message. The model therefore has no grammar, and the
plot failures are outcomes of `plot_function`.

## Model

| member | source | states |
|---|---|---|
| `Sanitizer.Sanitize` | scientific_calculator.py:41-45 | the result has the input's length, every U+2212 becomes `-`, every other character stays in place, and no U+2212 remains |
| `Sanitizer.SanitizeIdempotent` | scientific_calculator.py:41-45 | sanitizing a sanitized string returns it unchanged |
| `Sanitizer.SanitizeFixedPoint` | scientific_calculator.py:41-45 | a string is unchanged by the sanitizer exactly when it holds no U+2212 |
| `Sanitizer.SanitizeConcat` | scientific_calculator.py:41-45 | sanitizing a concatenation is the concatenation of the sanitized parts |
| `Namespace.AllowedNames` | scientific_calculator.py:21-39 | the table binds `x` to the placeholder `None`, and no other name is `None` or a caller-supplied value |
| `Namespace.LocalNamespace` | scientific_calculator.py:55-58 | the namespace has exactly the table's keys, `x` is bound to the supplied value when there is one and keeps its placeholder otherwise, and every other name keeps the table's entry |
| `Namespace.NamespaceIsClosed` | scientific_calculator.py:56-58 | the namespace handed to `eval` has exactly the table's keys, with or without `x` bound, and only `x` can hold a caller's value |
| `Evaluation.EvalExpressionSanitizesOnce` | scientific_calculator.py:47-77 | sanitizing before `eval_expression` (as `plot_function` does) gives the same outcome, and texts that differ only in their minus signs evaluate alike |
| `Evaluation.Classify` | scientific_calculator.py:128-135 | exactly one handler fires: ZeroDivisionError gives the math message, SyntaxError the syntax message, NameError the name message, every other exception the generic message with its text |
| `Evaluation.ClassifyKeepsKind` | scientific_calculator.py:128-135 | equal messages come from the same exception kind (or from other exceptions with the same text): no kind is reported as another |
| `Evaluation.PlotChecksInOrder` | scientific_calculator.py:65-90 | an evaluation error ends the plot with that error; otherwise a non-array result gives "must be a function of 'x'"; otherwise a non-finite array gives the non-finite error; a plot of the sanitized text over the sample points is produced exactly when all three checks pass |
| `Evaluation.EvalExpression` | scientific_calculator.py:47-63 | the interpreter gets the sanitized text and the shared table itself when no `x` value is supplied, or the table with `x` rebound to the value; `EvalExpressionSanitizesOnce` shows that sanitizing first changes nothing |
| `Evaluation.PlotFunction` | scientific_calculator.py:65-90 | a plot is produced only of an array whose elements are all finite, drawn over the sample points and titled with sanitized text; `PlotChecksInOrder` gives the full order of the checks |
| `Calculator.HistoryEntry` | scientific_calculator.py:126 | the entry starts with the expression text, followed by ` = ` and the result text |
| `Calculator.CalculateStep` | scientific_calculator.py:116-135 | the expression is kept, the history is unchanged unless a result is shown, and then the single new entry records the expression with the shown result; `CalculateHistory` says when each case happens |
| `Calculator.PlotStep` | scientific_calculator.py:137-148 | the "please enter" warning is shown exactly for the empty expression, and otherwise the outcome shown is exactly that of `plot_function` on the expression (whose meaning `PlotChecksInOrder` gives) |
| `Calculator.PressStep` | scientific_calculator.py:169-183 | only `=` can change the history; `=` is exactly `calculate_expression` (`CalculateStep`) and `plot` exactly `plot_expression` (`PlotStep`) with the state unchanged; `PressStepChanges` gives each effect |
| `Calculator.RunButtons` | scientific_calculator.py:164-183 | one message per press, in order; `HistoryAppendOnly` and `KeypadKeepsExpressionSanitized` state what a run keeps |
| `Keypad.Dispatch` | scientific_calculator.py:168-183 | `=` alone evaluates, `plot` alone plots, `clear` alone clears, and a function label appends its name and `(` |
| `Keypad.KeypadEffects` | scientific_calculator.py:154-183 | on the keypad, `^` appends `**`, `pi` appends `3.141592653589793`, each function label appends label and `(`, and every remaining label is one character appended verbatim |
| `Keypad.KeypadNamesResolve` | scientific_calculator.py:176-183 | every function a button opens is a numpy function of `allowed_names`, and the `x` button appends the name the plot binds |
| `Keypad.KeypadTextIsSanitized` | scientific_calculator.py:154-183 | no button appends a U+2212 |
| `Calculator.Session.constructor` | scientific_calculator.py:14-18 | a new session has an empty expression and an empty history |
| `Calculator.Session.AddToExpression` | scientific_calculator.py:104-108 | the expression becomes old expression followed by the value, the old one stays a prefix, the history is unchanged |
| `Calculator.Session.ClearExpression` | scientific_calculator.py:110-114 | the expression becomes empty and the history is unchanged |
| `Calculator.Session.CalculateExpression` | scientific_calculator.py:116-135 | the expression is unchanged, and the new history and the message are those of `CalculateStep` on the old state (evaluation and formatting both inside the `try`) |
| `Calculator.Session.PlotExpression` | scientific_calculator.py:137-148 | changes nothing; an empty expression gives the "please enter" warning, otherwise the outcome of `plot_function` is shown |
| `Calculator.Session.Press` | scientific_calculator.py:168-183 | the new state and the message are those of `PressStep`: the dispatched effect applied to the old state |
| `Calculator.Session.RunKeypad` | scientific_calculator.py:163-183 | one script run applies, in grid order, the press of every button that reports a click |
| `Calculator.Session.RunRows` | scientific_calculator.py:164-183 | the outer loop over the rows of a grid equals running the clicked labels of all rows (`ClickedLabels`: row by row, each row's `ClickedInRow` in order) one after the other |
| `Calculator.Session.RunRow` | scientific_calculator.py:166-183 | the inner loop over one row equals running that row's clicked labels one after the other |
| `Calculator.RunButtonsAppend` | scientific_calculator.py:164-183 | running one sequence of presses and then another is running their concatenation, so the per-row runs compose into the grid run |
| `Calculator.Reversed` | scientific_calculator.py:188 | `reversed`: same length, element i is element n-1-i of the input |
| `Calculator.RecentHistory` | scientific_calculator.py:186-189 | the view shows min(10, n) entries, newest first, entry i being history entry n-1-i |
| `Calculator.RecentHistoryAfterAppend` | scientific_calculator.py:186-189 | after a new entry the view starts with it, followed by the previous view cut back to ten entries |
| `Calculator.CalculateEmptyNeverEvaluates` | scientific_calculator.py:120-123 | on an empty expression the outcome does not depend on the interpreter at all: the "please enter" warning, nothing changed |
| `Calculator.CalculateHistory` | scientific_calculator.py:116-135 | the expression is kept; one entry `expression = str(result)` is appended exactly when both evaluation and formatting of the result succeed, earlier entries untouched; an error raised by either shows its kind's message and leaves the history unchanged |
| `Calculator.PressStepChanges` | scientific_calculator.py:168-183 | an appending button extends the expression and keeps the history, `clear` empties the expression, `plot` changes nothing, `=` keeps the expression, and the history grows by at most one entry and keeps its old entries as prefix |
| `Calculator.ClearIsIdempotent` | scientific_calculator.py:110-114 | a second `clear` has no further effect |
| `Calculator.HistoryAppendOnly` | scientific_calculator.py:126 | over any sequence of presses the old history stays a prefix and grows by at most one entry per press, with one message per press |
| `Calculator.KeypadKeepsExpressionSanitized` | scientific_calculator.py:164-183 | presses of keypad buttons keep a sanitized expression sanitized |
| `Calculator.ClickedLabelsAreOnGrid` | scientific_calculator.py:164-168 | the labels the grid loop dispatches (`ClickedLabels`) are labels of the grid it walks whose button reports a click |
| `Calculator.ClickedInRowIsFilter` | scientific_calculator.py:166-168 | the `if btn:` filter over one row (`ClickedInRow`) yields at most the row's labels, each a label of the row whose button reports a click |
| `Calculator.KeypadRunEvaluatesRecordedText` | scientific_calculator.py:120-126 | after any keypad run from a sanitized expression, the text `=` evaluates is exactly the text it records in the history |

## Left out

- Python's `eval` with numpy (scientific_calculator.py:61) is an oracle supplied by the caller; no arithmetic, parsing or numpy semantics is modelled, and the globals `{"__builtins__": {}}` are folded into that oracle.
- The numeric values of `np.pi`, `np.e`, the numpy functions, `np.linspace(-10, 10, 400)` and `np.isfinite` are floating point and library code: table entries record which numpy object a name stands for, and the array test, the finiteness test and the sample points are oracle fields. `str(np.pi)` is written out as its decimal text.
- Exceptions raised by the result checks themselves or by building the figure, which the outer handler of `plot_expression` (scientific_calculator.py:145-148) would report, are not modelled: the checks are total.
- Exception classes are flat: a subclass of a handled class (IndentationError, UnboundLocalError) is represented by the handled class, and exceptions outside `Exception`, which no handler catches, are not modelled.
- Plotly figure construction and the renderer setting (scientific_calculator.py:6-9, 93-102), and Streamlit widgets, columns, titles and the read-only expression box (scientific_calculator.py:12, 151, 165-167) are UI; messages are modelled as values naming which message is shown.
- The evaluation namespace is a value: the interpreter cannot write back into it, so the in-place update of the copied dictionary and any write the interpreter might make to it are not modelled beyond the copy being the one that is bound.
- The interpreter's own name resolution is inside the `eval` oracle: the globals' `__builtins__` (bound to an empty dictionary), names the expression binds itself (lambda parameters, comprehension variables, `:=`) and attribute access are not modelled; the model states only which names the namespace handed to `eval` holds.
