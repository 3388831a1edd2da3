/**
 * The calculator session: the expression being typed and the history of
 * successful calculations, the four button effects that change them, and
 * one run of the button grid.
 */
module Calculator {
  import opened Wrappers
  import opened Sanitizer
  import opened Namespace
  import opened Evaluation
  import opened Keypad

  /** The two session fields, as a value. */
  datatype State = State(expression: string, history: seq<string>)

  /** What `calculate_expression` shows. */
  datatype CalcNotice =
    | PleaseEnterExpression          // "Please enter an expression to evaluate."
    | ResultShown(result: string)    // f"Result: {result}"
    | ErrorShown(message: ErrorMessage)

  /** What one button press shows. */
  datatype Notice<V> =
    | Silent                         // appending text shows nothing
    | Cleared                        // "Cleared the expression."
    | Calculation(outcome: CalcNotice)
    | PleaseEnterPlot                // "Please enter an expression to plot."
    | PlotShown(plot: PlotOutcome<V>)

  /** The history entry `f"{expression} = {result}"`. */
  function HistoryEntry(expression: string, result: string): (entry: string)
    ensures |entry| == |expression| + 3 + |result|
    ensures entry[..|expression|] == expression && entry[|expression|..] == " = " + result
  {
    expression + " = " + result
  }

  /**
   * `calculate_expression` on a state: an empty expression is refused before
   * evaluation; otherwise the expression is evaluated with `x` unbound and
   * its result formatted, both inside the `try`, and only when both succeed
   * is an entry appended to the history.
   */
  function CalculateStep<V>(o: Oracle<V>, s: State): (r: (State, CalcNotice))
    ensures r.0.expression == s.expression
    ensures r.1.ResultShown? ==> r.0.history == s.history + [HistoryEntry(s.expression, r.1.result)]
    ensures !r.1.ResultShown? ==> r.0.history == s.history
  {
    if s.expression == "" then (s, PleaseEnterExpression)
    else match EvalExpression(o, s.expression, None)
      case Raised(e) => (s, ErrorShown(Classify(e)))
      case Returned(v) =>
        match o.str(v)
        case Raised(e) => (s, ErrorShown(Classify(e)))
        case Returned(result) =>
          (s.(history := s.history + [HistoryEntry(s.expression, result)]), ResultShown(result))
  }

  /** `plot_expression`: an empty expression is refused, otherwise `plot_function` runs. */
  function PlotStep<V>(o: Oracle<V>, expression: string): (n: Notice<V>)
    ensures n.PleaseEnterPlot? <==> expression == ""
    ensures n.PlotShown? <==> expression != ""
    ensures n.PlotShown? ==> n.plot == PlotFunction(o, expression)
  {
    if expression == "" then PleaseEnterPlot else PlotShown(PlotFunction(o, expression))
  }

  /** One button press of the grid loop. */
  function PressStep<V>(o: Oracle<V>, s: State, button: string): (r: (State, Notice<V>))
    ensures Dispatch(button) != Calculate ==> r.0.history == s.history
    ensures Dispatch(button) == Plot ==> r.0 == s && r.1 == PlotStep(o, s.expression)
    ensures Dispatch(button) == Calculate ==>
      r == (CalculateStep(o, s).0, Calculation(CalculateStep(o, s).1))
  {
    match Dispatch(button)
    case Append(t) => (s.(expression := s.expression + t), Silent)
    case Clear => (s.(expression := ""), Cleared)
    case Calculate => var (s', c) := CalculateStep(o, s); (s', Calculation(c))
    case Plot => (s, PlotStep(o, s.expression))
  }

  /** The presses of `buttons`, one after the other, with what each one showed. */
  function RunButtons<V>(o: Oracle<V>, s: State, buttons: seq<string>): (r: (State, seq<Notice<V>>))
    ensures |r.1| == |buttons|
  {
    if buttons == [] then (s, [])
    else
      var (before, shown) := RunButtons(o, s, buttons[..|buttons| - 1]);
      var (after, n) := PressStep(o, before, buttons[|buttons| - 1]);
      (after, shown + [n])
  }

  /** The labels of `row` whose button reports a click, left to right. */
  function ClickedInRow(row: seq<string>, clicked: string -> bool): seq<string>
  {
    if row == [] then []
    else ClickedInRow(row[..|row| - 1], clicked) + (if clicked(row[|row| - 1]) then [row[|row| - 1]] else [])
  }

  /** The labels of `rows` whose button reports a click, row by row. */
  function ClickedLabels(rows: seq<seq<string>>, clicked: string -> bool): seq<string>
  {
    if rows == [] then []
    else ClickedLabels(rows[..|rows| - 1], clicked) + ClickedInRow(rows[|rows| - 1], clicked)
  }

  /** `reversed(s)`. */
  function Reversed<T>(s: seq<T>): (r: seq<T>)
    ensures |r| == |s|
    ensures forall i :: 0 <= i < |s| ==> r[i] == s[|s| - 1 - i]
  {
    if s == [] then [] else Reversed(s[1..]) + [s[0]]
  }

  /** `reversed(history[-10:])`: at most the ten most recent entries, newest first. */
  function RecentHistory(history: seq<string>): (r: seq<string>)
    ensures |r| == if |history| < 10 then |history| else 10
    ensures forall i :: 0 <= i < |r| ==> r[i] == history[|history| - 1 - i]
  {
    Reversed(if |history| <= 10 then history else history[|history| - 10..])
  }

  /** The session fields held across script runs, updated in place by the buttons. */
  class Session<V> {
    var expression: string
    var history: seq<string>

    /** The fields as a value. */
    function Current(): State
      reads this
    {
      State(expression, history)
    }

    /** The first script run initialises both fields. */
    constructor ()
      ensures expression == "" && history == []
    {
      expression := "";
      history := [];
    }

    /** `add_to_expression`: the old expression stays a prefix and nothing else changes. */
    method AddToExpression(value: string)
      modifies this
      ensures expression == old(expression) + value
      ensures expression[..|old(expression)|] == old(expression)
      ensures history == old(history)
    {
      expression := expression + value;
    }

    /** `clear_expression`. */
    method ClearExpression()
      modifies this
      ensures expression == ""
      ensures history == old(history)
    {
      expression := "";
    }

    /** `calculate_expression`: appends one entry to the history only when evaluating and formatting succeed. */
    method CalculateExpression(o: Oracle<V>) returns (shown: CalcNotice)
      modifies this
      ensures expression == old(expression)
      ensures (Current(), shown) == CalculateStep(o, old(Current()))
    {
      if expression == "" {
        shown := PleaseEnterExpression;
        return;
      }
      var outcome := EvalExpression(o, expression, None);
      match outcome
      case Raised(e) =>
        shown := ErrorShown(Classify(e));
      case Returned(v) =>
        var formatted := o.str(v);
        match formatted
        case Raised(e) =>
          shown := ErrorShown(Classify(e));
        case Returned(result) =>
          history := history + [HistoryEntry(expression, result)];
          shown := ResultShown(result);
    }

    /** `plot_expression`: reads the expression and changes nothing. */
    method PlotExpression(o: Oracle<V>) returns (shown: Notice<V>)
      ensures shown == PlotStep(o, expression)
      ensures shown.PlotShown? <==> expression != ""
    {
      if expression == "" {
        shown := PleaseEnterPlot;
        return;
      }
      shown := PlotShown(PlotFunction(o, expression));
    }

    /** The body of the grid loop for one clicked button. */
    method Press(o: Oracle<V>, button: string) returns (shown: Notice<V>)
      modifies this
      ensures (Current(), shown) == PressStep(o, old(Current()), button)
    {
      match Dispatch(button)
      case Append(t) =>
        AddToExpression(t);
        shown := Silent;
      case Clear =>
        ClearExpression();
        shown := Cleared;
      case Calculate =>
        var c := CalculateExpression(o);
        shown := Calculation(c);
      case Plot =>
        shown := PlotExpression(o);
    }

    /**
     * One script run of the nested `for row / for idx` loop: every button
     * whose `clicked` reports true is dispatched, in grid order.
     */
    method RunKeypad(o: Oracle<V>, clicked: string -> bool) returns (shown: seq<Notice<V>>)
      modifies this
      ensures (Current(), shown) == RunButtons(o, old(Current()), ClickedLabels(ButtonLabels, clicked))
    {
      shown := RunRows(o, ButtonLabels, clicked);
    }

    /** The outer loop, `for row in button_labels`, over any grid of labels. */
    method RunRows(o: Oracle<V>, rows: seq<seq<string>>, clicked: string -> bool) returns (shown: seq<Notice<V>>)
      modifies this
      ensures (Current(), shown) == RunButtons(o, old(Current()), ClickedLabels(rows, clicked))
    {
      ghost var start := Current();
      shown := [];
      var r := 0;
      while r < |rows|
        invariant 0 <= r <= |rows|
        invariant (Current(), shown) == RunButtons(o, start, ClickedLabels(rows[..r], clicked))
      {
        ghost var done := ClickedLabels(rows[..r], clicked);
        var rowShown := RunRow(o, rows[r], clicked);
        RunButtonsAppend(o, start, done, ClickedInRow(rows[r], clicked));
        ClickedLabelsStep(rows, r, clicked);
        shown := shown + rowShown;
        r := r + 1;
      }
      assert rows[..r] == rows;
    }

    /** The inner loop, `for idx, label in enumerate(row)`, over one row. */
    method RunRow(o: Oracle<V>, row: seq<string>, clicked: string -> bool) returns (shown: seq<Notice<V>>)
      modifies this
      ensures (Current(), shown) == RunButtons(o, old(Current()), ClickedInRow(row, clicked))
    {
      ghost var start := Current();
      shown := [];
      var idx := 0;
      while idx < |row|
        invariant 0 <= idx <= |row|
        invariant (Current(), shown) == RunButtons(o, start, ClickedInRow(row[..idx], clicked))
      {
        var button := row[idx];
        ghost var prefix := ClickedInRow(row[..idx], clicked);
        ClickedInRowStep(row, idx, clicked);
        if clicked(button) {
          ghost var before, shownBefore := Current(), shown;
          var n := Press(o, button);
          RunButtonsExtend(o, start, prefix, button, before, shownBefore, Current(), n);
          shown := shown + [n];
          assert ClickedInRow(row[..idx + 1], clicked) == prefix + [button];
        } else {
          assert ClickedInRow(row[..idx + 1], clicked) == prefix;
        }
        idx := idx + 1;
      }
      assert row[..idx] == row;
    }
  }

  /** Running `a` and then `b` is running `a + b`. */
  lemma {:induction false} RunButtonsAppend<V>(o: Oracle<V>, s: State, a: seq<string>, b: seq<string>)
    ensures RunButtons(o, s, a + b) ==
      (RunButtons(o, RunButtons(o, s, a).0, b).0,
       RunButtons(o, s, a).1 + RunButtons(o, RunButtons(o, s, a).0, b).1)
  {
    if b == [] {
      var mid := RunButtons(o, s, a);
      assert a + b == a;
      assert RunButtons(o, mid.0, b) == (mid.0, []);
      assert mid.1 + [] == mid.1;
    } else {
      var b', last := b[..|b| - 1], b[|b| - 1];
      RunButtonsAppend(o, s, a, b');
      RunButtonsAppendStep(o, s, a, b', last);
      assert b' + [last] == b;
    }
  }

  /** The inductive step of `RunButtonsAppend`: one more button after `a + b`. */
  lemma RunButtonsAppendStep<V>(o: Oracle<V>, s: State, a: seq<string>, b: seq<string>, last: string)
    requires RunButtons(o, s, a + b) ==
      (RunButtons(o, RunButtons(o, s, a).0, b).0,
       RunButtons(o, s, a).1 + RunButtons(o, RunButtons(o, s, a).0, b).1)
    ensures RunButtons(o, s, a + (b + [last])) ==
      (RunButtons(o, RunButtons(o, s, a).0, b + [last]).0,
       RunButtons(o, s, a).1 + RunButtons(o, RunButtons(o, s, a).0, b + [last]).1)
  {
    var mid := RunButtons(o, s, a);
    var inner := RunButtons(o, mid.0, b);
    var p := PressStep(o, inner.0, last);
    assert a + (b + [last]) == (a + b) + [last];
    RunButtonsStep(o, s, a + b, last);
    RunButtonsStep(o, mid.0, b, last);
    assert (mid.1 + inner.1) + [p.1] == mid.1 + (inner.1 + [p.1]);
  }

  /** `RunButtonsStep` stated over the states before and after the press. */
  lemma RunButtonsExtend<V>(o: Oracle<V>, s: State, buttons: seq<string>, b: string,
                            before: State, shownBefore: seq<Notice<V>>, after: State, n: Notice<V>)
    requires (before, shownBefore) == RunButtons(o, s, buttons)
    requires (after, n) == PressStep(o, before, b)
    ensures (after, shownBefore + [n]) == RunButtons(o, s, buttons + [b])
  {
    RunButtonsStep(o, s, buttons, b);
  }

  /** Running one more button extends the run by that button's press. */
  lemma RunButtonsStep<V>(o: Oracle<V>, s: State, buttons: seq<string>, b: string)
    ensures RunButtons(o, s, buttons + [b]) ==
      (PressStep(o, RunButtons(o, s, buttons).0, b).0,
       RunButtons(o, s, buttons).1 + [PressStep(o, RunButtons(o, s, buttons).0, b).1])
  {
  }

  /** The loop over a row reaches one more label. */
  lemma ClickedInRowStep(row: seq<string>, idx: nat, clicked: string -> bool)
    requires idx < |row|
    ensures ClickedInRow(row[..idx + 1], clicked) ==
      ClickedInRow(row[..idx], clicked) + (if clicked(row[idx]) then [row[idx]] else [])
  {
    assert row[..idx + 1][..idx] == row[..idx];
  }

  /** The loop over the grid reaches one more row. */
  lemma ClickedLabelsStep(rows: seq<seq<string>>, r: nat, clicked: string -> bool)
    requires r < |rows|
    ensures ClickedLabels(rows[..r + 1], clicked) ==
      ClickedLabels(rows[..r], clicked) + ClickedInRow(rows[r], clicked)
  {
    assert rows[..r + 1][..r] == rows[..r];
  }

  /**
   * An empty expression is refused before anything is evaluated: the outcome
   * is the same whatever the interpreter would have done, and nothing changes.
   */
  lemma CalculateEmptyNeverEvaluates<V>(o1: Oracle<V>, o2: Oracle<V>, history: seq<string>)
    ensures CalculateStep(o1, State("", history)) == CalculateStep(o2, State("", history))
    ensures CalculateStep(o1, State("", history)) == (State("", history), PleaseEnterExpression)
  {
  }

  /**
   * `calculate_expression` keeps the expression, appends exactly one entry,
   * `expression = result`, when and only when both the evaluation and the
   * formatting of its result succeed, and leaves earlier entries untouched;
   * an exception raised by either is reported with the message of its kind
   * and changes nothing.
   */
  lemma CalculateHistory<V>(o: Oracle<V>, s: State)
    ensures var (s', shown) := CalculateStep(o, s);
      var out := EvalExpression(o, s.expression, None);
      && s'.expression == s.expression
      && (shown.ResultShown? <==> s.expression != "" && out.Returned? && o.str(out.value).Returned?)
      && (shown.ResultShown? ==>
            && |s'.history| == |s.history| + 1
            && s'.history[..|s.history|] == s.history
            && s'.history[|s.history|] == HistoryEntry(s.expression, shown.result)
            && shown.result == o.str(out.value).value)
      && (!shown.ResultShown? ==> s'.history == s.history)
      && (shown.ErrorShown? <==> s.expression != "" && (out.Raised? || o.str(out.value).Raised?))
      && (shown.ErrorShown? && out.Raised? ==> shown.message == Classify(out.exception))
      && (shown.ErrorShown? && out.Returned? ==> shown.message == Classify(o.str(out.value).exception))
  {
  }

  /**
   * What one press changes: an appending button extends the expression and
   * keeps the history, `clear` empties the expression, `plot` changes nothing,
   * `=` keeps the expression; the history only ever grows by at most one entry.
   */
  lemma PressStepChanges<V>(o: Oracle<V>, s: State, button: string)
    ensures var s' := PressStep(o, s, button).0;
      && (Dispatch(button).Append? ==> s' == State(s.expression + Dispatch(button).text, s.history))
      && (Dispatch(button) == Clear ==> s' == State("", s.history))
      && (Dispatch(button) == Plot ==> s' == s)
      && (Dispatch(button) == Calculate ==> s'.expression == s.expression)
      && |s.history| <= |s'.history| <= |s.history| + 1
      && s'.history[..|s.history|] == s.history
  {
  }

  /** Pressing `clear` a second time has no further effect. */
  lemma ClearIsIdempotent<V>(o: Oracle<V>, s: State)
    ensures var once := PressStep(o, s, "clear").0;
      PressStep(o, once, "clear").0 == once && once.expression == "" && once.history == s.history
  {
  }

  /**
   * Over any sequence of presses the history is append-only: the old entries
   * remain its prefix and it grows by at most one entry per press.
   */
  lemma {:induction false} HistoryAppendOnly<V>(o: Oracle<V>, s: State, buttons: seq<string>)
    ensures var (s', shown) := RunButtons(o, s, buttons);
      && |shown| == |buttons|
      && |s.history| <= |s'.history| <= |s.history| + |buttons|
      && s'.history[..|s.history|] == s.history
  {
    if buttons != [] {
      var init := buttons[..|buttons| - 1];
      HistoryAppendOnly(o, s, init);
      PressStepChanges(o, RunButtons(o, s, init).0, buttons[|buttons| - 1]);
    }
  }

  /**
   * Keypad buttons never add a Unicode minus sign, so an expression typed
   * only on the keypad stays a fixed point of the sanitizer.
   */
  lemma {:induction false} KeypadKeepsExpressionSanitized<V>(o: Oracle<V>, s: State, buttons: seq<string>)
    requires IsSanitized(s.expression)
    requires forall i :: 0 <= i < |buttons| ==> OnKeypad(buttons[i])
    ensures IsSanitized(RunButtons(o, s, buttons).0.expression)
  {
    if buttons != [] {
      var init := buttons[..|buttons| - 1];
      var last := buttons[|buttons| - 1];
      KeypadKeepsExpressionSanitized(o, s, init);
      KeypadTextIsSanitized(last);
      PressStepChanges(o, RunButtons(o, s, init).0, last);
    }
  }

  /** Every label the grid loop dispatches is a label of the grid it walks. */
  lemma {:induction false} ClickedLabelsAreOnGrid(rows: seq<seq<string>>, clicked: string -> bool, i: nat)
    requires i < |ClickedLabels(rows, clicked)|
    ensures exists r, c :: 0 <= r < |rows| && 0 <= c < |rows[r]| && rows[r][c] == ClickedLabels(rows, clicked)[i]
    ensures clicked(ClickedLabels(rows, clicked)[i])
  {
    var init := rows[..|rows| - 1];
    var row := rows[|rows| - 1];
    if i < |ClickedLabels(init, clicked)| {
      ClickedLabelsAreOnGrid(init, clicked, i);
      var r, c :| 0 <= r < |init| && 0 <= c < |init[r]| && init[r][c] == ClickedLabels(init, clicked)[i];
      assert rows[r][c] == ClickedLabels(rows, clicked)[i];
    } else {
      var c := ClickedInRowIndex(row, clicked, i - |ClickedLabels(init, clicked)|);
      assert rows[|rows| - 1][c] == ClickedLabels(rows, clicked)[i];
    }
  }

  /** The `if btn:` filter keeps, in order, only labels of the row whose button reports a click. */
  lemma {:induction false} ClickedInRowIsFilter(row: seq<string>, clicked: string -> bool)
    ensures |ClickedInRow(row, clicked)| <= |row|
    ensures forall i :: 0 <= i < |ClickedInRow(row, clicked)| ==>
      ClickedInRow(row, clicked)[i] in row && clicked(ClickedInRow(row, clicked)[i])
  {
    if row != [] {
      var init := row[..|row| - 1];
      ClickedInRowIsFilter(init, clicked);
      forall i | 0 <= i < |ClickedInRow(init, clicked)|
        ensures ClickedInRow(init, clicked)[i] in row
      {
        var c :| 0 <= c < |init| && init[c] == ClickedInRow(init, clicked)[i];
        assert row[c] == init[c];
      }
    }
  }

  /** Where in its row a clicked label sits. */
  lemma {:induction false} ClickedInRowIndex(row: seq<string>, clicked: string -> bool, i: nat) returns (c: nat)
    requires i < |ClickedInRow(row, clicked)|
    ensures c < |row| && row[c] == ClickedInRow(row, clicked)[i]
    ensures clicked(ClickedInRow(row, clicked)[i])
  {
    var init := row[..|row| - 1];
    if i < |ClickedInRow(init, clicked)| {
      c := ClickedInRowIndex(init, clicked, i);
    } else {
      c := |row| - 1;
    }
  }

  /**
   * After any script run of the keypad that starts from a sanitized
   * expression (the empty one of a fresh session included), the expression
   * is still sanitized, so the text `=` evaluates is exactly the text it
   * records in the history.
   */
  lemma KeypadRunEvaluatesRecordedText<V>(o: Oracle<V>, s: State, clicked: string -> bool)
    requires IsSanitized(s.expression)
    ensures var s' := RunButtons(o, s, ClickedLabels(ButtonLabels, clicked)).0;
      IsSanitized(s'.expression) && EvalExpression(o, s'.expression, None) == o.eval(s'.expression, LocalNamespace(None))
  {
    var buttons := ClickedLabels(ButtonLabels, clicked);
    forall i | 0 <= i < |buttons|
      ensures OnKeypad(buttons[i])
    {
      ClickedLabelsAreOnGrid(ButtonLabels, clicked, i);
    }
    KeypadKeepsExpressionSanitized(o, s, buttons);
    SanitizeFixedPoint(RunButtons(o, s, buttons).0.expression);
  }

  /**
   * After one more entry is recorded the history view shows it first,
   * followed by what it showed before, cut back to ten entries.
   */
  lemma RecentHistoryAfterAppend(history: seq<string>, entry: string)
    ensures RecentHistory(history + [entry]) ==
      [entry] + RecentHistory(history)[..if |history| < 10 then |history| else 9]
  {
  }
}
