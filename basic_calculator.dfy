/**
 * The basic calculator: a display, the expression behind it, a history of
 * evaluations and a flag for "a result was just shown", changed by the
 * digit, operator, equals, clear and backspace keys.
 *
 * The expression evaluator is a foreign library; the model takes it as a
 * parameter `eval` that yields the formatted result text, or `None` when
 * it throws or returns something that is not a finite number.
 */
module BasicCalculator {
  import opened Wrappers
  import opened Strings

  predicate IsOperator(c: char) { c == '+' || c == '-' || c == '*' || c == '/' }

  /** The keys that append to the display: digits, '.' and '%'. */
  predicate IsInputKey(c: char) { IsDigit(c) || c == '.' || c == '%' }

  /** How an operator is shown on the display. */
  function ShownOperator(op: char): char {
    if op == '*' then '\U{00D7}' else if op == '/' then '\U{00F7}' else op
  }

  /** `s.slice(0, -k)`: drops the last `k` characters, or everything if there are fewer. */
  function DropLast(s: string, k: nat): (r: string)
    ensures |r| == if |s| >= k then |s| - k else 0
    ensures r == s[..|r|]
  {
    if |s| >= k then s[..|s| - k] else []
  }

  /** The expression ends with an operator (`expression.slice(-1)` is one). */
  predicate EndsWithOperator(e: string) { e != [] && IsOperator(e[|e| - 1]) }

  /** No two operators in a row at the end. */
  predicate NoDoubleOperator(e: string) {
    !(|e| >= 2 && IsOperator(e[|e| - 1]) && IsOperator(e[|e| - 2]))
  }

  // ---------------------------------------------------------------------
  // preparing the expression for evaluation

  /** The expression without its trailing operators. */
  function StripOperators(e: string): (r: string)
    ensures |r| <= |e| && r == e[..|r|] && !EndsWithOperator(r)
    ensures forall k :: |r| <= k < |e| ==> IsOperator(e[k])
    decreases |e|
  {
    if EndsWithOperator(e) then StripOperators(e[..|e| - 1]) else e
  }

  /** The loop that strips trailing operators one at a time. */
  method StripTrailingOperators(e: string) returns (r: string)
    ensures r == StripOperators(e)
  {
    r := e;
    while EndsWithOperator(r)
      invariant r == e[..|r|]
      invariant StripOperators(r) == StripOperators(e)
      decreases |r|
    {
      r := r[..|r| - 1];
    }
  }

  /** Characters the evaluator may see: digits, the four operators, '.', '%' and parentheses. */
  predicate IsEvalChar(c: char) {
    IsDigit(c) || IsOperator(c) || c == '.' || c == '%' || c == '(' || c == ')'
  }

  /** Deletes every character the evaluator may not see. */
  function KeepEvalChars(s: string): (r: string)
    ensures |r| <= |s|
    ensures forall i :: 0 <= i < |r| ==> IsEvalChar(r[i]) && r[i] in s
    ensures forall i :: 0 <= i < |s| && IsEvalChar(s[i]) ==> s[i] in r
    ensures (forall i :: 0 <= i < |s| ==> IsEvalChar(s[i])) ==> r == s
    decreases |s|
  {
    if s == [] then []
    else if IsEvalChar(s[0]) then [s[0]] + KeepEvalChars(s[1..])
    else KeepEvalChars(s[1..])
  }

  /**
   * The deletion works character by character: the kept text of two pieces
   * is the two kept texts, in order. With the one-character cases the
   * function's contract fixes, every allowed character is kept once per
   * occurrence and in order.
   */
  lemma {:induction false} KeepEvalCharsAppend(a: string, b: string)
    ensures KeepEvalChars(a + b) == KeepEvalChars(a) + KeepEvalChars(b)
    decreases |a|
  {
    if a == [] {
      assert a + b == b;
    } else {
      assert (a + b)[0] == a[0];
      assert (a + b)[1..] == a[1..] + b;
      KeepEvalCharsAppend(a[1..], b);
    }
  }

  /** The end of the run of digits that starts at `i`. */
  function DigitRunEnd(s: string, i: nat): (j: nat)
    requires i <= |s|
    ensures i <= j <= |s| && (j == |s| || !IsDigit(s[j]))
    ensures forall k :: i <= k < j ==> IsDigit(s[k])
    decreases |s| - i
  {
    if i < |s| && IsDigit(s[i]) then DigitRunEnd(s, i + 1) else i
  }

  /**
   * Where a match of "digits, optionally '.' and digits, then '%'" that
   * starts at `i` ends (just past the '%'), with the greedy runs the
   * pattern takes; `None` when no match starts at `i`.
   */
  function PercentMatchEnd(s: string, i: nat): (r: Option<nat>)
    requires i < |s|
    ensures r.Some? ==> i + 1 < r.value <= |s| && s[r.value - 1] == '%' && IsDigit(s[i])
    ensures r.Some? ==> IsDigit(s[r.value - 2])
    ensures r.Some? ==> forall k :: i <= k < r.value - 1 ==> s[k] != '%'
    ensures IsDigit(s[i]) && i + 1 < |s| && s[i + 1] == '%' ==> r == Some(i + 2)
  {
    if !IsDigit(s[i]) then None
    else
      var j := DigitRunEnd(s, i);
      if j < |s| && s[j] == '%' then Some(j + 1)
      else if j + 1 < |s| && s[j] == '.' && IsDigit(s[j + 1]) then
        var k := DigitRunEnd(s, j + 1);
        if k < |s| && s[k] == '%' then Some(k + 1) else None
      else None
  }

  /** Rewrites every `N%` (scanning left to right) as `(N/100)`. */
  function RewritePercentFrom(s: string, i: nat): string
    requires i <= |s|
    decreases |s| - i
  {
    if i == |s| then []
    else match PercentMatchEnd(s, i)
      case Some(e) => "(" + s[i..e - 1] + "/100)" + RewritePercentFrom(s, e)
      case None => [s[i]] + RewritePercentFrom(s, i + 1)
  }

  function RewritePercent(s: string): string {
    RewritePercentFrom(s, 0)
  }

  /** Without a '%' nothing is rewritten. */
  lemma {:induction false} NoPercentUnchanged(s: string, i: nat)
    requires i <= |s| && '%' !in s
    ensures RewritePercentFrom(s, i) == s[i..]
    decreases |s| - i
  {
    if i < |s| {
      assert PercentMatchEnd(s, i).None?;
      NoPercentUnchanged(s, i + 1);
      assert s[i..] == [s[i]] + s[i + 1..];
    }
  }

  /** No digit directly followed by '%': the percent pattern matches nowhere. */
  predicate NoPercentMatch(t: string) {
    forall k :: 0 <= k < |t| - 1 && IsDigit(t[k]) ==> t[k + 1] != '%'
  }

  /** Two pieces without a match join without one unless a digit meets a '%'. */
  lemma NoPercentMatchJoin(a: string, b: string)
    requires NoPercentMatch(a) && NoPercentMatch(b)
    requires a == [] || b == [] || !IsDigit(a[|a| - 1]) || b[0] != '%'
    ensures NoPercentMatch(a + b)
  {
    forall k | 0 <= k < |a + b| - 1 && IsDigit((a + b)[k])
      ensures (a + b)[k + 1] != '%'
    {
      if k + 1 == |a| {
        assert (a + b)[k] == a[|a| - 1] && (a + b)[k + 1] == b[0];
      }
    }
  }

  /** A rewritten match `(N/100)` holds no '%' when `N` holds none. */
  lemma RewrittenMatchNoMatch(n: string)
    requires forall k :: 0 <= k < |n| ==> n[k] != '%'
    ensures NoPercentMatch("(" + n + "/100)")
  {
    var piece := "(" + n + "/100)";
    forall k | 0 <= k < |piece| ensures piece[k] != '%' {
      if 1 <= k <= |n| {
        assert piece[k] == n[k - 1];
      }
    }
  }

  /** The rewrite starts with the first character scanned or with the '(' of a rewritten match. */
  lemma RewriteStart(s: string, i: nat)
    requires i < |s|
    ensures |RewritePercentFrom(s, i)| > 0
    ensures RewritePercentFrom(s, i)[0] == s[i] || RewritePercentFrom(s, i)[0] == '('
  {
  }

  /** Every match is rewritten: the result holds no digit directly followed by '%'. */
  lemma {:induction false} RewriteLeavesNoMatch(s: string, i: nat)
    requires i <= |s|
    ensures NoPercentMatch(RewritePercentFrom(s, i))
    decreases |s| - i
  {
    if i < |s| {
      match PercentMatchEnd(s, i)
      case Some(e) =>
        RewriteLeavesNoMatch(s, e);
        RewrittenMatchNoMatch(s[i..e - 1]);
        NoPercentMatchJoin("(" + s[i..e - 1] + "/100)", RewritePercentFrom(s, e));
      case None =>
        RewriteLeavesNoMatch(s, i + 1);
        if i + 1 < |s| {
          RewriteStart(s, i + 1);
        }
        NoPercentMatchJoin([s[i]], RewritePercentFrom(s, i + 1));
    }
  }

  /** Text in which the pattern matches nowhere is left as it is. */
  lemma {:induction false} NoMatchUnchanged(s: string, i: nat)
    requires i <= |s| && NoPercentMatch(s)
    ensures RewritePercentFrom(s, i) == s[i..]
    decreases |s| - i
  {
    if i < |s| {
      assert PercentMatchEnd(s, i).None?;
      NoMatchUnchanged(s, i + 1);
      assert s[i..] == [s[i]] + s[i + 1..];
    }
  }

  /** Rewriting twice is rewriting once. */
  lemma RewritePercentIdempotent(s: string)
    ensures RewritePercent(RewritePercent(s)) == RewritePercent(s)
  {
    RewriteLeavesNoMatch(s, 0);
    var r := RewritePercent(s);
    NoMatchUnchanged(r, 0);
    assert r[0..] == r;
  }

  /** Percentages: `50%` becomes `(50/100)` and `2*1.5%` becomes `2*(1.5/100)`. */
  lemma PercentExamples()
    ensures RewritePercent("50%") == "(50/100)"
    ensures RewritePercent("2*1.5%") == "2*(1.5/100)"
  {
    PercentWhole();
    PercentAfterProduct();
  }

  lemma PercentWhole()
    ensures RewritePercent("50%") == "(50/100)"
  {
    assert DigitRunEnd("50%", 0) == 2;
  }

  lemma PercentAfterProduct()
    ensures RewritePercent("2*1.5%") == "2*(1.5/100)"
  {
    assert DigitRunEnd("2*1.5%", 0) == 1;
    assert DigitRunEnd("2*1.5%", 2) == 3;
    assert DigitRunEnd("2*1.5%", 4) == 5;
    assert RewritePercentFrom("2*1.5%", 0) == "2" + RewritePercentFrom("2*1.5%", 1);
  }

  // ---------------------------------------------------------------------
  // history

  /** One history line: what the display showed and the result. */
  datatype HistoryEntry = HistoryEntry(expr: string, result: string)

  const HistoryLimit: nat := 10

  /** A new entry goes first and the list keeps at most ten entries. */
  function PushHistory(h: seq<HistoryEntry>, e: HistoryEntry): (r: seq<HistoryEntry>)
    ensures |r| == if |h| + 1 <= HistoryLimit then |h| + 1 else HistoryLimit
    ensures r[0] == e
    ensures forall i :: 1 <= i < |r| ==> r[i] == h[i - 1]
  {
    var all := [e] + h;
    if |all| <= HistoryLimit then all else all[..HistoryLimit]
  }

  // ---------------------------------------------------------------------
  // the calculator

  class Calculator {
    var display: string
    var expression: string
    var history: seq<HistoryEntry>
    var justEvaluated: bool

    predicate Valid()
      reads this
    {
      |history| <= HistoryLimit
    }

    constructor()
      ensures display == "0" && expression == "" && history == [] && !justEvaluated
      ensures Valid()
    {
      display := "0";
      expression := "";
      history := [];
      justEvaluated := false;
    }

    /** `clear`: back to "0" with an empty expression; history is kept. */
    method Clear()
      modifies this
      ensures display == "0" && expression == "" && !justEvaluated
      ensures history == old(history)
    {
      display := "0";
      expression := "";
      justEvaluated := false;
    }

    /**
     * `appendToDisplay`: after "Error", or a digit or '.' right after a
     * result, the key starts afresh; a display of "0" is replaced by any key
     * except '.'; otherwise the key is appended to both.
     */
    method AppendToDisplay(key: char)
      requires IsInputKey(key)
      modifies this
      ensures var restart := old(display) == "Error" || (old(justEvaluated) && (IsDigit(key) || key == '.'));
        && (restart || (old(display) == "0" && key != '.') ==> display == [key] && expression == [key])
        && (!restart && !(old(display) == "0" && key != '.') ==>
              display == old(display) + [key] && expression == old(expression) + [key])
      ensures !justEvaluated && history == old(history)
      ensures !EndsWithOperator(expression)
    {
      if display == "Error" || (justEvaluated && (IsDigit(key) || key == '.')) {
        display := [key];
        expression := [key];
        justEvaluated := false;
        return;
      }
      justEvaluated := false;
      if display == "0" && key != '.' {
        display := [key];
        expression := [key];
      } else {
        display := display + [key];
        expression := expression + [key];
      }
    }

    /**
     * `appendOperator`: after "Error" the expression restarts from "0";
     * a trailing operator is replaced rather than followed by a second one.
     */
    method AppendOperator(op: char)
      requires IsOperator(op)
      modifies this
      ensures var shown := [' ', ShownOperator(op), ' '];
        && (old(display) == "Error" ==> display == "0" + shown && expression == "0" + [op])
        && (old(display) != "Error" && EndsWithOperator(old(expression)) ==>
              display == DropLast(old(display), 3) + shown
              && expression == DropLast(old(expression), 1) + [op])
        && (old(display) != "Error" && !EndsWithOperator(old(expression)) ==>
              display == old(display) + shown && expression == old(expression) + [op])
      ensures !justEvaluated && history == old(history)
      ensures EndsWithOperator(expression)
      ensures NoDoubleOperator(old(expression)) ==> NoDoubleOperator(expression)
    {
      justEvaluated := false;
      var shown := [' ', ShownOperator(op), ' '];
      if display == "Error" {
        display := "0" + shown;
        expression := "0" + [op];
        return;
      }
      if EndsWithOperator(expression) {
        display := DropLast(display, 3) + shown;
        expression := DropLast(expression, 1) + [op];
        return;
      }
      display := display + shown;
      expression := expression + [op];
    }

    /**
     * `calculate`: nothing happens on "Error", on an empty expression, or
     * when stripping trailing operators or foreign characters leaves
     * nothing. Otherwise the percent-rewritten text is evaluated: a failure
     * shows "Error" and empties the expression; a result replaces both,
     * sets the flag and goes first into the history.
     */
    method Calculate(eval: string -> Option<string>)
      requires Valid()
      modifies this
      ensures Valid()
      ensures var stripped := StripOperators(old(expression));
        var sanitized := KeepEvalChars(stripped);
        if old(display) == "Error" || old(expression) == [] || stripped == [] || sanitized == [] then
          display == old(display) && expression == old(expression)
          && history == old(history) && justEvaluated == old(justEvaluated)
        else
          match eval(RewritePercent(sanitized))
          case None =>
            display == "Error" && expression == []
            && history == old(history) && justEvaluated == old(justEvaluated)
          case Some(result) =>
            display == result && expression == result && justEvaluated
            && history == PushHistory(old(history), HistoryEntry(old(display), result))
    {
      if display == "Error" || expression == [] {
        return;
      }
      var exprToEval := StripTrailingOperators(expression);
      if exprToEval == [] {
        return;
      }
      var sanitized := KeepEvalChars(exprToEval);
      if sanitized == [] {
        return;
      }
      var withPercent := RewritePercent(sanitized);
      var result := eval(withPercent);
      if result.None? {
        display := "Error";
        expression := "";
        return;
      }
      var formatted := result.value;
      history := PushHistory(history, HistoryEntry(display, formatted));
      display := formatted;
      expression := formatted;
      justEvaluated := true;
    }

    /**
     * `backspace`: a display of at most one character, or "Error", clears;
     * otherwise the display loses its last non-blank character and the
     * expression its last character, each falling back to "0" when empty.
     */
    method Backspace()
      modifies this
      ensures |old(display)| <= 1 || old(display) == "Error" ==>
        display == "0" && expression == "" && !justEvaluated
      ensures !(|old(display)| <= 1 || old(display) == "Error") ==>
        && (var shorter := TrimEnd(DropLast(TrimEnd(old(display)), 1));
            display == (if shorter == [] then "0" else shorter))
        && (var cut := DropLast(old(expression), 1);
            expression == (if cut == [] then "0" else cut))
        && justEvaluated == old(justEvaluated)
      ensures history == old(history)
      ensures display != []
    {
      if |display| <= 1 || display == "Error" {
        Clear();
      } else {
        var trimmed := TrimEnd(display);
        var newVal := TrimEnd(DropLast(trimmed, 1));
        display := if newVal == [] then "0" else newVal;
        var cut := DropLast(expression, 1);
        expression := if cut == [] then "0" else cut;
      }
    }
  }
}
