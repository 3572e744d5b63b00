/**
 The lines a run prints after its prompts: the error or result line, the
 "Result as integer" line, and the closing prompt. Prompts, the menu and
 the banner are left out. Each `Console.WriteLine` is one `Line`; its text,
 given by `Render`, may start with "\n", printing an empty line first.
 */
module Transcript {
  import opened Wrappers
  import opened Int32Math
  import opened Convert
  import opened Calculator
  import Text

  /** The kinds of line a run prints. */
  datatype Line =
    | NumberMissing
    | OperationMissing
    | FormatError
    | OverflowError
    | DivideByZeroError
    | InvalidOperationError
    | ResultLine(op: Op, a: Int32, b: Int32, r: Int32)
      /** `(double)a / b` printed with two decimals (`F2`); its digits are not modelled. */
    | QuotientLine(a: Int32, b: Int32)
    | IntegerLine(v: int)
    | ExitPrompt

  /**
   The text of a line, with numbers written as under the invariant culture.
   An integer result is printed via `double`, whose default formatting of an
   integral value in the int range is the plain decimal of the int.
   A result line and an integer line end with the decimal of their value.
   */
  function Render(line: Line): (t: string)
    requires !line.QuotientLine?
    ensures line.ResultLine? ==> |Show(line.r)| < |t| && t[|t| - |Show(line.r)|..] == Show(line.r)
    ensures line.IntegerLine? ==> |Show(line.v)| < |t| && t[|t| - |Show(line.v)|..] == Show(line.v)
  {
    match line
    case NumberMissing => "Error: Please enter a valid number!"
    case OperationMissing => "Error: Please enter a valid operation!"
    case FormatError => "\nError: Please enter valid numbers only!"
    case OverflowError => "\nError: Number is too large or too small!"
    case DivideByZeroError => "\nError: Cannot divide by zero!"
    case InvalidOperationError => "\nError: Invalid operation! Please use +, -, *, or /"
    case ResultLine(op, a, b, r) =>
      var prefix := "\nResult: " + Show(a) + " " + Symbol(op) + " " + Show(b) + " = ";
      assert (prefix + Show(r))[|prefix + Show(r)| - |Show(r)|..] == Show(r);
      prefix + Show(r)
    case IntegerLine(v) =>
      var prefix := "Result as integer: ";
      assert (prefix + Show(v))[|prefix + Show(v)| - |Show(v)|..] == Show(v);
      prefix + Show(v)
    case ExitPrompt => "\nPress any key to exit..."
  }

  /** The result at the end of a result line reads back as that result. */
  lemma ResultReadsBack(op: Op, a: Int32, b: Int32, r: Int32)
    ensures var t := Render(ResultLine(op, a, b, r));
      ToInt32(t[|t| - |Show(r)|..]) == Value(r)
  {
    var t := Render(ResultLine(op, a, b, r));
    assert t[|t| - |Show(r)|..] == Show(r);
    ParseShow(r);
  }

  /** The value at the end of an integer line reads back as that value. */
  lemma IntegerReadsBack(v: Int32)
    ensures var t := Render(IntegerLine(v));
      ToInt32(t[|t| - |Show(v)|..]) == Value(v)
  {
    var t := Render(IntegerLine(v));
    assert t[|t| - |Show(v)|..] == Show(v);
    ParseShow(v);
  }

  /** The one line that reports an outcome. */
  function Report(o: Outcome): (line: Line)
    ensures line != ExitPrompt && !line.IntegerLine?
  {
    match o
    case MissingInput(step) => if step == Operation then OperationMissing else NumberMissing
    case NotANumber => FormatError
    case Overflow => OverflowError
    case DivisionByZero => DivideByZeroError
    case InvalidOperator => InvalidOperationError
    case Arith(op, a, b, r) => ResultLine(op, a, b, r)
    case Quotient(a, b) => QuotientLine(a, b)
  }

  /** Everything a run prints after its last prompt, in order. */
  function Output(run: Run): (lines: seq<Line>)
    ensures |lines| >= 1 && lines[0] == Report(run.outcome)
    ensures run.reachesExitPrompt <==> lines[|lines| - 1] == ExitPrompt
    ensures forall v :: IntegerLine(v) in lines <==> run.integerLine == Some(v)
  {
    [Report(run.outcome)]
      + (if run.integerLine.Some? then [IntegerLine(run.integerLine.value)] else [])
      + (if run.reachesExitPrompt then [ExitPrompt] else [])
  }

  /** The six error lines render to pairwise different texts. */
  lemma ErrorTextsDistinct(l1: Line, l2: Line)
    requires l1.NumberMissing? || l1.OperationMissing? || l1.FormatError? || l1.OverflowError?
      || l1.DivideByZeroError? || l1.InvalidOperationError?
    requires l2.NumberMissing? || l2.OperationMissing? || l2.FormatError? || l2.OverflowError?
      || l2.DivideByZeroError? || l2.InvalidOperationError?
    ensures Render(l1) == Render(l2) <==> l1 == l2
  {
  }

  /**
   The printout of any run shaped like a session's: only the report when
   input was missing; the result line, the integer line and the closing
   prompt for `+`, `-`, `*`; the report and then the closing prompt for
   every other outcome.
   */
  lemma OutputShape(run: Run)
    requires run.reachesExitPrompt <==> !run.outcome.MissingInput?
    requires run.integerLine.Some? <==> run.outcome.Arith?
    requires run.outcome.Arith? ==> run.integerLine == Some(run.outcome.r)
    ensures var lines := Output(run);
      && (run.outcome.MissingInput? <==> lines == [Report(run.outcome)])
      && (run.outcome.Arith? ==> lines == [ResultLine(run.outcome.op, run.outcome.a, run.outcome.b, run.outcome.r),
                                            IntegerLine(run.outcome.r), ExitPrompt])
      && (!run.outcome.Arith? ==> forall v :: IntegerLine(v) !in lines)
      && (!run.outcome.MissingInput? && !run.outcome.Arith? ==> lines == [Report(run.outcome), ExitPrompt])
  {
    var lines := Output(run);
    if !run.outcome.MissingInput? {
      assert lines != [Report(run.outcome)] by {
        assert lines[|lines| - 1] == ExitPrompt;
      }
    }
  }

  /** A session's printout has that shape. */
  lemma SessionOutput(line1: Option<string>, line2: Option<string>, line3: Option<string>)
    ensures var run := Session(line1, line2, line3);
      var lines := Output(run);
      && (run.outcome.MissingInput? <==> lines == [Report(run.outcome)])
      && (run.outcome.Arith? ==> lines == [ResultLine(run.outcome.op, run.outcome.a, run.outcome.b, run.outcome.r),
                                            IntegerLine(run.outcome.r), ExitPrompt])
      && (!run.outcome.Arith? ==> forall v :: IntegerLine(v) !in lines)
      && (!run.outcome.MissingInput? && !run.outcome.Arith? ==> lines == [Report(run.outcome), ExitPrompt])
  {
    OutputShape(Session(line1, line2, line3));
  }

  /** Inputs 6, 3, + print the sum and the same sum as an integer. */
  lemma AdditionScenario()
    ensures Output(Session(Some("6"), Some("3"), Some("+"))) == [ResultLine(Add, 6, 3, 9), IntegerLine(9), ExitPrompt]
  {
    OperandExamples();
    SymbolNotBlank(Add);
    SessionCalculates(Some("6"), Some("3"), Some("+"), 6, 3);
    ArithmeticRun(6, 3, Add);
    assert Wrap(Exact(Add, 6, 3)) == 9;
    assert Session(Some("6"), Some("3"), Some("+")) == Run(Arith(Add, 6, 3, 9), Some(9), 3, true);
  }

  /** The text of the addition scenario's two result lines. */
  lemma AdditionText()
    ensures Render(ResultLine(Add, 6, 3, 9)) == "\nResult: 6 + 3 = 9"
    ensures Render(IntegerLine(9)) == "Result as integer: 9"
  {
    assert Show(6) == "6" && Show(3) == "3" && Show(9) == "9";
  }

  /** Inputs 6, 3, / print a quotient and no integer line. */
  lemma DivisionScenario()
    ensures Output(Session(Some("6"), Some("3"), Some("/"))) == [QuotientLine(6, 3), ExitPrompt]
  {
    OperandExamples();
    SymbolNotBlank(Div);
    SessionCalculates(Some("6"), Some("3"), Some("/"), 6, 3);
    DivisionRun(6, 3);
    assert Session(Some("6"), Some("3"), Some("/")) == Run(Quotient(6, 3), None, 3, true);
  }

  /** Inputs 6, 0, / print the division error and no integer line. */
  lemma DivisionByZeroScenario()
    ensures Output(Session(Some("6"), Some("0"), Some("/"))) == [DivideByZeroError, ExitPrompt]
  {
    OperandExamples();
    SymbolNotBlank(Div);
    SessionCalculates(Some("6"), Some("0"), Some("/"), 6, 0);
    DivisionRun(6, 0);
    assert Session(Some("6"), Some("0"), Some("/")) == Run(DivisionByZero, None, 3, true);
  }

  /** An empty first line prints only the missing-number error: no further prompt, no closing prompt. */
  lemma EmptyFirstLineScenario(line2: Option<string>, line3: Option<string>)
    ensures Output(Session(Some(""), line2, line3)) == [NumberMissing]
  {
  }

  /**
   A first line with a visible character that cannot belong to an integer
   prints the format error and then the closing prompt.
   */
  lemma NonNumericFirstLine(s: string, i: nat, j: nat, line2: Option<string>, line3: Option<string>)
    requires i < |s| && !Text.IsWhiteSpace(s[i])
    requires j < |s| && !IsNumberChar(s[j])
    ensures Output(Session(Some(s), line2, line3)) == [FormatError, ExitPrompt]
  {
    NonNumericIsBadFormat(s, j);
    FirstOperandFails(Some(s), line2, line3);
    assert Session(Some(s), line2, line3) == Run(NotANumber, None, 1, true);
  }

  /** A decimal fraction as first operand prints the format error and then the closing prompt. */
  lemma FractionScenario(line2: Option<string>, line3: Option<string>)
    ensures Output(Session(Some("3.5"), line2, line3)) == [FormatError, ExitPrompt]
  {
    NonNumericFirstLine("3.5", 0, 1, line2, line3);
  }
}
