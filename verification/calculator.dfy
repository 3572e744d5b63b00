/**
 One run of the console calculator (`Program.Main`) as a pure function of
 the three lines it may read: the first operand, the second operand and the
 operator. A line is `None` when `Console.ReadLine` returns null (input
 exhausted).
 */
module Calculator {
  import opened Wrappers
  import opened Int32Math
  import opened Text
  import opened Convert

  /** The four operations the switch recognises. */
  datatype Op = Add | Sub | Mul | Div

  /** The three input steps, in the order they are read. */
  datatype Step = FirstNumber | SecondNumber | Operation

  /** What a run reports: one error, or one result. */
  datatype Outcome =
    | MissingInput(step: Step)
    | NotANumber
    | Overflow
    | DivisionByZero
    | InvalidOperator
      /** An integer result of `+`, `-` or `*`. */
    | Arith(op: Op, a: Int32, b: Int32, r: Int32)
      /** A division result, printed as `(double)a / b` with two decimals; the value itself is not modelled. */
    | Quotient(a: Int32, b: Int32)

  /**
   Everything observable about a run: its outcome, the value on the
   "Result as integer" line if that line is printed, how many input lines
   were read, and whether the closing "Press any key to exit" line is reached.
   */
  datatype Run = Run(outcome: Outcome, integerLine: Option<int>, linesRead: nat, reachesExitPrompt: bool)

  /** The text the user types to select an operation. */
  function Symbol(op: Op): string {
    match op
    case Add => "+"
    case Sub => "-"
    case Mul => "*"
    case Div => "/"
  }

  /** The `switch` on the operator line: exact string equality, nothing trimmed. */
  function ParseOp(s: string): (r: Option<Op>)
    ensures r.Some? ==> Symbol(r.value) == s
    ensures r.None? ==> forall op: Op :: Symbol(op) != s
  {
    if s == "+" then Some(Add)
    else if s == "-" then Some(Sub)
    else if s == "*" then Some(Mul)
    else if s == "/" then Some(Div)
    else None
  }

  /** Every symbol selects its own operation. */
  lemma ParseSymbol(op: Op)
    ensures ParseOp(Symbol(op)) == Some(op)
  {
  }

  /** No operator symbol is blank, so each gets past the operator line's blank check. */
  lemma SymbolNotBlank(op: Op)
    ensures !IsNullOrWhiteSpace(Some(Symbol(op)))
  {
    assert !IsWhiteSpace(Symbol(op)[0]);
  }

  /** The mathematical value the integer operations approximate. */
  function Exact(op: Op, a: int, b: int): int
    requires op != Div
  {
    match op
    case Add => a + b
    case Sub => a - b
    case Mul => a * b
  }

  /** The state after the `switch`: the `double result`, the `validOperation` flag and what was printed. */
  datatype Switched = Switched(result: real, valid: bool, outcome: Outcome)

  /** The operator `switch` for two parsed operands. */
  function Switch(a: Int32, b: Int32, operation: string): (s: Switched)
    ensures s.outcome.Arith? || s.outcome.Quotient? || s.outcome.DivisionByZero? || s.outcome.InvalidOperator?
    ensures s.valid <==> s.outcome.Arith? || s.outcome.Quotient?
    ensures s.outcome.InvalidOperator? <==> ParseOp(operation).None?
    ensures s.outcome.DivisionByZero? <==> operation == "/" && b == 0
    ensures s.outcome.Quotient? <==> operation == "/" && b != 0
    ensures s.outcome.Quotient? ==> s.outcome == Quotient(a, b)
    ensures s.outcome.Arith? ==>
      && Symbol(s.outcome.op) == operation
      && s.outcome.op != Div
      && s.outcome.a == a && s.outcome.b == b
      && WrapsTo(Exact(s.outcome.op, a, b), s.outcome.r)
      && s.result == ToDouble(s.outcome.r)
  {
    match ParseOp(operation)
    case None => Switched(0.0, false, InvalidOperator)
    case Some(Add) =>
      var r := Add32(a, b);
      Switched(ToDouble(r), true, Arith(Add, a, b, r))
    case Some(Sub) =>
      var r := Sub32(a, b);
      Switched(ToDouble(r), true, Arith(Sub, a, b, r))
    case Some(Mul) =>
      var r := Mul32(a, b);
      Switched(ToDouble(r), true, Arith(Mul, a, b, r))
    case Some(Div) =>
      if b != 0 then
        // the exact quotient; `Main` holds the double nearest to it
        Switched(a as real / b as real, true, Quotient(a, b))
      else
        Switched(0.0, false, DivisionByZero)
  }

  /**
   The switch followed by the rule for the "Result as integer" line:
   printed when the operation was valid and the operator line is not "/",
   showing `(int)result`.
   */
  function Calculate(a: Int32, b: Int32, operation: string): (run: Run)
    ensures run.linesRead == 3 && run.reachesExitPrompt
    ensures run.outcome.Arith? || run.outcome.Quotient? || run.outcome.DivisionByZero? || run.outcome.InvalidOperator?
    ensures run.integerLine.Some? <==> run.outcome.Arith?
    ensures run.outcome.Arith? ==> run.integerLine == Some(run.outcome.r)
  {
    var s := Switch(a, b, operation);
    IntegralResult(s);
    var integerLine :=
      if s.valid && operation != "/" then Some(TruncateTowardZero(s.result)) else None;
    Run(s.outcome, integerLine, 3, true)
  }

  /** An integer result survives the trip through `double` and back. */
  lemma IntegralResult(s: Switched)
    ensures s.outcome.Arith? && s.result == ToDouble(s.outcome.r) ==> TruncateTowardZero(s.result) == s.outcome.r
  {
    if s.outcome.Arith? {
      IntegralRoundTrip(s.outcome.r);
    }
  }

  /** A parse failure, mapped by the `catch` clauses to its outcome. */
  function ParseFailure(p: Parsed): (r: Outcome)
    requires !p.Value?
    ensures r.NotANumber? <==> p.BadFormat?
    ensures r.Overflow? <==> p.OutOfRange?
  {
    if p.BadFormat? then NotANumber else Overflow
  }

  /**
   One run of `Main`. The checks happen in input order and the first one
   that fails ends the run: a blank line returns at once, before the closing
   prompt; a parse failure jumps to a `catch`, after which the closing
   prompt is still printed.
   */
  function Session(line1: Option<string>, line2: Option<string>, line3: Option<string>): (run: Run)
    ensures 1 <= run.linesRead <= 3
    ensures run.reachesExitPrompt <==> !run.outcome.MissingInput?
    ensures run.outcome.MissingInput? ==> run.linesRead == StepNumber(run.outcome.step)
    ensures run.outcome.Arith? || run.outcome.Quotient? || run.outcome.DivisionByZero? || run.outcome.InvalidOperator?
      ==> run.linesRead == 3
    ensures run.integerLine.Some? <==> run.outcome.Arith?
    ensures run.outcome.Arith? ==>
      && run.outcome.op != Div
      && WrapsTo(Exact(run.outcome.op, run.outcome.a, run.outcome.b), run.outcome.r)
      && run.integerLine == Some(run.outcome.r)
    ensures run.outcome.Quotient? ==> run.outcome.b != 0
  {
    if IsNullOrWhiteSpace(line1) then Run(MissingInput(FirstNumber), None, 1, false)
    else
      var p1 := ToInt32(line1.value);
      if !p1.Value? then Run(ParseFailure(p1), None, 1, true)
      else if IsNullOrWhiteSpace(line2) then Run(MissingInput(SecondNumber), None, 2, false)
      else
        var p2 := ToInt32(line2.value);
        if !p2.Value? then Run(ParseFailure(p2), None, 2, true)
        else if IsNullOrWhiteSpace(line3) then Run(MissingInput(Operation), None, 3, false)
        else Calculate(p1.v, p2.v, line3.value)
  }

  /** Position of a step in the input order. */
  function StepNumber(step: Step): nat {
    match step
    case FirstNumber => 1
    case SecondNumber => 2
    case Operation => 3
  }

  /** Whether a line gets past the blank check and parses to `v`. */
  predicate Reads(line: Option<string>, v: Int32) {
    !IsNullOrWhiteSpace(line) && ToInt32(line.value) == Value(v)
  }

  /** A null or blank first line ends the run before anything else is read, and nothing else does. */
  lemma BlankFirstLine(line1: Option<string>, line2: Option<string>, line3: Option<string>)
    ensures Session(line1, line2, line3).outcome == MissingInput(FirstNumber) <==> IsNullOrWhiteSpace(line1)
    ensures IsNullOrWhiteSpace(line1) ==> Session(line1, line2, line3).linesRead == 1
  {
  }

  /** The second line is reported missing exactly when the first operand parsed and the second line is blank. */
  lemma BlankSecondLine(line1: Option<string>, line2: Option<string>, line3: Option<string>)
    ensures Session(line1, line2, line3).outcome == MissingInput(SecondNumber)
      <==> !IsNullOrWhiteSpace(line1) && ToInt32(line1.value).Value? && IsNullOrWhiteSpace(line2)
  {
  }

  /** The operator line is reported missing exactly when both operands parsed and it is blank. */
  lemma BlankOperatorLine(line1: Option<string>, line2: Option<string>, line3: Option<string>)
    ensures Session(line1, line2, line3).outcome == MissingInput(Operation)
      <==> && !IsNullOrWhiteSpace(line1) && ToInt32(line1.value).Value?
           && !IsNullOrWhiteSpace(line2) && ToInt32(line2.value).Value?
           && IsNullOrWhiteSpace(line3)
  {
  }

  /** A first operand that does not parse decides the run: a format error or an overflow, with the closing prompt. */
  lemma FirstOperandFails(line1: Option<string>, line2: Option<string>, line3: Option<string>)
    requires !IsNullOrWhiteSpace(line1) && !ToInt32(line1.value).Value?
    ensures var run := Session(line1, line2, line3);
      && run.outcome == (if ToInt32(line1.value).BadFormat? then NotANumber else Overflow)
      && run.linesRead == 1
      && run.integerLine == None
      && run.reachesExitPrompt
  {
  }

  /** A second operand that does not parse decides the run in the same way, before the operator is read. */
  lemma SecondOperandFails(line1: Option<string>, line2: Option<string>, line3: Option<string>)
    requires !IsNullOrWhiteSpace(line1) && ToInt32(line1.value).Value?
    requires !IsNullOrWhiteSpace(line2) && !ToInt32(line2.value).Value?
    ensures var run := Session(line1, line2, line3);
      && run.outcome == (if ToInt32(line2.value).BadFormat? then NotANumber else Overflow)
      && run.linesRead == 2
      && run.integerLine == None
      && run.reachesExitPrompt
  {
  }

  /** Lines the run never reads cannot influence it. */
  lemma UnreadLinesIgnored(line1: Option<string>, line2: Option<string>, line3: Option<string>,
                           other2: Option<string>, other3: Option<string>)
    ensures Session(line1, line2, line3).linesRead == 1 ==> Session(line1, other2, other3) == Session(line1, line2, line3)
    ensures Session(line1, line2, line3).linesRead <= 2 ==> Session(line1, line2, other3) == Session(line1, line2, line3)
  {
  }

  /** Once both operands parse and the operator line is not blank, the run is the calculation on the parsed values. */
  lemma SessionCalculates(line1: Option<string>, line2: Option<string>, line3: Option<string>, a: Int32, b: Int32)
    requires Reads(line1, a) && Reads(line2, b)
    requires !IsNullOrWhiteSpace(line3)
    ensures Session(line1, line2, line3) == Calculate(a, b, line3.value)
  {
  }

  /**
   For `+`, `-` and `*` the result is the exact value wrapped to 32 bits,
   and the "Result as integer" line shows that same int.
   */
  lemma ArithmeticRun(a: Int32, b: Int32, op: Op)
    requires op != Div
    ensures var r := Wrap(Exact(op, a, b));
      Calculate(a, b, Symbol(op)) == Run(Arith(op, a, b, r), Some(r), 3, true)
  {
    var run := Calculate(a, b, Symbol(op));
    assert run.outcome.Arith? && run.outcome.op == op;
    WrapUnique(Exact(op, a, b), run.outcome.r);
  }

  /** Without overflow the result is the exact sum, difference or product. */
  lemma ArithmeticExact(a: Int32, b: Int32, op: Op)
    requires op != Div && InRange(Exact(op, a, b))
    ensures Calculate(a, b, Symbol(op)).outcome == Arith(op, a, b, Exact(op, a, b))
  {
    ArithmeticRun(a, b, op);
  }

  /** Division by a non-zero int gives a quotient; by zero, the division error. Neither prints an integer line. */
  lemma DivisionRun(a: Int32, b: Int32)
    ensures Calculate(a, b, "/") ==
      if b != 0 then Run(Quotient(a, b), None, 3, true) else Run(DivisionByZero, None, 3, true)
  {
  }

  /** Any operator line that is not exactly one of the four symbols is rejected, without an integer line. */
  lemma InvalidOperatorRun(a: Int32, b: Int32, operation: string)
    requires forall op: Op :: Symbol(op) != operation
    ensures Calculate(a, b, operation) == Run(InvalidOperator, None, 3, true)
  {
  }

  /** The operator is not trimmed: " +" passes the blank check and is then rejected. */
  lemma PaddedOperatorRejected(a: Int32, b: Int32)
    ensures !IsNullOrWhiteSpace(Some(" +"))
    ensures Calculate(a, b, " +").outcome == InvalidOperator
  {
    assert !IsWhiteSpace(" +"[1]);
  }

  /** An int typed the way C# prints it passes the blank check and is read back. */
  lemma ReadsShown(n: Int32)
    ensures Reads(Some(Show(n)), n)
  {
    ParseShow(n);
    var s := Show(n);
    assert s[0] == '-' || IsDigit(s[0]);
    assert !IsWhiteSpace(s[0]);
  }

  /** The operand lines of the scenarios in `Transcript` pass the blank check and parse. */
  lemma OperandExamples()
    ensures Reads(Some("6"), 6) && Reads(Some("3"), 3) && Reads(Some("0"), 0)
  {
    ReadsShown(6);
    ReadsShown(3);
    ReadsShown(0);
    assert Show(6) == "6" && Show(3) == "3" && Show(0) == "0";
  }
}
