# Simple console calculator, modelled in Dafny

The calculator (`Program.Main`) reads up to three lines from the console:
the first operand, the second operand and an operator. It checks each line
in turn, parses the operands with `Convert.ToInt32`, dispatches on the
operator string (`+`, `-`, `*`, `/`), and prints exactly one error or one
result, plus a "Result as integer" line for `+`, `-` and `*`, and finally
"Press any key to exit..." unless it returned early on a blank line.

This project models that run as a pure function
`Calculator.Session(line1, line2, line3): Run`, where each line is an
`Option<string>` (`None` is the null `Console.ReadLine` returns at end of
input) and a `Run` records the `Outcome`, the value on the integer line if
one is printed, how many lines were read, and whether the closing prompt
is reached.

Modules, one per concern:

- `Wrappers` (wrappers.dfy): `Option`.
- `Int32Math` (int32.dfy): C# `int`, the wrap-around `+`, `-`, `*` of
  C#'s default unchecked context, and the `(int)` cast of a `double`.
- `Text` (text.dfy): `char.IsWhiteSpace` / `string.IsNullOrWhiteSpace`
  and the narrower white space the integer parser skips.
- `Convert` (convert.dfy): a stated stand-in for `Convert.ToInt32`
  (white space, optional sign, ASCII digits; format error before
  overflow) and its partner `Show`, the decimal rendering of an int.
- `Calculator` (calculator.dfy): the operator `switch`, the
  integer-line rule, and `Session`.
- `Transcript` (transcript.dfy): the lines a run prints after its
  prompts, and the scenarios 6 + 3, 6 / 3, 6 / 0, empty input, "3.5".

Facts about `Main` that shape the model:

- The three blank-line checks (Program.cs:18, 28, 45) `return` from inside
  `try`, and there is no `finally`, so "Press any key to exit..."
  (Program.cs:105) is printed only when no input was missing
  (`Session`'s `reachesExitPrompt`).
- The program compiles unchecked, so `+`, `-` and `*` on two ints
  (Program.cs:58, 62, 66) wrap modulo 2^32.
- There are two missing-input messages. A missing operand prints
  "Error: Please enter a valid number!". A missing operator prints
  "Error: Please enter a valid operation!".
- A null line (end of input) counts as missing input, like an empty or
  white-space line.
- Numbers are written as under the invariant culture (see `Show` and
  `Render` under "## Left out").

## Model

| member | source | states |
|---|---|---|
| Calculator.Session | Program.cs:13-105 | the run reaches the closing prompt exactly when no input line was missing; a missing line is reported at the step where it was read; an integer line is printed exactly for `+`, `-`, `*` results and shows the result; that result is the exact value wrapped to 32 bits; a quotient never has a zero divisor |
| Calculator.BlankFirstLine | Program.cs:16-22 | the outcome is a missing first number exactly when the first line is null or white space, and then only one line is read |
| Calculator.BlankSecondLine | Program.cs:26-32 | the second number is reported missing exactly when the first line parsed to an int and the second line is null or white space |
| Calculator.BlankOperatorLine | Program.cs:44-49 | the operator is reported missing exactly when both operands parsed and the third line is null or white space |
| Calculator.FirstOperandFails | Program.cs:92-99 | a first operand that fails to parse decides the run: format error gives NotANumber, out-of-range gives Overflow, one line read, no integer line, closing prompt reached |
| Calculator.SecondOperandFails | Program.cs:33 | a second operand that fails to parse gives NotANumber or Overflow after two lines, before the operator is read, with the closing prompt |
| Calculator.UnreadLinesIgnored | Program.cs:17-49 | lines after the first failing step are never consulted: changing them does not change the run |
| Calculator.ParseOp | Program.cs:55-84 | an operator line selects an operation exactly when it equals that operation's symbol; every other string selects none |
| Calculator.ParseSymbol | Program.cs:57-69 | each of `+`, `-`, `*`, `/` selects its own operation |
| Calculator.SymbolNotBlank | Program.cs:45 | no operator symbol is rejected by the blank check |
| Calculator.Switch | Program.cs:51-85 | the switch ends in a result, a quotient, DivisionByZero or InvalidOperator and nothing else, so `+`, `-`, `*` always give a result; validOperation is set exactly for a result or a quotient; InvalidOperator exactly when no symbol matches; DivisionByZero exactly for `/` with divisor 0; a result carries the operands and the wrapped exact value, and `result` holds it as a double |
| Calculator.Calculate | Program.cs:86-90 | after the switch, the integer line is printed exactly for `+`, `-`, `*` results and shows the same int; three lines were read and the closing prompt follows |
| Calculator.IntegralResult | Program.cs:89 | `(int)result` of an integer result stored in a double is that integer |
| Calculator.SessionCalculates | Program.cs:23-55 | once both operands parse and the operator line is not blank, the run is the calculation on the two parsed ints and that line |
| Calculator.ArithmeticRun | Program.cs:57-68 | for `+`, `-` or `*`, the calculation is that operation with the 32-bit wrapped result, printed again as the integer line, with the closing prompt |
| Calculator.ArithmeticExact | Program.cs:57-68 | when the exact sum, difference or product fits in an int, it is the result |
| Calculator.DivisionRun | Program.cs:69-80 | `/` gives a quotient for a non-zero divisor and DivisionByZero for zero; neither prints an integer line; both reach the closing prompt |
| Calculator.InvalidOperatorRun | Program.cs:81-84 | any operator line other than the four symbols gives InvalidOperator, no integer line, closing prompt |
| Calculator.PaddedOperatorRejected | Program.cs:45-55 | the operator line is not trimmed: " +" passes the blank check and is invalid |
| Calculator.ReadsShown | Program.cs:18-23 | an int typed as C# prints it passes the blank check and parses back to itself |
| Calculator.OperandExamples | Program.cs:18-33 | the lines "6", "3" and "0" pass the blank check and parse to 6, 3 and 0 |
| Calculator.ParseFailure | Program.cs:92-99 | a failed parse is reported by the catch clause for its exception: a format error exactly as NotANumber, an overflow exactly as Overflow |
| Int32Math.Wrap | Program.cs:58-66 | the wrapped value is an int congruent to the exact value modulo 2^32, and equals it when it fits |
| Int32Math.WrapUnique | Program.cs:58-66 | any int congruent to a value modulo 2^32 is its wrapped value, so the congruence fixes the result |
| Int32Math.Add32 | Program.cs:58 | int addition gives the sum when it fits, otherwise the sum minus or plus 2^32 |
| Int32Math.Sub32 | Program.cs:62 | int subtraction gives the difference when it fits, otherwise the difference minus or plus 2^32 |
| Int32Math.Mul32 | Program.cs:66 | int multiplication gives the int congruent to the product modulo 2^32, the product itself when it fits |
| Int32Math.SubUndoesAdd | Program.cs:58-62 | subtracting b from the wrapped a + b gives back a, overflow or not |
| Int32Math.AddUndoesSub | Program.cs:58-62 | adding b to the wrapped a - b gives back a, overflow or not |
| Int32Math.WrapExamples | Program.cs:58-66 | MaxValue + 1 is MinValue, MinValue - 1 is MaxValue, MinValue * -1 is MinValue, 65536 * 65536 is 0 |
| Int32Math.TruncateTowardZero | Program.cs:89 | the `(int)` cast of a double truncates toward zero |
| Int32Math.IntegralRoundTrip | Program.cs:89 | an int converted to double and cast back is unchanged |
| Int32Math.ToDouble | Program.cs:58-66 | storing an int in the double `result` is exact: the double is integral and its floor is the int |
| Text.IsNumberWhite | Program.cs:18-23 | the white space the parser skips is also white space for the blank check |
| Text.IsWhiteSpace | Program.cs:18-45 | no digit and no sign counts as white space for the blank checks |
| Text.IsNullOrWhiteSpace | Program.cs:18-45 | the empty line is blank; a line whose first character is not white space is not blank |
| Convert.ToInt32 | Program.cs:23-33 | the empty text is a format error |
| Convert.WhiteLineIsBadFormat | Program.cs:23-33 | a line of nothing but parser white space is a format error |
| Convert.TrimStart | Program.cs:23 | leading parser white space is dropped and only that |
| Convert.TrimEnd | Program.cs:23 | trailing parser white space is dropped and only that |
| Convert.TrimPadded | Program.cs:23 | trimming a padded literal yields the literal |
| Convert.ShowNat | Program.cs:59 | the decimal digits of a natural number read back as that number and have no leading zero |
| Convert.Show | Program.cs:59 | the decimal text of an integer is non-empty and neither starts nor ends with white space |
| Convert.ShowInjective | Program.cs:59 | different integers print differently |
| Convert.ParseSignedDigits | Program.cs:23 | a sign and digits parse to the signed value when it is an int, otherwise to an overflow |
| Convert.ParseShow | Program.cs:23 | parsing the decimal text of any integer gives it back when it is an int and an overflow otherwise |
| Convert.ParsePadded | Program.cs:23 | white space around a number does not change what it parses to |
| Convert.ParsePlus | Program.cs:23 | an explicit `+` before a non-negative number is accepted |
| Convert.NonNumericIsBadFormat | Program.cs:92-95 | a line with any character other than digits, signs and parser white space is a format error |
| Convert.NumericLine | Program.cs:23 | a line that parses, or overflows, holds only digits, signs and parser white space |
| Convert.SmallNumberExamples | Program.cs:23 | "6", "3" and "0" parse to 6, 3 and 0 |
| Convert.MinValueExample | Program.cs:23 | "-2147483648" parses to the smallest int |
| Convert.OverflowExample | Program.cs:96-99 | "2147483648" overflows |
| Convert.PaddedExample | Program.cs:23 | " 7" followed by a tab parses to 7 |
| Convert.NotANumberExamples | Program.cs:92-95 | "abc" and "3.5" are format errors |
| Transcript.Report | Program.cs:20-98 | a report line is neither the closing prompt nor an integer line |
| Transcript.Render | Program.cs:20-105 | a result line and an integer line end with the decimal text of their value |
| Transcript.ResultReadsBack | Program.cs:59-67 | the result at the end of a result line parses back to that result |
| Transcript.IntegerReadsBack | Program.cs:89 | the number at the end of an integer line parses back to the int it shows |
| Transcript.Output | Program.cs:86-105 | the printout starts with the report, ends with the closing prompt exactly when it is reached, and holds an integer line for v exactly when the run's integer line is v |
| Transcript.ErrorTextsDistinct | Program.cs:20-98 | the error messages are pairwise different texts |
| Transcript.OutputShape | Program.cs:86-105 | for a run whose closing prompt and integer line follow the source's rules, the printout is the report alone exactly when input was missing; result line, integer line and prompt for `+`, `-`, `*`; and the report then the prompt for every other outcome |
| Transcript.SessionOutput | Program.cs:13-105 | every session's printout has that shape |
| Transcript.AdditionScenario | Program.cs:57-90 | inputs 6, 3, + print the result 9, the integer line 9 and the closing prompt |
| Transcript.AdditionText | Program.cs:59-89 | those lines read "Result: 6 + 3 = 9" and "Result as integer: 9" |
| Transcript.DivisionScenario | Program.cs:69-74 | inputs 6, 3, / print a quotient line and the closing prompt, no integer line |
| Transcript.DivisionByZeroScenario | Program.cs:75-79 | inputs 6, 0, / print the division error and the closing prompt, no integer line |
| Transcript.EmptyFirstLineScenario | Program.cs:17-21 | an empty first line prints only the missing-number error |
| Transcript.NonNumericFirstLine | Program.cs:92-95 | a first line with a visible character that no integer contains prints the format error and the closing prompt, whatever follows |
| Transcript.FractionScenario | Program.cs:92-95 | a first operand "3.5" prints the format error and the closing prompt |

## Left out

- Console plumbing: `Console.Clear`, the banner, the prompts, the operator menu and `Console.ReadKey` (Program.cs:9-11, 16, 26, 36-42, 106). They print fixed text and hold no logic.
- The value of the division result and its `F2` formatting (Program.cs:72-73). This is floating-point numerics. A quotient is kept as `Quotient(a, b)` with `b != 0`, printed as an abstract `QuotientLine`.
- The `catch (Exception)` branch (Program.cs:100-103). No modelled path throws anything other than the two parse exceptions.
- Convert.ToInt32: culture-dependent details are not modelled: culture-specific sign symbols, the trailing NUL characters .NET tolerates, and the UTF-16 code units of C# strings, as opposed to the Unicode scalar values of Dafny's `char`. The model accepts parser white space (U+0009 to U+000D and U+0020), one optional `+` or `-`, and one or more ASCII digits. Any other shape is a format error. A well-formed literal outside the int range is an overflow.
- Convert.Show: formats an int as under the invariant culture, with ASCII `-` as the negative sign. C# formats `{number1}` and `{result}` with the current culture's negative sign, which is U+2212 under some cultures such as sv-SE or fi-FI.
- Transcript.Render: gives the lines' text under the invariant culture, for the same reason as `Show`.
- Process exit status: the program never sets one, and the model has nothing to say about it.
