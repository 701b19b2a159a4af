# String calculator

A Dafny model of the string calculator in
`src/AustinCodeDay0315/AustinCodeDay0315.Tests/StringCalculator.cs`.

`StringCalculator.Add(expression)` builds an `AddCalculation` and returns its
`Calculate()`. `Multiply(expression)` does the same with a `MultiplyCalculation`.
Both variants share the `NumberCalculation` constructor:

- it throws `ArgumentException("Expression should not be null or empty.")` for a null, empty or white-space expression;
- otherwise it fixes the variant's delimiter (`+` or `*`);
- it splits the expression on that delimiter;
- it keeps, in order, the value of every token that `Int32.TryParse` accepts. Other tokens are dropped; they do not count as zero.

`Calculate()` folds the list from 0 with `+=` or from 1 with `*=`. It uses C#'s default unchecked 32-bit arithmetic, so a result that does not fit wraps around.

Modules, one per file:

| file | module | models |
|---|---|---|
| `wrappers.dfy` | `Wrappers` | `Option` (a null string) and `Result` (a return value or a thrown exception) |
| `int32_arith.dfy` | `Int32Arith` | the C# `int`: its range and unchecked wrap-around (`Wrap`) |
| `folds.dfy` | `Folds` | exact sum and product of a number list |
| `text.dfy` | `Text` | `String.IsNullOrWhiteSpace`, `String.Split(char)` and a `Join` used to build expressions |
| `int32_parse.dfy` | `Int32Parse` | `Int32.TryParse` (and `Convert.ToInt32` on the tokens it accepts), and the decimal rendering of an `int` |
| `calculations.dfy` | `Calculations` | `NumberCalculation`'s constructor and number list; the classes `AddCalculation` and `MultiplyCalculation` |
| `calculator.dfy` | `Calculator` | the class `StringCalculator` and what `Add` and `Multiply` return |
| `calculator_tests.dfy` | `StringCalculatorTests` | the cases of `StringCalculatorTests`, and more examples of the same kind |

How each source construct is represented:

- A null `expression` is `None`.
- A thrown `ArgumentException` is a `Failure` result.
- `Add` and `Multiply` are methods of `StringCalculator`. Each is proved to return `AddResult(expression)` or `MultiplyResult(expression)`.
- Each calculation class has:
  - a `New` method, which models `new AddCalculation(expression)` together with its guard;
  - an anonymous constructor, which models construction after the guard;
  - a `Calculate` method with the source's loop. It is proved to return the wrapped exact sum or product of `Numbers`.
- `Int32.TryParse` is modelled as the invariant culture parses a `NumberStyles.Integer` token:
  - optional leading and trailing white space (U+0009 to U+000D and the space);
  - an optional `+` or `-` sign;
  - one or more ASCII digits;
  - a value in the 32-bit range.

## Model

| member | source | states |
|---|---|---|
| Calculator.StringCalculator.Add | src/AustinCodeDay0315/AustinCodeDay0315.Tests/StringCalculator.cs:27-32 | `Add` returns `AddResult(expression)`. That is the `ArgumentException` for a blank expression, and otherwise the wrapped sum of the expression's number list under `+` |
| Calculator.StringCalculator.Multiply | src/AustinCodeDay0315/AustinCodeDay0315.Tests/StringCalculator.cs:34-39 | `Multiply` returns `MultiplyResult(expression)`. That is the `ArgumentException` for a blank expression, and otherwise the wrapped product of the number list under `*` |
| Calculator.AddResult | src/AustinCodeDay0315/AustinCodeDay0315.Tests/StringCalculator.cs:27-32 | The specification `Add` is proved against. It fails if and only if the expression is null or white space. Otherwise it is a 32-bit value congruent modulo 2^32 to the exact sum of the `+` number list |
| Calculator.MultiplyResult | src/AustinCodeDay0315/AustinCodeDay0315.Tests/StringCalculator.cs:34-39 | The specification `Multiply` is proved against. It fails if and only if the expression is null or white space. Otherwise it is a 32-bit value congruent modulo 2^32 to the exact product of the `*` number list |
| Calculations.AddCalculation.New | src/AustinCodeDay0315/AustinCodeDay0315.Tests/StringCalculator.cs:85-93 | It fails if and only if the expression is null or white space, and the failure carries the source's message. On success the object is fresh, its delimiter is `+`, and its numbers are `CreateNumbersList(expression, '+')` |
| Calculations.AddCalculation.constructor | src/AustinCodeDay0315/AustinCodeDay0315.Tests/StringCalculator.cs:63-67 | Past the guard, the delimiter is `+` and the numbers are the expression's number list under that delimiter |
| Calculations.AddCalculation.Calculate | src/AustinCodeDay0315/AustinCodeDay0315.Tests/StringCalculator.cs:69-77 | The loop returns `Wrap(Sum(Numbers))`: the exact sum reduced into the 32-bit range as unchecked `+=` does |
| Calculations.MultiplyCalculation.New | src/AustinCodeDay0315/AustinCodeDay0315.Tests/StringCalculator.cs:85-93 | It fails if and only if the expression is blank, with the source's message. On success the object is fresh, its delimiter is `*`, and its numbers are `CreateNumbersList(expression, '*')` |
| Calculations.MultiplyCalculation.constructor | src/AustinCodeDay0315/AustinCodeDay0315.Tests/StringCalculator.cs:44-48 | Past the guard, the delimiter is `*` and the numbers are the expression's number list under that delimiter |
| Calculations.MultiplyCalculation.Calculate | src/AustinCodeDay0315/AustinCodeDay0315.Tests/StringCalculator.cs:50-58 | The loop returns `Wrap(Product(Numbers))`: the exact product reduced into the 32-bit range as unchecked `*=` does |
| Int32Arith.Wrap | src/AustinCodeDay0315/AustinCodeDay0315.Tests/StringCalculator.cs:74 | The result is a 32-bit value congruent to the exact value modulo 2^32. It equals the exact value whenever that value fits |
| Int32Arith.WrapUnique | src/AustinCodeDay0315/AustinCodeDay0315.Tests/StringCalculator.cs:74 | `Wrap(x)` is the only 32-bit value congruent to `x` modulo 2^32 |
| Int32Arith.WrapAdd | src/AustinCodeDay0315/AustinCodeDay0315.Tests/StringCalculator.cs:74 | Wrapping after each `+=` gives the same result as wrapping the exact sum once |
| Int32Arith.WrapMul | src/AustinCodeDay0315/AustinCodeDay0315.Tests/StringCalculator.cs:55 | Wrapping after each `*=` gives the same result as wrapping the exact product once |
| Folds.SumConcat | src/AustinCodeDay0315/AustinCodeDay0315.Tests/StringCalculator.cs:71-75 | The sum of a concatenation is the sum of the sums |
| Folds.ProductConcat | src/AustinCodeDay0315/AustinCodeDay0315.Tests/StringCalculator.cs:52-56 | The product of a concatenation is the product of the products |
| Folds.SumPermutation | src/AustinCodeDay0315/AustinCodeDay0315.Tests/StringCalculator.cs:69-77 | Two lists with the same multiset of numbers have the same sum |
| Folds.ProductPermutation | src/AustinCodeDay0315/AustinCodeDay0315.Tests/StringCalculator.cs:50-58 | Two lists with the same multiset of numbers have the same product |
| Text.IsNullOrWhiteSpace | src/AustinCodeDay0315/AustinCodeDay0315.Tests/StringCalculator.cs:87 | True for null and for a string made only of white space, including the empty string. `BlankExpressionThrows` proves that exactly these expressions make both operations throw |
| Text.Split | src/AustinCodeDay0315/AustinCodeDay0315.Tests/StringCalculator.cs:97 | `Split` always yields at least one piece, even for the empty string |
| Text.SplitPieces | src/AustinCodeDay0315/AustinCodeDay0315.Tests/StringCalculator.cs:97 | There is one piece more than the delimiter occurs in the string, and no piece contains the delimiter |
| Text.JoinSplit | src/AustinCodeDay0315/AustinCodeDay0315.Tests/StringCalculator.cs:97 | Joining the pieces with the delimiter gives back the original string, so `Split` loses nothing but the delimiters |
| Text.SplitNoDelimiter | src/AustinCodeDay0315/AustinCodeDay0315.Tests/StringCalculator.cs:97 | A string without the delimiter splits into exactly one piece, itself |
| Text.SplitCons | src/AustinCodeDay0315/AustinCodeDay0315.Tests/StringCalculator.cs:97 | A delimiter-free piece, the delimiter and a tail split into that piece followed by the pieces of the tail |
| Text.SplitJoin | src/AustinCodeDay0315/AustinCodeDay0315.Tests/StringCalculator.cs:97 | Splitting the join of at least one delimiter-free piece gives back exactly those pieces |
| Int32Parse.TryParseInt32 | src/AustinCodeDay0315/AustinCodeDay0315.Tests/StringCalculator.cs:103-107 | Every accepted value is a 32-bit integer. `ParseGrammar` states that the whole accepted grammar parses, with its value. `AcceptedIsGrammar` states the converse: every accepted token has that shape. `AcceptedCharacters` and `RejectsForeignCharacter` restrict the characters that may appear |
| Int32Parse.TrimStartSpec | src/AustinCodeDay0315/AustinCodeDay0315.Tests/StringCalculator.cs:106 | Leading trim keeps a suffix. What it drops is number white space, and what it keeps does not start with any |
| Int32Parse.TrimEndSpec | src/AustinCodeDay0315/AustinCodeDay0315.Tests/StringCalculator.cs:106 | Trailing trim keeps a prefix. What it drops is number white space, and what it keeps does not end with any |
| Int32Parse.TrimmedParts | src/AustinCodeDay0315/AustinCodeDay0315.Tests/StringCalculator.cs:106 | A token is its trimmed literal with white space before and after |
| Int32Parse.LiteralCharacters | src/AustinCodeDay0315/AustinCodeDay0315.Tests/StringCalculator.cs:106 | An accepted literal ends in a digit and is made only of digits, apart from an optional leading sign |
| Int32Parse.AcceptedCharacters | src/AustinCodeDay0315/AustinCodeDay0315.Tests/StringCalculator.cs:103-107 | An accepted token contains at least one digit and nothing but digits, signs and number white space |
| Int32Parse.RejectsForeignCharacter | src/AustinCodeDay0315/AustinCodeDay0315.Tests/StringCalculator.cs:103-107 | A token containing any other character, such as a letter or a decimal point, is rejected |
| Int32Parse.ParseFormat | src/AustinCodeDay0315/AustinCodeDay0315.Tests/StringCalculator.cs:103-107 | Every 32-bit integer's decimal rendering is accepted and parses back to that integer |
| Int32Parse.DigitsValueFormat | src/AustinCodeDay0315/AustinCodeDay0315.Tests/StringCalculator.cs:106 | Reading a natural number's digits back gives the number |
| Int32Parse.PaddingIgnored | src/AustinCodeDay0315/AustinCodeDay0315.Tests/StringCalculator.cs:103-107 | Number white space around a token does not change whether or how it parses |
| Int32Parse.SignedLiteral | src/AustinCodeDay0315/AustinCodeDay0315.Tests/StringCalculator.cs:103-107 | An optional `+` or `-` followed by digits parses to its signed value (leading zeros allowed) if that value is in the 32-bit range, and fails otherwise |
| Int32Parse.ParseGrammar | src/AustinCodeDay0315/AustinCodeDay0315.Tests/StringCalculator.cs:103-107 | White space, an optional sign, one or more digits and white space parse to the signed value of the digits if it is in the 32-bit range, and fail otherwise |
| Int32Parse.AcceptedIsGrammar | src/AustinCodeDay0315/AustinCodeDay0315.Tests/StringCalculator.cs:103-107 | The converse of `ParseGrammar`: every accepted token is white space, an optional `+` or `-`, one or more digits and white space, in that order |
| Int32Parse.LiteralParts | src/AustinCodeDay0315/AustinCodeDay0315.Tests/StringCalculator.cs:103-107 | An accepted trimmed literal is an optional sign followed by a non-empty digit string |
| Int32Parse.AboveRangeRejected | src/AustinCodeDay0315/AustinCodeDay0315.Tests/StringCalculator.cs:103-107 | A digit string whose value exceeds `int.MaxValue` does not parse; it is not wrapped or clamped |
| Int32Parse.PlusAboveRangeRejected | src/AustinCodeDay0315/AustinCodeDay0315.Tests/StringCalculator.cs:103-107 | The same digits after a `+` sign do not parse either |
| Int32Parse.BelowRangeRejected | src/AustinCodeDay0315/AustinCodeDay0315.Tests/StringCalculator.cs:103-107 | A `-` followed by digits whose negation is below `int.MinValue` does not parse |
| Int32Parse.TrimStartPadded | src/AustinCodeDay0315/AustinCodeDay0315.Tests/StringCalculator.cs:106 | Leading number white space is skipped entirely |
| Int32Parse.TrimEndPadded | src/AustinCodeDay0315/AustinCodeDay0315.Tests/StringCalculator.cs:106 | Trailing number white space is skipped entirely |
| Calculations.CanParse | src/AustinCodeDay0315/AustinCodeDay0315.Tests/StringCalculator.cs:103-107 | `CanParse(t)` holds exactly when `TryParseInt32(t)` succeeds. Its meaning is given by `ParseGrammar` (the accepted grammar, with out-of-range values rejected) and its converse `AcceptedIsGrammar`, together with `AboveRangeRejected`, `BelowRangeRejected`, `ParseFormat` and `PaddingIgnored`. `AcceptedCharacters` and `RejectsForeignCharacter` only restrict the characters |
| Calculations.CreateNumbersList | src/AustinCodeDay0315/AustinCodeDay0315.Tests/StringCalculator.cs:95-101 | There are never more numbers than tokens. `ParsedNumbersIsFilter` proves the list is the in-order conversion of exactly the tokens for which `CanParse` holds |
| Calculations.TryParseEach | src/AustinCodeDay0315/AustinCodeDay0315.Tests/StringCalculator.cs:98 | Each token is tried once, position by position, and no token is left out |
| Calculations.Values | src/AustinCodeDay0315/AustinCodeDay0315.Tests/StringCalculator.cs:98-100 | Filtering never lengthens the list |
| Calculations.KeptPositions | src/AustinCodeDay0315/AustinCodeDay0315.Tests/StringCalculator.cs:98-100 | The kept entries are exactly the successful parses, in ascending position, and the k-th value is the k-th kept entry's value |
| Calculations.ParsedNumbers | src/AustinCodeDay0315/AustinCodeDay0315.Tests/StringCalculator.cs:98-100 | The `Where(CanParse).Select(Convert.ToInt32)` pipeline keeps at most one number per token. `ParsedNumbersIsFilter` proves it keeps exactly the tokens that parse, in order, converted; `ParsedNumbersInRange` that every kept number is a 32-bit integer |
| Calculations.ParsedNumbersIsFilter | src/AustinCodeDay0315/AustinCodeDay0315.Tests/StringCalculator.cs:95-101 | The number list is the subsequence of tokens that parse, converted, in their original order. A token is kept if and only if `CanParse` holds for it |
| Calculations.ParsedNumbersInRange | src/AustinCodeDay0315/AustinCodeDay0315.Tests/StringCalculator.cs:98-100 | Every number in the list is a 32-bit integer |
| Calculations.NumbersBound | src/AustinCodeDay0315/AustinCodeDay0315.Tests/StringCalculator.cs:97-100 | The list has at most as many numbers as there are tokens, and there is one token more than there are delimiters |
| Calculations.ValuesConcat | src/AustinCodeDay0315/AustinCodeDay0315.Tests/StringCalculator.cs:98-100 | Filtering distributes over concatenation |
| Calculations.TryParseEachConcat | src/AustinCodeDay0315/AustinCodeDay0315.Tests/StringCalculator.cs:98 | Parsing token by token distributes over concatenation |
| Calculations.UnparsableTokenDropped | src/AustinCodeDay0315/AustinCodeDay0315.Tests/StringCalculator.cs:98-100 | Inserting a token that does not parse anywhere leaves the number list unchanged, so it is not read as zero |
| Calculations.NoParsableTokens | src/AustinCodeDay0315/AustinCodeDay0315.Tests/StringCalculator.cs:98-100 | The number list is empty if and only if no token parses |
| Calculations.ParsedNumbersOfNumerals | src/AustinCodeDay0315/AustinCodeDay0315.Tests/StringCalculator.cs:98-100 | Parsing the renderings of 32-bit numbers gives back exactly those numbers |
| Calculations.CreateNumbersListOfNumerals | src/AustinCodeDay0315/AustinCodeDay0315.Tests/StringCalculator.cs:95-101 | Render 32-bit numbers in decimal and join them with a delimiter that is neither a digit nor `-`. The number list of that expression is exactly the numbers; with no numbers it is the empty list |
| Calculator.NumeralsNotBlank | src/AustinCodeDay0315/AustinCodeDay0315.Tests/StringCalculator.cs:87 | A joined list of renderings is never blank, so the guard lets it through |
| Calculator.AddOfNumerals | src/AustinCodeDay0315/AustinCodeDay0315.Tests/StringCalculator.cs:27-32 | `Add` of at least one joined 32-bit rendering is the wrapped sum of the numbers |
| Calculator.MultiplyOfNumerals | src/AustinCodeDay0315/AustinCodeDay0315.Tests/StringCalculator.cs:34-39 | `Multiply` of at least one joined 32-bit rendering is the wrapped product of the numbers |
| Calculator.AddIgnoresOrder | src/AustinCodeDay0315/AustinCodeDay0315.Tests/StringCalculator.cs:69-77 | Take two expressions that are both blank or both not blank, whose `+` number lists are permutations of each other. They give the same `Add` result |
| Calculator.MultiplyIgnoresOrder | src/AustinCodeDay0315/AustinCodeDay0315.Tests/StringCalculator.cs:50-58 | Take two expressions that are both blank or both not blank, whose `*` number lists are permutations of each other. They give the same `Multiply` result |
| Calculator.AddNoNumbersGivesZero | src/AustinCodeDay0315/AustinCodeDay0315.Tests/StringCalculator.cs:69-77 | A non-blank expression in which no `+`-token parses makes `Add` return 0, the value the loop starts from |
| Calculator.MultiplyNoNumbersGivesOne | src/AustinCodeDay0315/AustinCodeDay0315.Tests/StringCalculator.cs:50-58 | A non-blank expression in which no `*`-token parses makes `Multiply` return 1, the value the loop starts from |
| Calculator.BlankExpressionThrows | src/AustinCodeDay0315/AustinCodeDay0315.Tests/StringCalculator.cs:87-90 | Both operations fail if and only if the expression is null or white space, and then with the same `ArgumentException` |
| StringCalculatorTests.AddOfList | src/AustinCodeDay0315/AustinCodeDay0315.Tests/StringCalculator.cs:27-32 | Take a non-blank expression whose number list has an exact sum inside the 32-bit range. `Add` returns that sum |
| StringCalculatorTests.MultiplyOfList | src/AustinCodeDay0315/AustinCodeDay0315.Tests/StringCalculator.cs:34-39 | Take a non-blank expression whose number list has an exact product inside the 32-bit range. `Multiply` returns that product |
| StringCalculatorTests.EmptyStringShouldThrowErrorOnAdd | src/AustinCodeDay0315/AustinCodeDay0315.Tests/StringCalculator.cs:116-131 | `Add` throws the `ArgumentException` for the empty string, and also for null and for a single space |
| StringCalculatorTests.OnePlusTwoEqualsThree | src/AustinCodeDay0315/AustinCodeDay0315.Tests/StringCalculator.cs:133-150 | `Add("1+2")` returns 3 |
| StringCalculatorTests.AddingThreeNumbers | src/AustinCodeDay0315/AustinCodeDay0315.Tests/StringCalculator.cs:152-169 | `Add("1+2+10")` returns 13 |
| StringCalculatorTests.FourTimesTwoEqualsEight | src/AustinCodeDay0315/AustinCodeDay0315.Tests/StringCalculator.cs:171-184 | `Multiply("4*2")` returns 8 |
| StringCalculatorTests.UnparsableTokenIsDroppedOnAdd | src/AustinCodeDay0315/AustinCodeDay0315.Tests/StringCalculator.cs:98-100 | `Add("1+x+2")` returns 3 |
| StringCalculatorTests.UnparsableTokenIsDroppedOnMultiply | src/AustinCodeDay0315/AustinCodeDay0315.Tests/StringCalculator.cs:98-100 | `Multiply("4*x*2")` returns 8, not 0 |
| StringCalculatorTests.DropX | src/AustinCodeDay0315/AustinCodeDay0315.Tests/StringCalculator.cs:98-100 | Joining two rendered numbers around the token `x` gives exactly those two numbers |
| StringCalculatorTests.DropFirst | src/AustinCodeDay0315/AustinCodeDay0315.Tests/StringCalculator.cs:98-100 | An unparsable first token followed by one rendered number gives just that number |
| StringCalculatorTests.AddDoesNotSplitOnStar | src/AustinCodeDay0315/AustinCodeDay0315.Tests/StringCalculator.cs:63-64 | `Add("4*2")` returns 0: `*` is not `Add`'s delimiter, so the single token `4*2` is dropped |
| StringCalculatorTests.MultiplyDoesNotSplitOnPlus | src/AustinCodeDay0315/AustinCodeDay0315.Tests/StringCalculator.cs:44-45 | `Multiply("1+2")` returns 1: `+` is not `Multiply`'s delimiter, so the single token `1+2` is dropped |
| StringCalculatorTests.SignInsideRejected | src/AustinCodeDay0315/AustinCodeDay0315.Tests/StringCalculator.cs:103-107 | `TryParse` rejects `1+2`, because a sign is allowed only in front of the digits |
| StringCalculatorTests.SingleUnparsableToken | src/AustinCodeDay0315/AustinCodeDay0315.Tests/StringCalculator.cs:97-100 | An expression without the delimiter that does not parse gives an empty number list |
| StringCalculatorTests.SumIsOrderIndependent | src/AustinCodeDay0315/AustinCodeDay0315.Tests/StringCalculator.cs:69-77 | `Add("1+2+3")` and `Add("3+2+1")` both return 6 |
| StringCalculatorTests.DecimalTokenIsDropped | src/AustinCodeDay0315/AustinCodeDay0315.Tests/StringCalculator.cs:98-100 | `Add("1.5+2")` returns 2, because the decimal token is dropped |
| StringCalculatorTests.OutOfRangeTokenIsDropped | src/AustinCodeDay0315/AustinCodeDay0315.Tests/StringCalculator.cs:98-100 | `Add("2147483648+1")` returns 1, because a token one past `int.MaxValue` does not parse and is dropped |

## Left out

- `IStringCalculator` (lines 11-20) and the abstract base `NumberCalculation` (lines 80-110) are not declared as types. Traits are not used here. The base class's shared parts are module-level definitions: the guard, `CreateNumbersList` and `CanParse`. `Add` and `Multiply` call the concrete classes directly.
- `Numbers` and `Delimiter` are `const` fields. The source assigns them only during construction (lines 91-92 and 98). Their protected setters are never used again.
- `List<int>` is an immutable `seq<int>`.
- `Convert.ToInt32` is the same function as `TryParse`. The two agree on every token that `TryParse` accepts, and those are the only tokens the source converts.
- `Int32.TryParse` is modelled as the invariant culture. Culture-specific sign symbols are not modelled, and neither are the trailing NUL characters that .NET also accepts.
- `Char.IsWhiteSpace`, which `String.IsNullOrWhiteSpace` uses, is modelled only on Latin-1. It covers U+0009 to U+000D, the space, U+0085 and U+00A0. Other Unicode separators are not included.
- The MSTest attributes, the test-fixture class (lines 191-204) and the `Should` assertion library are not modelled. The test cases are lemmas about the results instead.
- The unused `System.Net.NetworkInformation` import is not modelled.
- An earlier version of `Add` treated unparsable tokens as zero. That version is not in `StringCalculator.cs` and is not part of this model.
