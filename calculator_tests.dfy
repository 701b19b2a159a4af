/**
 * The `StringCalculatorTests` cases, and further examples of the same kind,
 * proved about `AddResult` and `MultiplyResult` (which the `StringCalculator`
 * methods are proved to return). As in the tests, each example names its
 * `input`; it first fixes the number list of that input, then reads the
 * result off `AddOfList` or `MultiplyOfList`. The input is a parameter
 * fixed by `requires` rather than a literal inside the `ensures`: with a
 * literal argument the verifier would evaluate the whole split and parse of
 * the expression again in every proof that mentions it.
 */
module StringCalculatorTests {
  import opened Wrappers
  import opened Int32Arith
  import opened Folds
  import opened Text
  import opened Int32Parse
  import opened Calculations
  import opened Calculator

  lemma EmptyStringShouldThrowErrorOnAdd()
    ensures AddResult(Some("")) == Failure(ArgumentException(BlankExpressionMessage))
    ensures AddResult(None) == Failure(ArgumentException(BlankExpressionMessage))
    ensures AddResult(Some(" ")) == Failure(ArgumentException(BlankExpressionMessage))
  {
  }

  /** `Add` on a non-blank expression whose numbers sum to a 32-bit value returns that sum. */
  lemma {:induction false} AddOfList(e: string, ns: seq<int>, v: int)
    requires !IsNullOrWhiteSpace(Some(e))
    requires CreateNumbersList(e, AddDelimiter) == ns
    requires Sum(ns) == v && IsInt32(v)
    ensures AddResult(Some(e)) == Success(v)
  {
  }

  /** `Multiply` on a non-blank expression whose numbers multiply to a 32-bit value returns that product. */
  lemma {:induction false} MultiplyOfList(e: string, ns: seq<int>, v: int)
    requires !IsNullOrWhiteSpace(Some(e))
    requires CreateNumbersList(e, MultiplyDelimiter) == ns
    requires Product(ns) == v && IsInt32(v)
    ensures MultiplyResult(Some(e)) == Success(v)
  {
  }

  lemma {:induction false} OnePlusTwoEqualsThree(input: string)
    requires input == "1+2"
    ensures AddResult(Some(input)) == Success(3)
  {
    NumbersOfOnePlusTwo(input);
    NotBlank(input);
    AddOfList(input, [1, 2], 3);
  }

  lemma {:induction false} NumbersOfOnePlusTwo(input: string)
    requires input == "1+2"
    ensures CreateNumbersList(input, AddDelimiter) == [1, 2]
  {
    assert Numerals([1, 2]) == ["1", "2"];
    assert Join(["1", "2"], AddDelimiter) == input;
    CreateNumbersListOfNumerals([1, 2], AddDelimiter);
  }

  lemma {:induction false} AddingThreeNumbers(input: string)
    requires input == "1+2+10"
    ensures AddResult(Some(input)) == Success(13)
  {
    NumbersOfOnePlusTwoPlusTen(input);
    NotBlank(input);
    AddOfList(input, [1, 2, 10], 13);
  }

  lemma {:induction false} NumbersOfOnePlusTwoPlusTen(input: string)
    requires input == "1+2+10"
    ensures CreateNumbersList(input, AddDelimiter) == [1, 2, 10]
  {
    TenRendered();
    assert Numerals([1, 2, 10]) == ["1", "2", "10"];
    assert Join(["1", "2", "10"], AddDelimiter) == input;
    CreateNumbersListOfNumerals([1, 2, 10], AddDelimiter);
  }

  lemma TenRendered()
    ensures FormatInt(10) == "10"
  {
    assert FormatNat(10) == FormatNat(1) + [DigitChar(0)];
    assert DigitChar(1) == '1' && DigitChar(0) == '0';
  }

  lemma {:induction false} FourTimesTwoEqualsEight(input: string)
    requires input == "4*2"
    ensures MultiplyResult(Some(input)) == Success(8)
  {
    NumbersOfFourTimesTwo(input);
    NotBlank(input);
    MultiplyOfList(input, [4, 2], 8);
  }

  lemma {:induction false} NumbersOfFourTimesTwo(input: string)
    requires input == "4*2"
    ensures CreateNumbersList(input, MultiplyDelimiter) == [4, 2]
  {
    assert Numerals([4, 2]) == ["4", "2"];
    assert Join(["4", "2"], MultiplyDelimiter) == input;
    CreateNumbersListOfNumerals([4, 2], MultiplyDelimiter);
  }

  /** An unparsable token is dropped from a sum. */
  lemma {:induction false} UnparsableTokenIsDroppedOnAdd(input: string)
    requires input == "1+x+2"
    ensures AddResult(Some(input)) == Success(3)
  {
    NumbersOfOneXTwo(input);
    NotBlank(input);
    AddOfList(input, [1, 2], 3);
  }

  /** An unparsable token is dropped from a product, not read as 0. */
  lemma {:induction false} UnparsableTokenIsDroppedOnMultiply(input: string)
    requires input == "4*x*2"
    ensures MultiplyResult(Some(input)) == Success(8)
  {
    NumbersOfFourXTwo(input);
    NotBlank(input);
    MultiplyOfList(input, [4, 2], 8);
  }

  lemma {:induction false} NumbersOfOneXTwo(input: string)
    requires input == "1+x+2"
    ensures CreateNumbersList(input, AddDelimiter) == [1, 2]
  {
    assert Numerals([1, 2]) == ["1", "2"];
    assert Join(["1", "x", "2"], AddDelimiter) == input;
    DropX("1", "2", 1, 2, AddDelimiter);
  }

  lemma {:induction false} NumbersOfFourXTwo(input: string)
    requires input == "4*x*2"
    ensures CreateNumbersList(input, MultiplyDelimiter) == [4, 2]
  {
    assert Numerals([4, 2]) == ["4", "2"];
    assert Join(["4", "x", "2"], MultiplyDelimiter) == input;
    DropX("4", "2", 4, 2, MultiplyDelimiter);
  }

  /** The number list of the expression "a<d>x<d>b" is that of "a<d>b". */
  lemma {:induction false} DropX(a: string, b: string, va: int, vb: int, d: char)
    requires Numerals([va, vb]) == [a, b]
    requires IsInt32(va) && IsInt32(vb)
    requires d !in a && d !in b && d != 'x'
    ensures CreateNumbersList(Join([a, "x", b], d), d) == [va, vb]
  {
    SplitJoin([a, "x", b], d);
    ParsedAXB(a, b);
    ParsedNumbersOfNumerals([va, vb]);
  }

  lemma {:induction false} ParsedAXB(a: string, b: string)
    ensures ParsedNumbers([a, "x", b]) == ParsedNumbers([a, b])
  {
    XIsNotANumber();
    UnparsableTokenDropped([a], "x", [b]);
    assert [a] + ["x"] + [b] == [a, "x", b];
    assert [a] + [b] == [a, b];
  }

  lemma XIsNotANumber()
    ensures !CanParse("x")
  {
    RejectsForeignCharacter("x", 0);
  }

  /** `Add` splits on '+' only: "4*2" is one unparsable token, so the sum is empty. */
  lemma {:induction false} AddDoesNotSplitOnStar(input: string)
    requires input == "4*2"
    ensures AddResult(Some(input)) == Success(0)
  {
    NumbersOfFourTimesTwoUnderAdd(input);
    NotBlank(input);
    AddOfList(input, [], 0);
  }

  lemma {:induction false} NumbersOfFourTimesTwoUnderAdd(input: string)
    requires input == "4*2"
    ensures CreateNumbersList(input, AddDelimiter) == []
  {
    RejectsForeignCharacter(input, 1);
    assert AddDelimiter !in input;
    SingleUnparsableToken(input, AddDelimiter);
  }

  /** `Multiply` splits on '*' only: "1+2" is one unparsable token, so the product is empty. */
  lemma {:induction false} MultiplyDoesNotSplitOnPlus(input: string)
    requires input == "1+2"
    ensures MultiplyResult(Some(input)) == Success(1)
  {
    NumbersOfOnePlusTwoUnderMultiply(input);
    NotBlank(input);
    MultiplyOfList(input, [], 1);
  }

  lemma {:induction false} NumbersOfOnePlusTwoUnderMultiply(input: string)
    requires input == "1+2"
    ensures CreateNumbersList(input, MultiplyDelimiter) == []
  {
    SignInsideRejected(input);
    assert MultiplyDelimiter !in input;
    SingleUnparsableToken(input, MultiplyDelimiter);
  }

  /** An expression that starts with a character other than white space is not blank. */
  lemma {:induction false} NotBlank(e: string)
    requires e != [] && !IsWhiteSpace(e[0])
    ensures !IsNullOrWhiteSpace(Some(e))
  {
  }

  /** A sign is accepted only in front of the digits. */
  lemma {:induction false} SignInsideRejected(input: string)
    requires input == "1+2"
    ensures TryParseInt32(input) == None
  {
    assert TrimStart(input) == input;
    assert TrimEnd(input) == input;
    assert !IsDigit(input[1]);
  }

  /** An expression without the delimiter is one token; if it does not parse there are no numbers. */
  lemma {:induction false} SingleUnparsableToken(e: string, d: char)
    requires d !in e && !CanParse(e)
    ensures CreateNumbersList(e, d) == []
  {
    SplitNoDelimiter(e, d);
    NoParsableTokens([e]);
  }

  /** The same numbers in another order give the same sum. */
  lemma {:induction false} SumIsOrderIndependent(input: string, reversed: string)
    requires input == "1+2+3" && reversed == "3+2+1"
    ensures AddResult(Some(input)) == AddResult(Some(reversed)) == Success(6)
  {
    NumbersOfOneTwoThree(input);
    NotBlank(input);
    AddOfList(input, [1, 2, 3], 6);
    NumbersOfThreeTwoOne(reversed);
    NotBlank(reversed);
    AddOfList(reversed, [3, 2, 1], 6);
  }

  lemma {:induction false} NumbersOfOneTwoThree(input: string)
    requires input == "1+2+3"
    ensures CreateNumbersList(input, AddDelimiter) == [1, 2, 3]
  {
    assert Numerals([1, 2, 3]) == ["1", "2", "3"];
    assert Join(["1", "2", "3"], AddDelimiter) == input;
    CreateNumbersListOfNumerals([1, 2, 3], AddDelimiter);
  }

  lemma {:induction false} NumbersOfThreeTwoOne(input: string)
    requires input == "3+2+1"
    ensures CreateNumbersList(input, AddDelimiter) == [3, 2, 1]
  {
    assert Numerals([3, 2, 1]) == ["3", "2", "1"];
    assert Join(["3", "2", "1"], AddDelimiter) == input;
    CreateNumbersListOfNumerals([3, 2, 1], AddDelimiter);
  }

  /** A decimal token is not an integer and is dropped. */
  lemma {:induction false} DecimalTokenIsDropped(input: string)
    requires input == "1.5+2"
    ensures AddResult(Some(input)) == Success(2)
  {
    NumbersOfDecimal(input);
    NotBlank(input);
    AddOfList(input, [2], 2);
  }

  lemma {:induction false} NumbersOfDecimal(input: string)
    requires input == "1.5+2"
    ensures CreateNumbersList(input, AddDelimiter) == [2]
  {
    assert Join(["1.5", "2"], AddDelimiter) == input;
    SplitJoin(["1.5", "2"], AddDelimiter);
    RejectsForeignCharacter("1.5", 1);
    assert Numerals([2]) == ["2"];
    DropFirst("1.5", "2", 2);
  }

  /** The number list of the tokens [a, b] with `a` unparsable is that of [b]. */
  lemma {:induction false} DropFirst(a: string, b: string, vb: int)
    requires !CanParse(a)
    requires Numerals([vb]) == [b] && IsInt32(vb)
    ensures ParsedNumbers([a, b]) == [vb]
  {
    UnparsableTokenDropped([], a, [b]);
    assert [] + [a] + [b] == [a, b];
    assert [] + [b] == [b];
    ParsedNumbersOfNumerals([vb]);
  }

  /**
   * A token one past `int.MaxValue` does not parse (TryParse reports an
   * overflow as a failure) and is dropped, rather than wrapping around.
   */
  lemma {:induction false} OutOfRangeTokenIsDropped(input: string)
    requires input == "2147483648+1"
    ensures AddResult(Some(input)) == Success(1)
  {
    NumbersOfOutOfRange(input);
    NotBlank(input);
    AddOfList(input, [1], 1);
  }

  lemma {:induction false} NumbersOfOutOfRange(input: string)
    requires input == "2147483648+1"
    ensures CreateNumbersList(input, AddDelimiter) == [1]
  {
    var big := input[..10];
    assert Join([big, "1"], AddDelimiter) == input;
    SplitJoin([big, "1"], AddDelimiter);
    OnePastMaxValue(big);
    AboveRangeRejected(big);
    assert Numerals([1]) == ["1"];
    DropFirst(big, "1", 1);
  }

  /** The digits of `int.MaxValue + 1`, read one prefix at a time. */
  lemma {:induction false} OnePastMaxValue(t: string)
    requires t == "2147483648"
    ensures t != [] && AllDigits(t) && DigitsValue(t) == MaxValue + 1
  {
    FirstFiveDigits(t);
    LastFiveDigits(t);
    assert t[..10] == t;
  }

  lemma {:induction false} FirstFiveDigits(t: string)
    requires t == "2147483648"
    ensures AllDigits(t) && DigitsValue(t[..5]) == 21474
  {
    assert t[..0] == [];
    PrefixStep(t, 1);
    PrefixStep(t, 2);
    PrefixStep(t, 3);
    PrefixStep(t, 4);
    PrefixStep(t, 5);
  }

  lemma {:induction false} LastFiveDigits(t: string)
    requires t == "2147483648"
    requires AllDigits(t) && DigitsValue(t[..5]) == 21474
    ensures DigitsValue(t[..10]) == 2147483648
  {
    PrefixStep(t, 6);
    PrefixStep(t, 7);
    PrefixStep(t, 8);
    PrefixStep(t, 9);
    PrefixStep(t, 10);
  }

  /** Reading one more digit of `t` multiplies the value so far by ten and adds that digit. */
  lemma {:induction false} PrefixStep(t: string, k: int)
    requires 0 < k <= |t| && AllDigits(t)
    ensures AllDigits(t[..k]) && AllDigits(t[..k - 1])
    ensures DigitsValue(t[..k]) == 10 * DigitsValue(t[..k - 1]) + DigitValue(t[k - 1])
  {
    assert t[..k][..k - 1] == t[..k - 1];
  }
}
