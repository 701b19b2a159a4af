/**
 * The `StringCalculator` façade: `Add` builds an `AddCalculation`,
 * `Multiply` a `MultiplyCalculation`, and each returns its `Calculate()`.
 * An `ArgumentException` from the constructor propagates to the caller.
 */
module Calculator {
  import opened Wrappers
  import opened Int32Arith
  import opened Folds
  import opened Text
  import opened Int32Parse
  import opened Calculations

  /** What `Add(expression)` returns or throws. */
  function AddResult(expression: Option<string>): (r: Result<int, ArgumentException>)
    ensures r.Failure? <==> IsNullOrWhiteSpace(expression)
    ensures r.Success? ==> IsInt32(r.value) && Congruent(r.value, Sum(CreateNumbersList(expression.value, AddDelimiter)))
  {
    if IsNullOrWhiteSpace(expression) then Failure(ArgumentException(BlankExpressionMessage))
    else Success(Wrap(Sum(CreateNumbersList(expression.value, AddDelimiter))))
  }

  /** What `Multiply(expression)` returns or throws. */
  function MultiplyResult(expression: Option<string>): (r: Result<int, ArgumentException>)
    ensures r.Failure? <==> IsNullOrWhiteSpace(expression)
    ensures r.Success? ==> IsInt32(r.value) && Congruent(r.value, Product(CreateNumbersList(expression.value, MultiplyDelimiter)))
  {
    if IsNullOrWhiteSpace(expression) then Failure(ArgumentException(BlankExpressionMessage))
    else Success(Wrap(Product(CreateNumbersList(expression.value, MultiplyDelimiter))))
  }

  class StringCalculator {

    constructor () {
    }

    method Add(expression: Option<string>) returns (r: Result<int, ArgumentException>)
      ensures r == AddResult(expression)
    {
      var calculation := AddCalculation.New(expression);
      if calculation.Failure? {
        return Failure(calculation.error);
      }
      var sum := calculation.value.Calculate();
      return Success(sum);
    }

    method Multiply(expression: Option<string>) returns (r: Result<int, ArgumentException>)
      ensures r == MultiplyResult(expression)
    {
      var calculation := MultiplyCalculation.New(expression);
      if calculation.Failure? {
        return Failure(calculation.error);
      }
      var product := calculation.value.Calculate();
      return Success(product);
    }
  }

  /** A joined list of renderings starts with a digit or a minus sign, so it is not blank. */
  lemma {:induction false} NumeralsNotBlank(ns: seq<int>, d: char)
    requires |ns| >= 1
    ensures !IsNullOrWhiteSpace(Some(Join(Numerals(ns), d)))
  {
    var ts := Numerals(ns);
    RenderingStart(ns[0]);
    JoinStart(ts, d);
  }

  /** The rendering of a number starts with a digit or a minus sign. */
  lemma {:induction false} RenderingStart(n: int)
    ensures FormatInt(n) != [] && !IsWhiteSpace(FormatInt(n)[0])
  {
    var ds := FormatNat(if n < 0 then -n else n);
    assert IsDigit(ds[0]);
  }

  /** A join starts with its first piece. */
  lemma {:induction false} JoinStart(ts: seq<string>, d: char)
    requires |ts| >= 1 && ts[0] != []
    ensures Join(ts, d) != [] && Join(ts, d)[0] == ts[0][0]
  {
    if |ts| > 1 {
      assert Join(ts, d) == ts[0] + ([d] + Join(ts[1..], d));
    }
  }

  /** `Add` over the rendering of 32-bit numbers returns their wrapped sum. */
  lemma {:induction false} AddOfNumerals(ns: seq<int>)
    requires |ns| >= 1
    requires forall i :: 0 <= i < |ns| ==> IsInt32(ns[i])
    ensures AddResult(Some(Join(Numerals(ns), AddDelimiter))) == Success(Wrap(Sum(ns)))
  {
    NumeralsNotBlank(ns, AddDelimiter);
    CreateNumbersListOfNumerals(ns, AddDelimiter);
  }

  /** `Multiply` over the rendering of 32-bit numbers returns their wrapped product. */
  lemma {:induction false} MultiplyOfNumerals(ns: seq<int>)
    requires |ns| >= 1
    requires forall i :: 0 <= i < |ns| ==> IsInt32(ns[i])
    ensures MultiplyResult(Some(Join(Numerals(ns), MultiplyDelimiter))) == Success(Wrap(Product(ns)))
  {
    NumeralsNotBlank(ns, MultiplyDelimiter);
    CreateNumbersListOfNumerals(ns, MultiplyDelimiter);
  }

  /** Two expressions whose number lists are permutations of each other give the same `Add` result. */
  lemma {:induction false} AddIgnoresOrder(e1: string, e2: string)
    requires multiset(CreateNumbersList(e1, AddDelimiter)) == multiset(CreateNumbersList(e2, AddDelimiter))
    requires IsNullOrWhiteSpace(Some(e1)) == IsNullOrWhiteSpace(Some(e2))
    ensures AddResult(Some(e1)) == AddResult(Some(e2))
  {
    SumPermutation(CreateNumbersList(e1, AddDelimiter), CreateNumbersList(e2, AddDelimiter));
  }

  /** Two expressions whose number lists are permutations of each other give the same `Multiply` result. */
  lemma {:induction false} MultiplyIgnoresOrder(e1: string, e2: string)
    requires multiset(CreateNumbersList(e1, MultiplyDelimiter)) == multiset(CreateNumbersList(e2, MultiplyDelimiter))
    requires IsNullOrWhiteSpace(Some(e1)) == IsNullOrWhiteSpace(Some(e2))
    ensures MultiplyResult(Some(e1)) == MultiplyResult(Some(e2))
  {
    ProductPermutation(CreateNumbersList(e1, MultiplyDelimiter), CreateNumbersList(e2, MultiplyDelimiter));
  }

  /** A non-blank expression without a parsable `+`-token sums to 0. */
  lemma {:induction false} AddNoNumbersGivesZero(expression: string)
    requires !IsNullOrWhiteSpace(Some(expression))
    requires forall i :: 0 <= i < |Split(expression, AddDelimiter)| ==> !CanParse(Split(expression, AddDelimiter)[i])
    ensures AddResult(Some(expression)) == Success(0)
  {
    NoParsableTokens(Split(expression, AddDelimiter));
  }

  /** A non-blank expression without a parsable `*`-token multiplies to 1. */
  lemma {:induction false} MultiplyNoNumbersGivesOne(expression: string)
    requires !IsNullOrWhiteSpace(Some(expression))
    requires forall i :: 0 <= i < |Split(expression, MultiplyDelimiter)| ==> !CanParse(Split(expression, MultiplyDelimiter)[i])
    ensures MultiplyResult(Some(expression)) == Success(1)
  {
    NoParsableTokens(Split(expression, MultiplyDelimiter));
  }

  /** A null, empty or white-space expression makes both operations throw, and nothing else does. */
  lemma {:induction false} BlankExpressionThrows(expression: Option<string>)
    ensures AddResult(expression).Failure? <==> IsNullOrWhiteSpace(expression)
    ensures MultiplyResult(expression).Failure? <==> IsNullOrWhiteSpace(expression)
    ensures IsNullOrWhiteSpace(expression) ==>
      AddResult(expression) == MultiplyResult(expression) == Failure(ArgumentException(BlankExpressionMessage))
  {
  }
}
