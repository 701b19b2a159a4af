/**
 * `NumberCalculation` and its two variants. The base class's constructor
 * rejects a blank expression, fixes the delimiter and keeps, in order, the
 * value of every token that parses as a 32-bit integer; each variant folds
 * that list with its own operator in unchecked 32-bit arithmetic.
 */
module Calculations {
  import opened Wrappers
  import opened Int32Arith
  import opened Folds
  import opened Text
  import opened Int32Parse

  /** The exception the constructor throws for a null or blank expression. */
  datatype ArgumentException = ArgumentException(message: string)

  const BlankExpressionMessage: string := "Expression should not be null or empty."

  const AddDelimiter: char := '+'
  const MultiplyDelimiter: char := '*'

  /** `CanParse(t)`: whether `Int32.TryParse` accepts the token. */
  predicate CanParse(t: string) {
    TryParseInt32(t).Some?
  }

  /** Every token tried by the parser, position by position. */
  function TryParseEach(tokens: seq<string>): (parsed: seq<Option<int>>)
    ensures |parsed| == |tokens|
    ensures forall i :: 0 <= i < |tokens| ==> parsed[i] == TryParseInt32(tokens[i])
  {
    if tokens == [] then []
    else TryParseEach(tokens[..|tokens| - 1]) + [TryParseInt32(tokens[|tokens| - 1])]
  }

  /** The values of the successful parses, in order: what `Where` keeps and `Select` converts. */
  function Values(parsed: seq<Option<int>>): (r: seq<int>)
    ensures |r| <= |parsed|
  {
    if parsed == [] then []
    else
      var n := |parsed| - 1;
      Values(parsed[..n]) + if parsed[n].Some? then [parsed[n].value] else []
  }

  /** `tokens.Where(CanParse).Select(Convert.ToInt32)`. */
  function ParsedNumbers(tokens: seq<string>): (r: seq<int>)
    ensures |r| <= |tokens|
  {
    Values(TryParseEach(tokens))
  }

  /** `CreateNumbersList`: split on the delimiter, then keep the parsable tokens' values. */
  function CreateNumbersList(expression: string, delimiter: char): (numbers: seq<int>)
    ensures |numbers| <= |Split(expression, delimiter)|
  {
    ParsedNumbers(Split(expression, delimiter))
  }

  /** There are no more numbers than tokens, that is, than delimiters plus one. */
  lemma {:induction false} NumbersBound(expression: string, delimiter: char)
    ensures |CreateNumbersList(expression, delimiter)| <= |Split(expression, delimiter)|
                                                     == multiset(expression)[delimiter] + 1
  {
    SplitPieces(expression, delimiter);
  }

  /**
   * The positions of the entries that `Values` keeps: ascending, exactly the
   * successful ones, and the k-th kept value is the k-th kept entry's value.
   */
  ghost function KeptPositions(parsed: seq<Option<int>>): (idx: seq<nat>)
    ensures |idx| == |Values(parsed)|
    ensures forall k :: 0 <= k < |idx| ==> idx[k] < |parsed| && parsed[idx[k]] == Some(Values(parsed)[k])
    ensures forall k, l :: 0 <= k < l < |idx| ==> idx[k] < idx[l]
    ensures forall i :: 0 <= i < |parsed| ==> (parsed[i].Some? <==> i in idx)
  {
    if parsed == [] then []
    else
      var n := |parsed| - 1;
      var front := parsed[..n];
      var rest := KeptPositions(front);
      assert forall i :: 0 <= i < n ==> parsed[i] == front[i];
      rest + if parsed[n].Some? then [n] else []
  }

  /**
   * The number list is exactly the converted subsequence of the parsable
   * tokens, in their order: the `idx[k]`-th token is the k-th one kept, the
   * kept positions ascend, and a token is kept if and only if it parses.
   */
  lemma {:induction false} ParsedNumbersIsFilter(tokens: seq<string>)
    ensures var idx := KeptPositions(TryParseEach(tokens));
      && |idx| == |ParsedNumbers(tokens)|
      && (forall k :: 0 <= k < |idx| ==>
            idx[k] < |tokens| && TryParseInt32(tokens[idx[k]]) == Some(ParsedNumbers(tokens)[k]))
      && (forall k, l :: 0 <= k < l < |idx| ==> idx[k] < idx[l])
      && (forall i :: 0 <= i < |tokens| ==> (CanParse(tokens[i]) <==> i in idx))
  {
    var parsed := TryParseEach(tokens);
    var idx := KeptPositions(parsed);
    assert forall i :: 0 <= i < |tokens| ==> parsed[i] == TryParseInt32(tokens[i]);
  }

  /** Every number in the list is a 32-bit integer. */
  lemma {:induction false} ParsedNumbersInRange(tokens: seq<string>)
    ensures forall k :: 0 <= k < |ParsedNumbers(tokens)| ==> IsInt32(ParsedNumbers(tokens)[k])
  {
    ParsedNumbersIsFilter(tokens);
  }

  /** Filtering distributes over concatenation. */
  lemma {:induction false} ValuesConcat(a: seq<Option<int>>, b: seq<Option<int>>)
    ensures Values(a + b) == Values(a) + Values(b)
  {
    if b == [] {
      assert a + b == a;
    } else {
      var n := |b| - 1;
      assert (a + b)[..|a + b| - 1] == a + b[..n];
      ValuesConcat(a, b[..n]);
    }
  }

  /** Trying every token distributes over concatenation. */
  lemma {:induction false} TryParseEachConcat(a: seq<string>, b: seq<string>)
    ensures TryParseEach(a + b) == TryParseEach(a) + TryParseEach(b)
  {
    if b == [] {
      assert a + b == a;
    } else {
      var m := |b| - 1;
      assert (a + b)[..|a + b| - 1] == a + b[..m];
      assert (a + b)[|a + b| - 1] == b[m];
      TryParseEachConcat(a, b[..m]);
    }
  }

  /** A failed parse contributes nothing to the values. */
  lemma {:induction false} ValuesSkipNone(pa: seq<Option<int>>, pb: seq<Option<int>>)
    ensures Values(pa + [None] + pb) == Values(pa + pb)
  {
    ValuesConcat(pa + [None], pb);
    ValuesConcat(pa, [None]);
    ValuesConcat(pa, pb);
    var dropped: seq<Option<int>> := [None];
    assert dropped[..0] == [];
  }

  /** A token that does not parse is dropped: it contributes nothing, not a zero. */
  lemma {:induction false} UnparsableTokenDropped(a: seq<string>, t: string, b: seq<string>)
    requires !CanParse(t)
    ensures ParsedNumbers(a + [t] + b) == ParsedNumbers(a + b)
  {
    var pa, pb := TryParseEach(a), TryParseEach(b);
    TryParseEachConcat(a + [t], b);
    TryParseEachConcat(a, [t]);
    TryParseEachConcat(a, b);
    assert TryParseEach([t]) == [None];
    ValuesSkipNone(pa, pb);
  }

  /** The number list is empty exactly when no token parses. */
  lemma {:induction false} NoParsableTokens(tokens: seq<string>)
    ensures ParsedNumbers(tokens) == [] <==> forall i :: 0 <= i < |tokens| ==> !CanParse(tokens[i])
  {
    ParsedNumbersIsFilter(tokens);
    var idx := KeptPositions(TryParseEach(tokens));
    if ParsedNumbers(tokens) != [] {
      assert idx[0] in idx;
    }
  }

  /** The decimal renderings of a list of numbers, one token per number. */
  function Numerals(ns: seq<int>): (ts: seq<string>)
    ensures |ts| == |ns|
    ensures forall i :: 0 <= i < |ns| ==> ts[i] == FormatInt(ns[i])
  {
    if ns == [] then []
    else Numerals(ns[..|ns| - 1]) + [FormatInt(ns[|ns| - 1])]
  }

  /** `Values` of a list of successes is the list of their values. */
  lemma {:induction false} ValuesOfSuccesses(parsed: seq<Option<int>>, ns: seq<int>)
    requires |parsed| == |ns|
    requires forall i :: 0 <= i < |ns| ==> parsed[i] == Some(ns[i])
    ensures Values(parsed) == ns
  {
    if ns != [] {
      var n := |ns| - 1;
      ValuesOfSuccesses(parsed[..n], ns[..n]);
      assert ns == ns[..n] + [ns[n]];
    }
  }

  /** No rendering contains a delimiter that is neither a digit nor a minus sign. */
  lemma {:induction false} NumeralsAvoid(ns: seq<int>, d: char)
    requires !IsDigit(d) && d != '-'
    ensures forall i :: 0 <= i < |ns| ==> d !in Numerals(ns)[i]
  {
    forall i | 0 <= i < |ns|
      ensures d !in Numerals(ns)[i]
    {
      var n := ns[i];
      var ds := FormatNat(if n < 0 then -n else n);
      assert Numerals(ns)[i] == if n < 0 then "-" + ds else ds;
    }
  }

  /** Parsing the renderings of 32-bit numbers gives back the numbers. */
  lemma {:induction false} ParsedNumbersOfNumerals(ns: seq<int>)
    requires forall i :: 0 <= i < |ns| ==> IsInt32(ns[i])
    ensures ParsedNumbers(Numerals(ns)) == ns
  {
    var ts := Numerals(ns);
    forall i | 0 <= i < |ns|
      ensures TryParseEach(ts)[i] == Some(ns[i])
    {
      ParseFormat(ns[i]);
    }
    ValuesOfSuccesses(TryParseEach(ts), ns);
  }

  /**
   * Rendering 32-bit numbers in decimal and joining them with a delimiter
   * that is neither a digit nor a minus sign gives an expression whose
   * number list is exactly those numbers.
   */
  lemma {:induction false} CreateNumbersListOfNumerals(ns: seq<int>, d: char)
    requires forall i :: 0 <= i < |ns| ==> IsInt32(ns[i])
    requires !IsDigit(d) && d != '-'
    ensures CreateNumbersList(Join(Numerals(ns), d), d) == ns
  {
    if ns == [] {
      SplitNoDelimiter("", d);
      assert TryParseEach([""]) == [None];
    } else {
      NumeralsAvoid(ns, d);
      SplitJoin(Numerals(ns), d);
      ParsedNumbersOfNumerals(ns);
    }
  }

  /** `AddCalculation`: a `NumberCalculation` with delimiter `+` that sums its numbers. */
  class AddCalculation {
    const Numbers: seq<int>
    const Delimiter: char

    /** The constructor past its guard: fixes the delimiter, then builds the number list. */
    constructor (expression: string)
      ensures Delimiter == AddDelimiter
      ensures Numbers == CreateNumbersList(expression, Delimiter)
    {
      Delimiter := AddDelimiter;
      Numbers := CreateNumbersList(expression, AddDelimiter);
    }

    /** `new AddCalculation(expression)`, including the `ArgumentException` for a blank expression. */
    static method New(expression: Option<string>) returns (r: Result<AddCalculation, ArgumentException>)
      ensures r.Failure? <==> IsNullOrWhiteSpace(expression)
      ensures r.Failure? ==> r.error == ArgumentException(BlankExpressionMessage)
      ensures r.Success? ==> fresh(r.value)
      ensures r.Success? ==> r.value.Delimiter == AddDelimiter
      ensures r.Success? ==> r.value.Numbers == CreateNumbersList(expression.value, AddDelimiter)
    {
      if IsNullOrWhiteSpace(expression) {
        return Failure(ArgumentException(BlankExpressionMessage));
      }
      var calculation := new AddCalculation(expression.value);
      return Success(calculation);
    }

    /** The sum of the numbers from 0, wrapped to 32 bits as unchecked `+=` does. */
    method Calculate() returns (result: int)
      ensures result == Wrap(Sum(Numbers))
    {
      result := 0;
      for i := 0 to |Numbers|
        invariant result == Wrap(Sum(Numbers[..i]))
      {
        assert Numbers[..i + 1] == Numbers[..i] + [Numbers[i]];
        SumSnoc(Numbers[..i], Numbers[i]);
        WrapAdd(Sum(Numbers[..i]), Numbers[i]);
        result := Wrap(result + Numbers[i]);
      }
      assert Numbers[..|Numbers|] == Numbers;
    }
  }

  /** `MultiplyCalculation`: a `NumberCalculation` with delimiter `*` that multiplies its numbers. */
  class MultiplyCalculation {
    const Numbers: seq<int>
    const Delimiter: char

    /** The constructor past its guard: fixes the delimiter, then builds the number list. */
    constructor (expression: string)
      ensures Delimiter == MultiplyDelimiter
      ensures Numbers == CreateNumbersList(expression, Delimiter)
    {
      Delimiter := MultiplyDelimiter;
      Numbers := CreateNumbersList(expression, MultiplyDelimiter);
    }

    /** `new MultiplyCalculation(expression)`, including the `ArgumentException` for a blank expression. */
    static method New(expression: Option<string>) returns (r: Result<MultiplyCalculation, ArgumentException>)
      ensures r.Failure? <==> IsNullOrWhiteSpace(expression)
      ensures r.Failure? ==> r.error == ArgumentException(BlankExpressionMessage)
      ensures r.Success? ==> fresh(r.value)
      ensures r.Success? ==> r.value.Delimiter == MultiplyDelimiter
      ensures r.Success? ==> r.value.Numbers == CreateNumbersList(expression.value, MultiplyDelimiter)
    {
      if IsNullOrWhiteSpace(expression) {
        return Failure(ArgumentException(BlankExpressionMessage));
      }
      var calculation := new MultiplyCalculation(expression.value);
      return Success(calculation);
    }

    /** The product of the numbers from 1, wrapped to 32 bits as unchecked `*=` does. */
    method Calculate() returns (result: int)
      ensures result == Wrap(Product(Numbers))
    {
      result := 1;
      for i := 0 to |Numbers|
        invariant result == Wrap(Product(Numbers[..i]))
      {
        assert Numbers[..i + 1] == Numbers[..i] + [Numbers[i]];
        ProductSnoc(Numbers[..i], Numbers[i]);
        WrapMul(Product(Numbers[..i]), Numbers[i]);
        result := Wrap(result * Numbers[i]);
      }
      assert Numbers[..|Numbers|] == Numbers;
    }
  }
}
