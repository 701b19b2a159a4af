/**
 * `Int32.TryParse(string, out int)` under the invariant culture, which is
 * also what `Convert.ToInt32(string)` computes for every token that
 * `TryParse` accepts: `NumberStyles.Integer`, i.e. optional leading and
 * trailing white space, an optional `+` or `-` sign, then one or more
 * decimal digits whose value lies in the 32-bit range.
 */
module Int32Parse {
  import opened Wrappers
  import opened Int32Arith

  /** The white space that `NumberStyles.AllowLeadingWhite` and `AllowTrailingWhite` skip. */
  predicate IsNumberWhite(c: char) {
    ('\t' <= c <= '\r') || c == ' '
  }

  predicate IsDigit(c: char) {
    '0' <= c <= '9'
  }

  predicate AllDigits(s: string) {
    forall i :: 0 <= i < |s| ==> IsDigit(s[i])
  }

  predicate AllNumberWhite(s: string) {
    forall i :: 0 <= i < |s| ==> IsNumberWhite(s[i])
  }

  function DigitValue(c: char): nat
    requires IsDigit(c)
  {
    (c as int) - ('0' as int)
  }

  /** The value of a string of decimal digits, most significant first. */
  function DigitsValue(ds: string): nat
    requires AllDigits(ds)
  {
    if ds == [] then 0 else 10 * DigitsValue(ds[..|ds| - 1]) + DigitValue(ds[|ds| - 1])
  }

  /** Drops the leading white space. */
  function TrimStart(s: string): (r: string)
    ensures |r| <= |s|
  {
    if s != [] && IsNumberWhite(s[0]) then TrimStart(s[1..]) else s
  }

  /** What `TrimStart` drops is white space, and what it keeps is a suffix that does not start with any. */
  lemma {:induction false} TrimStartSpec(s: string)
    ensures TrimStart(s) == s[|s| - |TrimStart(s)|..]
    ensures AllNumberWhite(s[..|s| - |TrimStart(s)|])
    ensures TrimStart(s) == [] || !IsNumberWhite(TrimStart(s)[0])
  {
    if s != [] && IsNumberWhite(s[0]) {
      TrimStartSpec(s[1..]);
      var k := |s| - |TrimStart(s)|;
      assert s[..k] == [s[0]] + s[1..][..k - 1];
    }
  }

  /** Drops the trailing white space. */
  function TrimEnd(s: string): (r: string)
    ensures |r| <= |s|
  {
    if s != [] && IsNumberWhite(s[|s| - 1]) then TrimEnd(s[..|s| - 1]) else s
  }

  /** What `TrimEnd` drops is white space, and what it keeps is a prefix that does not end with any. */
  lemma {:induction false} TrimEndSpec(s: string)
    ensures TrimEnd(s) == s[..|TrimEnd(s)|]
    ensures AllNumberWhite(s[|TrimEnd(s)|..])
    ensures TrimEnd(s) == [] || !IsNumberWhite(TrimEnd(s)[|TrimEnd(s)| - 1])
  {
    if s != [] && IsNumberWhite(s[|s| - 1]) {
      var n := |s| - 1;
      TrimEndSpec(s[..n]);
      var k := |TrimEnd(s)|;
      assert s[k..] == s[..n][k..] + [s[n]];
    }
  }

  /** `Int32.TryParse(s, out v)`: `Some(v)` when it returns true, `None` when it returns false. */
  function TryParseInt32(s: string): (r: Option<int>)
    ensures r.Some? ==> IsInt32(r.value)
  {
    ParseLiteral(TrimEnd(TrimStart(s)))
  }

  predicate IsSign(c: char) {
    c == '+' || c == '-'
  }

  /** What is left between the white space: an optional sign, then digits in the 32-bit range. */
  function ParseLiteral(t: string): (r: Option<int>)
    ensures r.Some? ==> IsInt32(r.value)
  {
    var signed := |t| > 0 && IsSign(t[0]);
    var digits := if signed then t[1..] else t;
    if digits == [] || !AllDigits(digits) then None
    else
      var magnitude: int := DigitsValue(digits);
      var v := if signed && t[0] == '-' then -magnitude else magnitude;
      if IsInt32(v) then Some(v) else None
  }

  /** An accepted literal is an optional sign followed by at least one digit. */
  lemma {:induction false} LiteralCharacters(t: string)
    requires ParseLiteral(t).Some?
    ensures |t| > 0 && IsDigit(t[|t| - 1])
    ensures forall i :: 0 <= i < |t| ==> IsDigit(t[i]) || (i == 0 && IsSign(t[i]))
  {
    var signed := |t| > 0 && IsSign(t[0]);
    var digits := if signed then t[1..] else t;
    assert digits[|digits| - 1] == t[|t| - 1];
    forall i | 0 <= i < |t|
      ensures IsDigit(t[i]) || (i == 0 && IsSign(t[i]))
    {
      if signed && i > 0 {
        assert t[i] == digits[i - 1];
      } else if !signed {
        assert t[i] == digits[i];
      }
    }
  }

  /** The characters `TryParse` can accept anywhere in a token. */
  predicate IsNumberChar(c: char) {
    IsDigit(c) || IsNumberWhite(c) || IsSign(c)
  }

  /** White space around a literal adds only number characters. */
  lemma {:induction false} PaddedLiteralChars(s: string, pre: string, t: string, post: string)
    requires s == pre + t + post
    requires AllNumberWhite(pre) && AllNumberWhite(post)
    requires forall i :: 0 <= i < |t| ==> IsDigit(t[i]) || IsSign(t[i])
    ensures forall i :: 0 <= i < |s| ==> IsNumberChar(s[i])
  {
    forall i | 0 <= i < |s|
      ensures IsNumberChar(s[i])
    {
      if i < |pre| {
        assert s[i] == pre[i];
      } else if i < |pre| + |t| {
        assert s[i] == t[i - |pre|];
      } else {
        assert s[i] == post[i - |pre| - |t|];
      }
    }
  }

  /** A string is the literal that trimming leaves, with white space on either side. */
  lemma {:induction false} TrimmedParts(s: string) returns (pre: string, post: string)
    ensures s == pre + TrimEnd(TrimStart(s)) + post
    ensures AllNumberWhite(pre) && AllNumberWhite(post)
  {
    var u := TrimStart(s);
    var t := TrimEnd(u);
    TrimStartSpec(s);
    TrimEndSpec(u);
    var k := |s| - |u|;
    pre, post := s[..k], u[|t|..];
    assert s == s[..k] + s[k..];
    assert u == u[..|t|] + u[|t|..];
  }

  /**
   * A token that `TryParse` accepts holds a digit and nothing but digits,
   * signs and white space; so a decimal point, a letter or an empty token
   * makes it fail.
   */
  lemma {:induction false} AcceptedCharacters(s: string)
    requires TryParseInt32(s).Some?
    ensures forall i :: 0 <= i < |s| ==> IsNumberChar(s[i])
    ensures exists i :: 0 <= i < |s| && IsDigit(s[i])
  {
    var t := TrimEnd(TrimStart(s));
    var pre, post := TrimmedParts(s);
    LiteralCharacters(t);
    PaddedLiteralChars(s, pre, t, post);
    assert s[|pre| + |t| - 1] == t[|t| - 1];
  }

  /**
   * The converse of `ParseGrammar`: every accepted token is white space, an
   * optional sign, one or more digits and white space, in that order.
   */
  lemma {:induction false} AcceptedIsGrammar(s: string) returns (pre: string, sign: string, ds: string, post: string)
    requires TryParseInt32(s).Some?
    ensures AllNumberWhite(pre) && AllNumberWhite(post)
    ensures sign == "" || sign == "+" || sign == "-"
    ensures ds != [] && AllDigits(ds)
    ensures s == pre + sign + ds + post
  {
    var t := TrimEnd(TrimStart(s));
    pre, post := TrimmedParts(s);
    sign, ds := LiteralParts(t);
    assert pre + t + post == pre + sign + ds + post;
  }

  /** An accepted literal splits into its optional sign and its digits. */
  lemma {:induction false} LiteralParts(t: string) returns (sign: string, ds: string)
    requires ParseLiteral(t).Some?
    ensures sign == "" || sign == "+" || sign == "-"
    ensures ds != [] && AllDigits(ds)
    ensures t == sign + ds
  {
    if |t| > 0 && IsSign(t[0]) {
      sign, ds := [t[0]], t[1..];
    } else {
      sign, ds := "", t;
    }
  }

  /** A character other than a digit, a sign or white space, such as a decimal point, makes the parse fail. */
  lemma {:induction false} RejectsForeignCharacter(s: string, i: int)
    requires 0 <= i < |s|
    requires !IsNumberChar(s[i])
    ensures TryParseInt32(s) == None
  {
    if TryParseInt32(s).Some? {
      AcceptedCharacters(s);
    }
  }

  function DigitChar(n: nat): (c: char)
    requires n < 10
    ensures IsDigit(c) && DigitValue(c) == n
  {
    ('0' as int + n) as char
  }

  /** The decimal rendering of `n`, as `n.ToString()` gives it. */
  function FormatNat(n: nat): (s: string)
    ensures s != [] && AllDigits(s)
  {
    if n < 10 then [DigitChar(n)] else FormatNat(n / 10) + [DigitChar(n % 10)]
  }

  function FormatInt(n: int): (s: string) {
    if n < 0 then "-" + FormatNat(-n) else FormatNat(n)
  }

  /** Reading back the decimal rendering of a natural number gives the number. */
  lemma {:induction false} DigitsValueFormat(n: nat)
    ensures DigitsValue(FormatNat(n)) == n
  {
    if n >= 10 {
      DigitsValueFormat(n / 10);
      var s := FormatNat(n);
      assert s[..|s| - 1] == FormatNat(n / 10);
    }
  }

  /** The rendering has no white space to trim. */
  lemma {:induction false} FormatIntTrimmed(n: int)
    ensures TrimEnd(TrimStart(FormatInt(n))) == FormatInt(n)
  {
    var s := FormatInt(n);
    var m := if n < 0 then -n else n;
    var ds := FormatNat(m);
    assert s == if n < 0 then "-" + ds else ds;
    assert IsDigit(ds[0]) && IsDigit(ds[|ds| - 1]);
    assert s[0] == '-' || s[0] == ds[0];
    assert s[|s| - 1] == ds[|ds| - 1];
  }

  /** The rendering is an accepted literal with the rendered value. */
  lemma {:induction false} ParseLiteralFormat(n: int)
    requires IsInt32(n)
    ensures ParseLiteral(FormatInt(n)) == Some(n)
  {
    var s := FormatInt(n);
    var m := if n < 0 then -n else n;
    var ds := FormatNat(m);
    DigitsValueFormat(m);
    if n < 0 {
      assert s[1..] == ds;
    } else {
      assert !IsSign(ds[0]);
    }
  }

  /** `TryParse` accepts the decimal rendering of every 32-bit integer and returns that integer. */
  lemma {:induction false} ParseFormat(n: int)
    requires IsInt32(n)
    ensures TryParseInt32(FormatInt(n)) == Some(n)
  {
    FormatIntTrimmed(n);
    ParseLiteralFormat(n);
  }

  /** Leading white space is skipped. */
  lemma {:induction false} TrimStartPadded(pre: string, s: string)
    requires AllNumberWhite(pre)
    ensures TrimStart(pre + s) == TrimStart(s)
  {
    if pre != [] {
      assert (pre + s)[1..] == pre[1..] + s;
      TrimStartPadded(pre[1..], s);
    } else {
      assert pre + s == s;
    }
  }

  /** Trailing white space is skipped. */
  lemma {:induction false} TrimEndPadded(s: string, post: string)
    requires AllNumberWhite(post)
    ensures TrimEnd(s + post) == TrimEnd(s)
  {
    if post != [] {
      assert (s + post)[..|s + post| - 1] == s + post[..|post| - 1];
      TrimEndPadded(s, post[..|post| - 1]);
    } else {
      assert s + post == s;
    }
  }

  /** Trimming the front of a string with white space behind it. */
  lemma {:induction false} TrimStartThenPad(s: string, post: string)
    requires AllNumberWhite(post)
    ensures TrimStart(s + post) == if TrimStart(s) == [] then [] else TrimStart(s) + post
  {
    if s == [] {
      assert s + post == post;
      TrimStartPadded(post, []);
      assert post + [] == post;
    } else if IsNumberWhite(s[0]) {
      assert (s + post)[1..] == s[1..] + post;
      TrimStartThenPad(s[1..], post);
    }
  }

  /** White space around a token does not change what `TryParse` makes of it. */
  lemma {:induction false} PaddingIgnored(pre: string, s: string, post: string)
    requires AllNumberWhite(pre) && AllNumberWhite(post)
    ensures TryParseInt32(pre + s + post) == TryParseInt32(s)
  {
    assert pre + s + post == pre + (s + post);
    TrimStartPadded(pre, s + post);
    TrimStartThenPad(s, post);
    if TrimStart(s) != [] {
      TrimEndPadded(TrimStart(s), post);
    }
  }

  /** A sign, if any, followed by digits has nothing to trim. */
  lemma {:induction false} SignedDigitsTrimmed(sign: string, ds: string)
    requires sign == "" || sign == "+" || sign == "-"
    requires ds != [] && AllDigits(ds)
    ensures TrimEnd(TrimStart(sign + ds)) == sign + ds
  {
    var t := sign + ds;
    assert t[|t| - 1] == ds[|ds| - 1];
    assert t[0] == if sign == "" then ds[0] else sign[0];
  }

  /** An unpadded literal: an optional sign and digits parse to their signed value when it is in range. */
  lemma {:induction false} SignedLiteral(sign: string, ds: string)
    requires sign == "" || sign == "+" || sign == "-"
    requires ds != [] && AllDigits(ds)
    ensures var v := if sign == "-" then -(DigitsValue(ds) as int) else DigitsValue(ds) as int;
      TryParseInt32(sign + ds) == if IsInt32(v) then Some(v) else None
  {
    var t := sign + ds;
    SignedDigitsTrimmed(sign, ds);
    assert !IsSign(ds[0]);
    if sign != "" {
      assert t[0] == sign[0] && t[1..] == ds;
    } else {
      assert t == ds;
    }
  }

  /**
   * The whole grammar `TryParse` accepts: white space, an optional sign,
   * one or more digits and white space. The result is the signed value of
   * the digits (leading zeros included) when it lies in the 32-bit range,
   * and a failure when it does not.
   */
  lemma {:induction false} ParseGrammar(pre: string, sign: string, ds: string, post: string)
    requires AllNumberWhite(pre) && AllNumberWhite(post)
    requires sign == "" || sign == "+" || sign == "-"
    requires ds != [] && AllDigits(ds)
    ensures var v := if sign == "-" then -(DigitsValue(ds) as int) else DigitsValue(ds) as int;
      TryParseInt32(pre + sign + ds + post) == if IsInt32(v) then Some(v) else None
  {
    assert pre + sign + ds + post == pre + (sign + ds) + post;
    PaddingIgnored(pre, sign + ds, post);
    SignedLiteral(sign, ds);
  }

  /** A digit string whose value exceeds `int.MaxValue` is rejected. */
  lemma {:induction false} AboveRangeRejected(ds: string)
    requires ds != [] && AllDigits(ds)
    requires DigitsValue(ds) > MaxValue
    ensures TryParseInt32(ds) == None
  {
    SignedLiteral("", ds);
    assert "" + ds == ds;
  }

  /** The same digits behind a `+` sign are rejected too. */
  lemma {:induction false} PlusAboveRangeRejected(ds: string)
    requires ds != [] && AllDigits(ds)
    requires DigitsValue(ds) > MaxValue
    ensures TryParseInt32("+" + ds) == None
  {
    SignedLiteral("+", ds);
  }

  /** A negative literal whose value is below `int.MinValue` is rejected. */
  lemma {:induction false} BelowRangeRejected(ds: string)
    requires ds != [] && AllDigits(ds)
    requires -(DigitsValue(ds) as int) < MinValue
    ensures TryParseInt32("-" + ds) == None
  {
    SignedLiteral("-", ds);
  }
}
