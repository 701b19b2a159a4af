/**
 * The two string operations of the .NET base library that the calculator
 * relies on: `String.IsNullOrWhiteSpace` and `String.Split(char)`.
 */
module Text {
  import opened Wrappers

  /**
   * `Char.IsWhiteSpace` restricted to the Latin-1 range: the control
   * characters U+0009 to U+000D, the space, NEXT LINE and NO-BREAK SPACE.
   */
  predicate IsWhiteSpace(c: char) {
    ('\t' <= c <= '\r') || c == ' ' || c == '\U{0085}' || c == '\U{00A0}'
  }

  /** True of a null string, the empty string and a string of white space only. */
  predicate IsNullOrWhiteSpace(s: Option<string>) {
    match s
    case None => true
    case Some(t) => forall i :: 0 <= i < |t| ==> IsWhiteSpace(t[i])
  }

  /**
   * `s.Split(d)`: the pieces of `s` between occurrences of `d`. There is
   * always one piece more than there are delimiters; pieces may be empty.
   */
  function Split(s: string, d: char): (r: seq<string>)
    ensures |r| >= 1
  {
    if s == [] then [""]
    else
      var rest := Split(s[1..], d);
      if s[0] == d then [""] + rest
      else [[s[0]] + rest[0]] + rest[1..]
  }

  /** There is one piece more than there are delimiters, and no piece holds a delimiter. */
  lemma {:induction false} SplitPieces(s: string, d: char)
    ensures |Split(s, d)| == multiset(s)[d] + 1
    ensures forall i :: 0 <= i < |Split(s, d)| ==> d !in Split(s, d)[i]
  {
    if s != [] {
      SplitPieces(s[1..], d);
      assert s == [s[0]] + s[1..];
      assert multiset(s) == multiset{s[0]} + multiset(s[1..]);
      var rest := Split(s[1..], d);
      var r := Split(s, d);
      if s[0] != d {
        assert r[0] == [s[0]] + rest[0];
        assert forall i :: 1 <= i < |r| ==> r[i] == rest[i];
      } else {
        assert forall i :: 1 <= i < |r| ==> r[i] == rest[i - 1];
      }
    }
  }

  /** `String.Join(d, ts)`: the pieces with one `d` between neighbours. */
  function Join(ts: seq<string>, d: char): string {
    if ts == [] then ""
    else if |ts| == 1 then ts[0]
    else ts[0] + [d] + Join(ts[1..], d)
  }

  /** Joining the pieces of a split gives back the original string. */
  lemma {:induction false} JoinSplit(s: string, d: char)
    ensures Join(Split(s, d), d) == s
  {
    if s != [] {
      var rest := Split(s[1..], d);
      JoinSplit(s[1..], d);
      if s[0] == d {
        assert Join(Split(s, d), d) == "" + [d] + Join(rest, d);
      } else if |rest| == 1 {
        assert Join(Split(s, d), d) == [s[0]] + rest[0];
      } else {
        assert Split(s, d)[1..] == rest[1..];
        assert Join(rest, d) == rest[0] + [d] + Join(rest[1..], d);
        assert Join(Split(s, d), d) == ([s[0]] + rest[0]) + [d] + Join(rest[1..], d);
      }
    }
  }

  /** A string without the delimiter is a single piece. */
  lemma {:induction false} SplitNoDelimiter(t: string, d: char)
    requires d !in t
    ensures Split(t, d) == [t]
  {
    if t != [] {
      SplitNoDelimiter(t[1..], d);
      assert t == [t[0]] + t[1..];
      assert Split(t, d) == [[t[0]] + t[1..]];
    }
  }

  /** A delimiter-free piece, the delimiter and a tail split into that piece followed by the tail's pieces. */
  lemma {:induction false} SplitCons(t: string, d: char, tail: string)
    requires d !in t
    ensures Split(t + [d] + tail, d) == [t] + Split(tail, d)
  {
    if t == [] {
      assert t + [d] + tail == [d] + tail;
      assert ([d] + tail)[1..] == tail;
    } else {
      SplitCons(t[1..], d, tail);
      assert t == [t[0]] + t[1..];
      var s := t + [d] + tail;
      assert s[0] == t[0] && s[1..] == t[1..] + [d] + tail;
      var rest := Split(s[1..], d);
      assert rest == [t[1..]] + Split(tail, d);
      assert Split(s, d) == [[t[0]] + rest[0]] + rest[1..];
    }
  }

  /** Splitting a join of delimiter-free pieces gives back the pieces. */
  lemma {:induction false} SplitJoin(ts: seq<string>, d: char)
    requires |ts| >= 1
    requires forall i :: 0 <= i < |ts| ==> d !in ts[i]
    ensures Split(Join(ts, d), d) == ts
  {
    if |ts| == 1 {
      SplitNoDelimiter(ts[0], d);
    } else {
      SplitJoin(ts[1..], d);
      SplitCons(ts[0], d, Join(ts[1..], d));
      assert ts == [ts[0]] + ts[1..];
    }
  }
}
