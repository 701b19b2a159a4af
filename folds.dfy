/**
 * The two reductions of a number list: addition from the identity 0 and
 * multiplication from the identity 1, over exact integers.
 */
module Folds {

  function Sum(s: seq<int>): int {
    if s == [] then 0 else s[0] + Sum(s[1..])
  }

  function Product(s: seq<int>): int {
    if s == [] then 1 else s[0] * Product(s[1..])
  }

  /** Sum is a homomorphism from concatenation to addition. */
  lemma {:induction false} SumConcat(a: seq<int>, b: seq<int>)
    ensures Sum(a + b) == Sum(a) + Sum(b)
  {
    if a == [] {
      assert a + b == b;
    } else {
      assert (a + b)[1..] == a[1..] + b;
      SumConcat(a[1..], b);
    }
  }

  /** Product is a homomorphism from concatenation to multiplication. */
  lemma {:induction false} ProductConcat(a: seq<int>, b: seq<int>)
    ensures Product(a + b) == Product(a) * Product(b)
  {
    if a == [] {
      assert a + b == b;
    } else {
      assert (a + b)[1..] == a[1..] + b;
      ProductConcat(a[1..], b);
      assert Product(a + b) == a[0] * (Product(a[1..]) * Product(b));
    }
  }

  /** Extending a list by one element adds that element to the sum. */
  lemma {:induction false} SumSnoc(s: seq<int>, x: int)
    ensures Sum(s + [x]) == Sum(s) + x
  {
    SumConcat(s, [x]);
  }

  /** Extending a list by one element multiplies the product by it. */
  lemma {:induction false} ProductSnoc(s: seq<int>, x: int)
    ensures Product(s + [x]) == Product(s) * x
  {
    ProductConcat(s, [x]);
  }

  /** Removing the element that matches `a[0]` from `b` keeps the two lists permutations of each other. */
  lemma {:induction false} RemoveMatching(a: seq<int>, b: seq<int>, j: int)
    requires multiset(a) == multiset(b) && a != []
    requires 0 <= j < |b| && b[j] == a[0]
    ensures multiset(a[1..]) == multiset(b[..j] + b[j + 1..])
  {
    assert b == b[..j] + [b[j]] + b[j + 1..];
    assert a == [a[0]] + a[1..];
    assert multiset(b) == multiset(b[..j]) + multiset{b[j]} + multiset(b[j + 1..]);
    assert multiset(a) == multiset{a[0]} + multiset(a[1..]);
    assert multiset(b[..j] + b[j + 1..]) == multiset(b[..j]) + multiset(b[j + 1..]);
    assert multiset(a[1..]) == multiset(a) - multiset{a[0]};
  }

  /** Sum of a list split around position `j`. */
  lemma {:induction false} SumAround(b: seq<int>, j: int)
    requires 0 <= j < |b|
    ensures Sum(b) == b[j] + Sum(b[..j] + b[j + 1..])
  {
    assert b == (b[..j] + [b[j]]) + b[j + 1..];
    SumConcat(b[..j] + [b[j]], b[j + 1..]);
    SumConcat(b[..j], [b[j]]);
    SumConcat(b[..j], b[j + 1..]);
  }

  /** Product of a list split around position `j`. */
  lemma {:induction false} ProductAround(b: seq<int>, j: int)
    requires 0 <= j < |b|
    ensures Product(b) == b[j] * Product(b[..j] + b[j + 1..])
  {
    assert b == (b[..j] + [b[j]]) + b[j + 1..];
    ProductConcat(b[..j] + [b[j]], b[j + 1..]);
    ProductConcat(b[..j], [b[j]]);
    ProductConcat(b[..j], b[j + 1..]);
    var p, x, q := Product(b[..j]), b[j], Product(b[j + 1..]);
    assert Product(b) == (p * x) * q;
    assert Product(b[..j] + b[j + 1..]) == p * q;
    MulRotate(p, x, q);
  }

  lemma {:induction false} MulRotate(p: int, x: int, q: int)
    ensures (p * x) * q == x * (p * q)
  {
  }

  /** The sum does not depend on the order of the numbers. */
  lemma {:induction false} SumPermutation(a: seq<int>, b: seq<int>)
    requires multiset(a) == multiset(b)
    ensures Sum(a) == Sum(b)
  {
    if a != [] {
      assert a[0] in multiset(b);
      var j :| 0 <= j < |b| && b[j] == a[0];
      RemoveMatching(a, b, j);
      SumPermutation(a[1..], b[..j] + b[j + 1..]);
      SumAround(b, j);
    }
  }

  /** The product does not depend on the order of the numbers. */
  lemma {:induction false} ProductPermutation(a: seq<int>, b: seq<int>)
    requires multiset(a) == multiset(b)
    ensures Product(a) == Product(b)
  {
    if a != [] {
      assert a[0] in multiset(b);
      var j :| 0 <= j < |b| && b[j] == a[0];
      RemoveMatching(a, b, j);
      ProductPermutation(a[1..], b[..j] + b[j + 1..]);
      ProductAround(b, j);
    }
  }
}
