/**
 * The C# `int` type: 32-bit two's complement, with the unchecked
 * (wrap-around) semantics that `+=` and `*=` have by default.
 */
module Int32Arith {

  const MinValue: int := -0x8000_0000
  const MaxValue: int := 0x7FFF_FFFF
  const Modulus: int := 0x1_0000_0000

  predicate IsInt32(x: int) {
    MinValue <= x <= MaxValue
  }

  /** The 32-bit value an unchecked C# operation yields for the exact result `x`. */
  function Wrap(x: int): (r: int)
    ensures IsInt32(r)
    ensures Congruent(r, x)
    ensures IsInt32(x) ==> r == x
  {
    (x - MinValue) % Modulus + MinValue
  }

  /** `x` and `y` leave the same remainder modulo 2^32. */
  predicate Congruent(x: int, y: int) {
    (x - y) % Modulus == 0
  }

  lemma {:induction false} CongruentWitness(x: int, y: int) returns (k: int)
    requires Congruent(x, y)
    ensures x - y == Modulus * k
  {
    k := (x - y) / Modulus;
  }

  lemma {:induction false} MultipleIsCongruent(x: int, y: int, k: int)
    requires x - y == Modulus * k
    ensures Congruent(x, y)
  {
  }

  lemma {:induction false} CongruentTrans(x: int, y: int, z: int)
    requires Congruent(x, y) && Congruent(y, z)
    ensures Congruent(x, z)
  {
    var k := CongruentWitness(x, y);
    var l := CongruentWitness(y, z);
    MultipleIsCongruent(x, z, k + l);
  }

  /** Congruence is preserved by multiplying both sides by the same number. */
  lemma {:induction false} CongruentScale(x: int, y: int, b: int)
    requires Congruent(x, y)
    ensures Congruent(x * b, y * b)
  {
    var k := CongruentWitness(x, y);
    var j := k * b;
    assert x * b - y * b == (x - y) * b;
    assert (x - y) * b == Modulus * j;
    MultipleIsCongruent(x * b, y * b, j);
  }

  /** `Wrap(x)` is the only 32-bit value congruent to `x` modulo 2^32. */
  lemma {:induction false} WrapUnique(x: int, r: int)
    requires IsInt32(r)
    requires Congruent(r, x)
    ensures r == Wrap(x)
  {
    assert Congruent(Wrap(x), x);
    var k := CongruentWitness(r, x);
    var l := CongruentWitness(Wrap(x), x);
    assert r - Wrap(x) == Modulus * (k - l);
  }

  /** Wrapping an intermediate sum does not change the wrapped final sum. */
  lemma {:induction false} WrapAdd(a: int, b: int)
    ensures Wrap(Wrap(a) + b) == Wrap(a + b)
  {
    var w := Wrap(Wrap(a) + b);
    var k := CongruentWitness(w, Wrap(a) + b);
    var l := CongruentWitness(Wrap(a), a);
    MultipleIsCongruent(w, a + b, k + l);
    WrapUnique(a + b, w);
  }

  /** Wrapping an intermediate product does not change the wrapped final product. */
  lemma {:induction false} WrapMul(a: int, b: int)
    ensures Wrap(Wrap(a) * b) == Wrap(a * b)
  {
    var w := Wrap(Wrap(a) * b);
    assert Congruent(Wrap(a), a);
    CongruentScale(Wrap(a), a, b);
    assert Congruent(w, Wrap(a) * b);
    CongruentTrans(w, Wrap(a) * b, a * b);
    WrapUnique(a * b, w);
  }
}
