// Go's int64: two's complement arithmetic modulo 2^64.
module Int64 {
  const MODULUS: int := 0x1_0000_0000_0000_0000
  const MIN: int := -0x8000_0000_0000_0000
  const MAX: int := 0x7fff_ffff_ffff_ffff

  predicate Fits(x: int) {
    MIN <= x <= MAX
  }

  type int64 = x: int | Fits(x) witness 0

  lemma MultipleOf(k: int)
    ensures (MODULUS * k) % MODULUS == 0
  {
  }

  /** The int64 value congruent to x modulo 2^64. */
  function Wrap(x: int): (r: int64)
    ensures Fits(x) ==> r == x
    ensures (r - x) % MODULUS == 0
  {
    var r := (x - MIN) % MODULUS + MIN;
    assert r - x == MODULUS * (-((x - MIN) / MODULUS));
    MultipleOf(-((x - MIN) / MODULUS));
    r
  }

  /** Congruent numbers have the same int64 value. */
  lemma WrapCongruent(x: int, y: int, k: int)
    requires x == y + MODULUS * k
    ensures Wrap(x) == Wrap(y)
  {
    var q, r := (y - MIN) / MODULUS, (y - MIN) % MODULUS;
    assert y - MIN == MODULUS * q + r;
    assert x - MIN == MODULUS * (q + k) + r;
  }

  /** Distance of a number from its int64 value, in units of 2^64. */
  function Turns(x: int): (k: int)
    ensures Wrap(x) == x + MODULUS * k
  {
    -((x - MIN) / MODULUS)
  }

  /** A sum may be wrapped early: intermediate wrap-around is invisible. */
  lemma WrapSum(x: int, y: int)
    ensures Wrap(Wrap(x) + Wrap(y)) == Wrap(x + y)
  {
    WrapCongruent(Wrap(x) + Wrap(y), x + y, Turns(x) + Turns(y));
  }

  /** A product may be wrapped early. */
  lemma WrapProduct(x: int, y: int)
    ensures Wrap(Wrap(x) * y) == Wrap(x * y)
  {
    var k := Turns(x);
    calc {
      Wrap(x) * y;
      (x + MODULUS * k) * y;
      x * y + (MODULUS * k) * y;
      x * y + MODULUS * (k * y);
    }
    WrapCongruent(Wrap(x) * y, x * y, k * y);
  }
}
