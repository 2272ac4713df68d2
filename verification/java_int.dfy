/**
 Java's integer division. Dafny's `/` is Euclidean (the remainder is never
 negative); Java's `/` on `int` and `long` truncates the quotient toward zero.
 The guide view divides numerators that can be negative (a scroll offset above
 the first row, a time before the axis origin), so every division of the model
 goes through `Quot`.
 */
module JavaInt {

  /** Java `a / b`: the quotient truncated toward zero. */
  function Quot(a: int, b: int): (q: int)
    requires b != 0
    ensures a >= 0 && b > 0 ==> q == a / b
    ensures (a >= 0) == (b > 0) ==> q >= 0
  {
    if a >= 0 then a / b else -((-a) / b)
  }

  function Abs(a: int): (r: int)
    ensures r >= 0 && (r == a || r == -a)
  {
    if a < 0 then -a else a
  }

  /** The Java `int` range, used to state which values survive an `(int)` cast. */
  const IntMin: int := -0x8000_0000
  const IntMax: int := 0x7FFF_FFFF

  predicate FitsInt(a: int) {
    IntMin <= a <= IntMax
  }

  lemma MulMonotone(x: int, y: int, b: int)
    requires x <= y && b >= 0
    ensures x * b <= y * b
  {
    var d := y - x;
    assert y * b == x * b + d * b;
  }

  /** Euclidean division of a non-negative numerator is pinned down by its bounds. */
  lemma DivUnique(a: int, b: int, q: int)
    requires b > 0 && q * b <= a < q * b + b
    ensures a / b == q
  {
    var r := a / b;
    assert a == r * b + a % b;
    if r > q {
      MulMonotone(q + 1, r, b);
      assert false;
    } else if r < q {
      MulMonotone(r + 1, q, b);
      assert false;
    }
  }

  /** For a non-negative numerator the truncated quotient is the floor. */
  lemma QuotFloor(a: int, b: int)
    requires a >= 0 && b > 0
    ensures Quot(a, b) * b <= a < Quot(a, b) * b + b
  {
    assert a == (a / b) * b + a % b;
  }

  /** For a non-positive numerator the truncated quotient is the ceiling. */
  lemma QuotCeil(a: int, b: int)
    requires a <= 0 && b > 0
    ensures Quot(a, b) * b - b < a <= Quot(a, b) * b
  {
    if a < 0 {
      QuotFloor(-a, b);
      assert Quot(a, b) == -((-a) / b);
    }
  }

  /** Truncation never moves the quotient more than one step from the exact value. */
  lemma QuotBounds(a: int, b: int)
    requires b > 0
    ensures a - b < Quot(a, b) * b <= a + b - 1
    ensures a >= 0 ==> Quot(a, b) * b <= a
    ensures a <= 0 ==> a <= Quot(a, b) * b
  {
    if a >= 0 {
      QuotFloor(a, b);
    } else {
      QuotCeil(a, b);
    }
  }

  /** Dividing an exact multiple loses nothing, whatever its sign. */
  lemma QuotOfMultiple(x: int, b: int)
    requires b > 0
    ensures Quot(x * b, b) == x
  {
    if x >= 0 {
      MulMonotone(0, x, b);
      DivUnique(x * b, b, x);
    } else {
      assert -(x * b) == (-x) * b;
      MulMonotone(0, -x, b);
      DivUnique((-x) * b, b, -x);
    }
  }

  /** Adding whole multiples of a positive divisor to a non-negative numerator shifts the quotient. */
  lemma QuotShift(a: int, k: int, b: int)
    requires b > 0 && a >= 0 && a + k * b >= 0
    ensures Quot(a + k * b, b) == Quot(a, b) + k
  {
    QuotFloor(a, b);
    var q := Quot(a, b);
    assert (q + k) * b == q * b + k * b;
    DivUnique(a + k * b, b, q + k);
  }

  /** Truncating division by a positive divisor is monotone in the numerator. */
  lemma QuotMonotone(a: int, c: int, b: int)
    requires b > 0 && a <= c
    ensures Quot(a, b) <= Quot(c, b)
  {
    QuotBounds(a, b);
    QuotBounds(c, b);
    var qa, qc := Quot(a, b), Quot(c, b);
    if qa > qc && (a >= 0 || c <= 0) {
      MulMonotone(qc + 1, qa, b);
    }
  }
}
