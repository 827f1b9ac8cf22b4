/** Facts about real multiplication and division that the solver does not find on its own. */
module RealArith {

  lemma MulNonNegative(a: real, b: real)
    requires a >= 0.0 && b >= 0.0
    ensures a * b >= 0.0
  {
  }

  lemma MulMonotone(a: real, b: real, c: real)
    requires a <= b && c > 0.0
    ensures c * a <= c * b
  {
    assert c * b - c * a == c * (b - a);
    MulNonNegative(c, b - a);
  }

  lemma DivMulCancel(a: real, c: real)
    requires c != 0.0
    ensures (a / c) * c == a
  {
  }

  lemma DivOfQuotient(a: real, c: real)
    requires c != 0.0 && a != 0.0
    ensures a / c != 0.0 && a / (a / c) == c
  {
  }

  lemma DivNonNegative(a: real, c: real)
    requires a >= 0.0 && c > 0.0
    ensures a / c >= 0.0
  {
  }

  lemma DivMonotone(a: real, b: real, c: real)
    requires a <= b && c > 0.0
    ensures a / c <= b / c
  {
  }


  lemma MulDivCancel(c: real, a: real)
    requires c != 0.0
    ensures (c * a) / c == a
  {
  }

  lemma DivSub(a: real, b: real, c: real)
    requires c != 0.0
    ensures (a - b) / c == a / c - b / c
  {
  }

  lemma DivMonotoneStrict(a: real, b: real, c: real)
    requires a < b && c > 0.0
    ensures a / c < b / c
  {
  }

  lemma FloorMonotone(a: real, b: real)
    requires a <= b
    ensures a.Floor <= b.Floor
  {
    assert a.Floor as real <= a;
    assert b < b.Floor as real + 1.0;
  }
}
