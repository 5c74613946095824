/** Products of reals, kept behind a name so that proofs about them stay linear. */
module RealArithmetic {
  function Mul(a: real, b: real): real { a * b }

  lemma {:induction false} Adds(a: real, b: real, r: real)
    ensures Mul(a + b, r) == Mul(a, r) + Mul(b, r)
  {
  }

  lemma {:induction false} Scale(a: real, b: real, r: real)
    requires a <= b && r >= 0.0
    ensures Mul(a, r) <= Mul(b, r)
  {
    assert (b - a) * r >= 0.0;
  }

  lemma {:induction false} ScaleStrictly(a: real, b: real, r: real)
    requires a < b && r > 0.0
    ensures Mul(a, r) < Mul(b, r)
  {
    assert (b - a) * r > 0.0;
  }

  lemma {:induction false} Units(r: real)
    ensures Mul(0.0, r) == 0.0 && Mul(1.0, r) == r
  {
  }

  lemma {:induction false} Quotient(x: real, y: real)
    requires y > 0.0
    ensures Mul(x / y, y) == x
  {
  }

  lemma {:induction false} Thousandth(a: real, r: real)
    ensures Mul(a / 1000.0, r * 1000.0) == Mul(a, r)
  {
  }

  lemma {:induction false} DivideInSteps(x: real, r: real)
    requires r > 0.0
    ensures x / r / 1000.0 == x / (r * 1000.0)
  {
    var y, z := x / r / 1000.0, x / (r * 1000.0);
    Quotient(x, r);
    Quotient(x, r * 1000.0);
    Thousandth(x / r, r);
    if y < z { ScaleStrictly(y, z, r * 1000.0); }
    if z < y { ScaleStrictly(z, y, r * 1000.0); }
  }
}
