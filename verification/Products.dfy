/** Products under a name, so that proofs about sums of them can hide the multiplication and stay linear. */
module Products {
  function Mul(x: real, y: real): real { x * y }

  lemma Distribute(x: real, y: real, z: real)
    ensures Mul(x, y + z) == Mul(x, y) + Mul(x, z)
  {}

  lemma OneMore(n: real, x: real)
    ensures Mul(n + 1.0, x) == Mul(n, x) + x
  {}

  lemma MulUnits(x: real)
    ensures Mul(x, 0.0) == 0.0 && Mul(0.0, x) == 0.0 && Mul(x, 1.0) == x
  {}

  lemma MulIsNonNegative(x: real, y: real)
    requires x >= 0.0 && y >= 0.0
    ensures Mul(x, y) >= 0.0
  {}

  lemma MulIsPositive(x: real, y: real)
    requires (x > 0.0 && y > 0.0) || (x < 0.0 && y < 0.0)
    ensures Mul(x, y) > 0.0
  {
    if x < 0.0 { assert (-x) * (-y) > 0.0; }
  }

  lemma MulRises(d: real, x: real, y: real)
    requires d >= 0.0 && x <= y
    ensures Mul(d, x) <= Mul(d, y)
  {}

  lemma SquareIsPositive(x: real)
    ensures Mul(x, x) >= 0.0 && (x != 0.0 ==> Mul(x, x) > 0.0)
  {
    if x != 0.0 { MulIsPositive(x, x); }
  }
}
