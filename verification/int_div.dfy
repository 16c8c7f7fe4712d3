/** Fortran integer division on non-negative operands.

    Fortran's integer `/` truncates toward zero. Every division in the grid
    sizing has a non-negative numerator and a positive denominator, where
    truncation toward zero, flooring and Dafny's Euclidean `/` all agree. */
module IntDiv {

  /** `q` is the truncated quotient of `a` by `b`: the largest `q` with
      `q * b` not above `a`. */
  predicate IsQuotient(a: nat, b: nat, q: nat) {
    q * b <= a < (q + 1) * b
  }

  /** The integer `/` of the source, restricted to the operand signs that
      occur, defined from first principles as the number of times `b` can
      be taken from `a`, so that nothing rests on Dafny's own `/`. */
  function TruncDiv(a: nat, b: nat): (q: nat)
    requires b > 0
    ensures IsQuotient(a, b, q)
    decreases a
  {
    if a < b then 0 else 1 + TruncDiv(a - b, b)
  }

  lemma MulMono(x: nat, y: nat, b: nat)
    requires x <= y
    ensures x * b <= y * b
  {
  }

  /** The quotient inequality determines the truncated quotient uniquely. */
  lemma QuotientUnique(a: nat, b: nat, q: nat)
    requires b > 0
    requires IsQuotient(a, b, q)
    ensures q == TruncDiv(a, b)
  {
    var r := TruncDiv(a, b);
    if q < r {
      MulMono(q + 1, r, b);
    } else if r < q {
      MulMono(r + 1, q, b);
    }
  }

  /** On naturals the source's truncating `/` and Dafny's Euclidean `/`
      agree. */
  lemma TruncDivAgrees(a: nat, b: nat)
    requires b > 0
    ensures TruncDiv(a, b) == a / b
  {
    QuotientUnique(a, b, a / b);
  }
}
