/** Sums, and division on integers as JavaScript's BigInt computes it. */
module Arith {

  /** Scale of the prices: raw output token per 1e18 raw input token. */
  const WAD: nat := 1_000_000_000_000_000_000

  function Min(a: int, b: int): int {
    if a < b then a else b
  }

  function Max(a: int, b: int): int {
    if a < b then b else a
  }

  function Total(parts: seq<nat>): nat {
    if parts == [] then 0 else parts[0] + Total(parts[1..])
  }

  function Abs(a: int): nat {
    if a < 0 then -a else a
  }

  /** BigInt division: truncates toward zero, whatever the signs. */
  function TruncDiv(a: int, b: int): int
    requires b != 0
  {
    var q := Abs(a) / Abs(b);
    if (a < 0) == (b < 0) then q else -q
  }

  /** The quotient towards zero: what is left is smaller than the divisor and has the dividend's sign. */
  lemma TruncDivIsTowardsZero(a: int, b: int)
    requires b != 0
    ensures var left := a - TruncDiv(a, b) * b;
            Abs(left) < Abs(b) && (left != 0 ==> (left < 0) == (a < 0))
  {
    var q := Abs(a) / Abs(b);
    DivBounds(Abs(a), Abs(b));
    assert TruncDiv(a, b) * b == if a < 0 then -(q * Abs(b)) else q * Abs(b) by {
      SignedProduct(q, b);
    }
  }

  lemma SignedProduct(q: int, b: int)
    ensures q * -b == -(q * b) && -q * b == -(q * b) && -q * -b == q * b
  {
  }

  /** a * b / c on non-negative operands. */
  function MulDiv(a: nat, b: nat, c: nat): (q: nat)
    requires c > 0
  {
    MulMono(0, a, b);
    QuotientAtLeast(0, a * b, c);
    a * b / c
  }

  lemma DivBounds(a: int, b: int)
    requires b > 0
    ensures a / b * b <= a < a / b * b + b
  {
  }

  /** a / b is the largest q with q * b <= a. */
  lemma QuotientAtLeast(q: int, a: int, b: int)
    requires b > 0 && q * b <= a
    ensures q <= a / b
  {
    if a / b + 1 <= q {
      MulMono(a / b + 1, q, b);
    }
  }

  lemma QuotientBelow(q: int, a: int, b: int)
    requires b > 0 && a < q * b
    ensures a / b < q
  {
  }

  lemma MulMono(x: int, y: int, k: int)
    requires x <= y && 0 <= k
    ensures x * k <= y * k
  {
  }

  lemma Distribute(x: int, y: int, k: int)
    ensures (x + y) * k == x * k + y * k
  {
  }

  lemma DivMono(a: int, a': int, b: int)
    requires b > 0 && a <= a'
    ensures a / b <= a' / b
  {
    DivBounds(a, b);
    QuotientAtLeast(a / b, a', b);
  }

  /** q is a / b once q * b <= a < (q + 1) * b. */
  lemma QuotientIs(q: nat, a: nat, b: nat)
    requires b > 0 && q * b <= a < q * b + b
    ensures a / b == q
  {
    QuotientAtLeast(q, a, b);
    Distribute(q, 1, b);
    QuotientBelow(q + 1, a, b);
  }
}
