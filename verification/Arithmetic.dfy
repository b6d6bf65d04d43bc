/** The few facts about division and products that the other modules share. */
module Arithmetic {

  lemma AtLeastOneMultiple(k: int, d: int)
    requires k >= 1 && d > 0
    ensures k * d >= d
  {
  }

  /** A multiple of `d` within half of `d` of zero is zero. */
  lemma SmallMultiple(gap: int, d: int)
    requires d > 0 && -d < gap * d < d
    ensures gap == 0
  {
    if gap >= 1 {
      AtLeastOneMultiple(gap, d);
    } else if gap <= -1 {
      AtLeastOneMultiple(-gap, d);
    }
  }

  lemma DivUnique(a: int, d: int, q: int, r: int)
    requires d > 0 && 0 <= r < d && a == q * d + r
    ensures a / d == q && a % d == r
  {
    var gap := a / d - q;
    assert gap * d == r - a % d;
    SmallMultiple(gap, d);
  }

  lemma DivPlusOne(a: int, d: int)
    requires d > 0
    ensures (a + d) / d == a / d + 1
  {
    DivUnique(a + d, d, a / d + 1, a % d);
  }

  function CeilDiv(n: nat, d: int): (c: nat)
    requires d > 0
  {
    (n + d - 1) / d
  }

  lemma CeilDivUnique(n: nat, d: int, q: nat, pad: nat)
    requires d > 0 && pad < d && q * d == n + pad
    ensures CeilDiv(n, d) == q
  {
    if pad == 0 {
      DivUnique(n + d - 1, d, q, d - 1);
    } else {
      DivUnique(n + d - 1, d, q, d - 1 - pad);
    }
  }

  /** Taking one step of at most `d` off `n` takes one off the number of steps needed. */
  lemma CeilDivStep(n: nat, d: int)
    requires d > 0 && n > 0
    ensures CeilDiv(0, d) == 0
    ensures CeilDiv(n, d) == 1 + CeilDiv(if n < d then 0 else n - d, d)
  {
    DivUnique(d - 1, d, 0, d - 1);
    if n >= d {
      DivPlusOne(n - 1, d);
    } else {
      DivUnique(n + d - 1, d, 1, n - 1);
    }
  }
}
