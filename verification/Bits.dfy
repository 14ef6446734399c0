/** The bits of a number, and what `&` does to them. */
module Bits {
  import opened CMachine

  function Pow2(k: nat): (p: nat)
    ensures p >= 1
  {
    if k == 0 then 1 else 2 * Pow2(k - 1)
  }

  /** Bit `i` of `a`, counted from the lowest. */
  function Bit(a: nat, i: nat): nat {
    (a / Pow2(i)) % 2
  }

  lemma {:induction false} BitBelow(a: nat, i: nat)
    requires i > 0
    ensures Bit(a, i) == Bit(a / 2, i - 1)
  {
    Halves(a, Pow2(i - 1));
  }

  lemma Halves(a: nat, p: nat)
    requires p >= 1
    ensures a / (2 * p) == (a / 2) / p
  {
    var q, r := (a / 2) / p, (a / 2) % p;
    assert a / 2 == q * p + r;
    assert a == q * (2 * p) + (2 * r + a % 2);
    Quotient(a, 2 * p, q, 2 * r + a % 2);
  }

  /** Each bit of `a & b` is the product of the bits of `a` and `b`. */
  lemma {:induction false} AndBits(a: nat, b: nat, i: nat)
    ensures Bit(And(a, b), i) == Bit(a, i) * Bit(b, i)
    decreases i
  {
    AndParts(a, b);
    if i == 0 {
      assert Pow2(0) == 1;
      assert Bit(a, 0) == a % 2 && Bit(b, 0) == b % 2 && Bit(And(a, b), 0) == And(a, b) % 2;
    } else {
      BitBelow(a, i);
      BitBelow(b, i);
      BitBelow(And(a, b), i);
      AndBits(a / 2, b / 2, i - 1);
    }
  }

  lemma {:induction false} AndParts(a: nat, b: nat)
    ensures And(a, b) % 2 == (a % 2) * (b % 2) && And(a, b) / 2 == And(a / 2, b / 2)
  {
    BitProduct(a % 2, b % 2);
    AndUnfolds(a, b);
    Parts(And(a, b), And(a / 2, b / 2), (a % 2) * (b % 2));
  }

  lemma {:induction false} AndUnfolds(a: nat, b: nat)
    ensures And(a, b) == 2 * And(a / 2, b / 2) + (a % 2) * (b % 2)
  {
    if a == 0 || b == 0 { BitProduct(a % 2, b % 2); }
  }

  lemma Parts(whole: nat, n: nat, bit: nat)
    requires bit < 2 && whole == 2 * n + bit
    ensures whole % 2 == bit && whole / 2 == n
  {
  }

  lemma LowestBit(n: nat, bit: nat)
    requires bit < 2
    ensures (2 * n + bit) % 2 == bit && (2 * n + bit) / 2 == n
  {
  }

  lemma BitProduct(p: nat, q: nat)
    requires p < 2 && q < 2
    ensures p * q == if p == 1 && q == 1 then 1 else 0
  {
  }

  /** A mask of `k` ones gives the remainder modulo 2^k. */
  lemma {:induction false} AndMask(h: nat, k: nat)
    ensures And(h, Pow2(k) - 1) == h % Pow2(k)
  {
    if k > 0 {
      var p := Pow2(k - 1);
      AndMask(h / 2, k - 1);
      AndParts(h, 2 * p - 1);
      LowestBit(p - 1, 1);
      BitProduct(h % 2, 1);
      LowBits(h, p);
    }
  }

  lemma LowBits(h: nat, p: nat)
    requires p >= 1
    ensures h % (2 * p) == 2 * ((h / 2) % p) + h % 2
  {
    var q, r := (h / 2) / p, (h / 2) % p;
    assert h / 2 == q * p + r;
    assert h == q * (2 * p) + (2 * r + h % 2);
    Quotient(h, 2 * p, q, 2 * r + h % 2);
  }
}
