/** C's unsigned and signed machine arithmetic on mathematical integers, for an LP64 little-endian
    machine: `unsigned long` has 64 bits, `int` has 32, and plain `char` is signed. */
module CMachine {

  const TWO_64: int := 0x1_0000_0000_0000_0000
  const TWO_32: int := 0x1_0000_0000
  const TWO_31: int := 0x8000_0000

  /** One character of a C string; the terminating NUL is not stored. */
  type CChar = c: int | -128 <= c < 128 && c != 0 witness 1

  type CString = seq<CChar>

  /** Conversion to unsigned long. */
  function ToUlong(x: int): (u: nat)
    ensures u < TWO_64
  {
    x % TWO_64
  }

  /** Whole multiples of 2^64 do not show in an unsigned long. */
  lemma WholeWords(x: int, k: int)
    ensures (x + k * TWO_64) % TWO_64 == x % TWO_64
  {
  }

  /** The low half of a 64-bit word read as an int. */
  function LowInt(word: nat): (i: int)
    ensures -TWO_31 <= i < TWO_31 && i % TWO_32 == word % TWO_32
  {
    var low := word % TWO_32;
    if low < TWO_31 then low else low - TWO_32
  }

  /** Bitwise and. */
  function And(a: nat, b: nat): nat {
    if a == 0 || b == 0 then 0 else 2 * And(a / 2, b / 2) + (a % 2) * (b % 2)
  }

  /** A mask bounds the result, power of two minus one or not. */
  lemma {:induction false} AndAtMost(a: nat, b: nat)
    ensures And(a, b) <= b
  {
    if a != 0 && b != 0 {
      AndAtMost(a / 2, b / 2);
      if b % 2 == 0 {
        assert (a % 2) * (b % 2) == 0;
      } else {
        assert (a % 2) * (b % 2) == a % 2;
      }
    }
  }

  // ---- division ----

  lemma Quotient(n: nat, m: nat, q: int, r: nat)
    requires r < m && n == q * m + r
    ensures n / m == q && n % m == r
  {
    var k := n / m - q;
    assert k * m == r - n % m;
    Multiples(k, m);
  }

  lemma Multiples(k: int, m: nat)
    ensures k >= 1 ==> k * m >= m
    ensures k <= -1 ==> k * m <= 0 - m
  {
    if k >= 1 {
      assert (k - 1) * m >= 0;
    } else if k <= -1 {
      assert (-k - 1) * m >= 0;
    }
  }
}
