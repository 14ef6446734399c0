/** genHash: the SDBM hash of a function name, and the dictionary of names it fills. */
module FunctionHash {
  import opened Results
  import opened CMachine

  const STAT_FUNC_MOD := 733

  /** The characters as digits in base 65599, without wrap-around. */
  function Polynomial(s: CString): int {
    if s == [] then 0 else Polynomial(s[..|s| - 1]) * 65599 + s[|s| - 1]
  }

  function Power(base: nat, e: nat): nat {
    if e == 0 then 1 else base * Power(base, e - 1)
  }

  /** The first character has the highest power. */
  lemma {:induction false} PolynomialIsPositional(c: CChar, s: CString)
    ensures Polynomial([c] + s) == c * Power(65599, |s|) + Polynomial(s)
  {
    var whole := [c] + s;
    if s == [] {
      assert whole[..0] == [] && whole == [c];
    } else {
      var n := |s| - 1;
      PolynomialIsPositional(c, s[..n]);
      assert whole[..n + 1] == [c] + s[..n];
      Shifted(c, Power(65599, n), Polynomial(s[..n]), s[n]);
    }
  }

  lemma Shifted(c: int, p: int, front: int, last: int)
    ensures (c * p + front) * 65599 + last == c * (65599 * p) + (front * 65599 + last)
  {
  }

  /** The index that genHash returns. */
  function HashIndex(s: CString): (i: nat)
    ensures i < STAT_FUNC_MOD
  {
    ToUlong(Polynomial(s)) % STAT_FUNC_MOD
  }

  /** One round of the loop: the shifts and the subtraction wrap around, and so does the character
      when it is negative. */
  function Round(hash: nat, c: CChar): nat {
    ToUlong(ToUlong(c) + ToUlong(hash * 64) + ToUlong(hash * 65536) - hash)
  }

  lemma RoundMultiplies(p: int, c: CChar)
    ensures Round(ToUlong(p), c) == ToUlong(p * 65599 + c)
  {
    var h := ToUlong(p);
    var a, b := h * 64, h * 65536;
    var x := ToUlong(c) + ToUlong(a) + ToUlong(b) - h;
    assert ToUlong(c) == c - (c / TWO_64) * TWO_64;
    assert ToUlong(a) == a - (a / TWO_64) * TWO_64;
    assert ToUlong(b) == b - (b / TWO_64) * TWO_64;
    assert h == p - (p / TWO_64) * TWO_64;
    var k := -(c / TWO_64) - (a / TWO_64) - (b / TWO_64) - 65599 * (p / TWO_64);
    assert x == (p * 65599 + c) + k * TWO_64;
    WholeWords(p * 65599 + c, k);
  }

  /** The loop of genHash computes the polynomial modulo 2^64. */
  method Sdbm(msg: CString) returns (hash: nat)
    ensures hash == ToUlong(Polynomial(msg))
  {
    hash := 0;
    for i := 0 to |msg|
      invariant hash == ToUlong(Polynomial(msg[..i]))
    {
      RoundMultiplies(Polynomial(msg[..i]), msg[i]);
      assert msg[..i + 1][..i] == msg[..i];
      hash := Round(hash, msg[i]);
    }
    assert msg[..|msg|] == msg;
  }

  /** FUNC_DIC: a name per hash index. */
  class FuncDic {
    const slots: array<Option<CString>>

    ghost predicate Valid()
      reads this, slots
    {
      && slots.Length == STAT_FUNC_MOD
      && (forall i :: 0 <= i < slots.Length && slots[i].Some? ==> HashIndex(slots[i].value) == i)
    }

    constructor ()
      ensures Valid() && fresh(slots) && forall i :: 0 <= i < slots.Length ==> slots[i] == None
    {
      slots := new Option<CString>[STAT_FUNC_MOD](_ => None);
    }

    /** genHash: the first name with an index is kept for good. */
    method GenHash(msg: CString) returns (index: nat)
      requires Valid()
      modifies slots
      ensures Valid() && index == HashIndex(msg)
      ensures forall i :: 0 <= i < slots.Length ==>
                slots[i] == if i == index && old(slots[i]).None? then Some(msg) else old(slots[i])
    {
      var hash := Sdbm(msg);
      index := hash % STAT_FUNC_MOD;
      if slots[index] == None {
        slots[index] := Some(msg);
      }
    }
  }
}
