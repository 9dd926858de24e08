/** Bit masks as naturals: bitwise or, and the powers of two a mask is built from. */
module Bits {
  function Pow2(n: nat): (r: nat)
    ensures r > 0
  {
    if n == 0 then 1 else 2 * Pow2(n - 1)
  }

  predicate Bit(m: nat, i: nat)
    decreases i
  {
    if i == 0 then m % 2 == 1 else Bit(m / 2, i - 1)
  }

  function Or(a: nat, b: nat): nat
    decreases a + b
  {
    if a == 0 then b
    else if b == 0 then a
    else 2 * Or(a / 2, b / 2) + (if a % 2 == 1 || b % 2 == 1 then 1 else 0)
  }

  lemma {:induction false} ZeroBits(i: nat)
    ensures !Bit(0, i)
  {
    if i == 0 {
    } else {
      ZeroBits(i - 1);
    }
  }

  lemma {:induction false} OrBit(a: nat, b: nat, i: nat)
    ensures Bit(Or(a, b), i) <==> Bit(a, i) || Bit(b, i)
    decreases i
  {
    ZeroBits(i);
    if a == 0 || b == 0 || i == 0 {
    } else {
      assert Or(a, b) / 2 == Or(a / 2, b / 2);
      OrBit(a / 2, b / 2, i - 1);
    }
  }

  lemma {:induction false} Pow2Bit(n: nat, i: nat)
    ensures Bit(Pow2(n), i) <==> i == n
    decreases n
  {
    if n == 0 {
      if i > 0 { ZeroBits(i - 1); }
    } else if i > 0 {
      assert Pow2(n) / 2 == Pow2(n - 1);
      Pow2Bit(n - 1, i - 1);
    }
  }

  // The mask with the bits of a list of cores set.
  function MaskOf(cpus: seq<nat>): nat {
    if cpus == [] then 0 else Or(MaskOf(cpus[..|cpus| - 1]), Pow2(cpus[|cpus| - 1]))
  }

  lemma {:induction false} MaskBit(cpus: seq<nat>, c: nat)
    ensures Bit(MaskOf(cpus), c) <==> c in cpus
  {
    if cpus == [] {
      ZeroBits(c);
    } else {
      var n := |cpus| - 1;
      assert cpus == cpus[..n] + [cpus[n]];
      MaskBit(cpus[..n], c);
      OrBit(MaskOf(cpus[..n]), Pow2(cpus[n]), c);
      Pow2Bit(cpus[n], c);
    }
  }
}
