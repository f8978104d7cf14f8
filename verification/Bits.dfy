/** Bitwise operations on unsigned integers, and their meaning bit by bit. */
module Bits {

  function And(a: nat, b: nat): nat {
    if a == 0 || b == 0 then 0 else 2 * And(a / 2, b / 2) + if a % 2 == 1 && b % 2 == 1 then 1 else 0
  }

  function Or(a: nat, b: nat): nat {
    if a == 0 then b
    else if b == 0 then a
    else 2 * Or(a / 2, b / 2) + if a % 2 == 1 || b % 2 == 1 then 1 else 0
  }

  /** `a & !b` */
  function AndNot(a: nat, b: nat): nat {
    if a == 0 || b == 0 then a
    else 2 * AndNot(a / 2, b / 2) + if a % 2 == 1 && b % 2 == 0 then 1 else 0
  }

  predicate TestBit(n: nat, k: nat) {
    if k == 0 then n % 2 == 1 else TestBit(n / 2, k - 1)
  }

  function Shl1(k: nat): (r: nat)
    ensures r > 0
  {
    if k == 0 then 1 else 2 * Shl1(k - 1)
  }

  lemma {:induction false} ZeroHasNoBits(k: nat)
    ensures !TestBit(0, k)
  {
    if k > 0 { ZeroHasNoBits(k - 1); }
  }

  lemma {:induction false} BitwiseMeaning(a: nat, b: nat, k: nat)
    ensures TestBit(And(a, b), k) <==> TestBit(a, k) && TestBit(b, k)
    ensures TestBit(Or(a, b), k) <==> TestBit(a, k) || TestBit(b, k)
    ensures TestBit(AndNot(a, b), k) <==> TestBit(a, k) && !TestBit(b, k)
  {
    ZeroHasNoBits(k);
    if a != 0 && b != 0 && k > 0 {
      BitwiseMeaning(a / 2, b / 2, k - 1);
      assert And(a, b) / 2 == And(a / 2, b / 2);
      assert Or(a, b) / 2 == Or(a / 2, b / 2);
      assert AndNot(a, b) / 2 == AndNot(a / 2, b / 2);
    }
  }

  lemma {:induction false} PowerHasOneBit(k: nat, j: nat)
    ensures TestBit(Shl1(k), j) <==> j == k
  {
    if k == 0 {
      if j > 0 { ZeroHasNoBits(j - 1); }
    } else if j > 0 {
      PowerHasOneBit(k - 1, j - 1);
    }
  }

  /** A number is determined by its bits. */
  lemma {:induction false} BitsDetermine(a: nat, b: nat)
    requires forall k: nat :: TestBit(a, k) <==> TestBit(b, k)
    ensures a == b
  {
    assert TestBit(a, 0) <==> TestBit(b, 0);
    if a != b {
      forall k: nat ensures TestBit(a / 2, k) <==> TestBit(b / 2, k) {
        assert TestBit(a, k + 1) <==> TestBit(b, k + 1);
      }
      BitsDetermine(a / 2, b / 2);
    }
  }

  /** `m & (1 << k) != 0` is the test of bit `k`. */
  lemma {:induction false} MaskTest(m: nat, k: nat)
    ensures And(m, Shl1(k)) != 0 <==> TestBit(m, k)
  {
    BitwiseMeaning(m, Shl1(k), k);
    PowerHasOneBit(k, k);
    ZeroHasNoBits(k);
    if And(m, Shl1(k)) != 0 && !TestBit(m, k) {
      forall j: nat ensures TestBit(And(m, Shl1(k)), j) <==> TestBit(0, j) {
        BitwiseMeaning(m, Shl1(k), j);
        PowerHasOneBit(k, j);
        ZeroHasNoBits(j);
      }
      BitsDetermine(And(m, Shl1(k)), 0);
    }
  }
}
