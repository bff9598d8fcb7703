/** Bit masks as natural numbers. */
module Bits {

  function Pow2(n: nat): (p: nat)
    ensures p >= 1
  {
    if n == 0 then 1 else 2 * Pow2(n - 1)
  }

  predicate Bit(m: nat, k: nat) {
    if k == 0 then m % 2 == 1 else Bit(m / 2, k - 1)
  }

  /** m | (1 << k). */
  function SetBit(m: nat, k: nat): nat {
    if k == 0 then (if m % 2 == 1 then m else m + 1) else 2 * SetBit(m / 2, k - 1) + m % 2
  }

  lemma {:induction false} BitOfSetBit(m: nat, k: nat, j: nat)
    ensures Bit(SetBit(m, k), j) <==> j == k || Bit(m, j)
  {
    if k > 0 && j > 0 {
      BitOfSetBit(m / 2, k - 1, j - 1);
    }
  }

  lemma {:induction false} ZeroHasNoBit(k: nat)
    ensures !Bit(0, k)
  {
    if k > 0 {
      ZeroHasNoBit(k - 1);
    }
  }

  lemma {:induction false} SomeBit(m: nat) returns (k: nat)
    requires m > 0
    ensures Bit(m, k)
  {
    if m % 2 == 1 {
      k := 0;
    } else {
      k := SomeBit(m / 2);
      k := k + 1;
    }
  }

  predicate AllBelow(m: nat, n: nat) {
    forall j :: 0 <= j < n ==> Bit(m, j)
  }

  ghost predicate SomeAbove(m: nat, n: nat) {
    exists j :: j >= n && Bit(m, j)
  }

  /** A number of 2^n or more is one with a bit at n or above. */
  lemma {:induction false} HighBitIff(m: nat, n: nat)
    ensures m >= Pow2(n) <==> SomeAbove(m, n)
  {
    if n == 0 {
      if m > 0 {
        var k := SomeBit(m);
      } else {
        forall j: nat
          ensures !Bit(m, j)
        {
          ZeroHasNoBit(j);
        }
      }
    } else {
      HighBitIff(m / 2, n - 1);
      if j: nat :| j >= n && Bit(m, j) {
        assert Bit(m / 2, j - 1);
      }
      if j: nat :| j >= n - 1 && Bit(m / 2, j) {
        assert Bit(m, j + 1);
      }
    }
  }

  /** What comparing a mask with the full mask of n bits decides. */
  lemma {:induction false} FullIff(m: nat, n: nat)
    ensures m >= Pow2(n) - 1 <==> AllBelow(m, n) || SomeAbove(m, n)
  {
    HighBitIff(m, n);
    if n > 0 {
      var h := m / 2;
      FullIff(h, n - 1);
      HighBitIff(h, n - 1);
      if AllBelow(m, n) {
        forall j | 0 <= j < n - 1
          ensures Bit(h, j)
        {
          assert Bit(m, j + 1);
        }
        assert Bit(m, 0);
      }
      if AllBelow(h, n - 1) && m % 2 == 1 {
        forall j | 0 <= j < n
          ensures Bit(m, j)
        {
          assert j > 0 ==> Bit(h, j - 1);
        }
      }
    }
  }
}
