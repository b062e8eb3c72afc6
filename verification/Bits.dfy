// Bit operations on unsigned words, defined one bit at a time.
module Bits {

  // Bit i of x.
  predicate Has(x: nat, i: nat) {
    if i == 0 then x % 2 == 1 else Has(x / 2, i - 1)
  }

  function Join(rest: nat, bit: bool): (n: nat) {
    2 * rest + if bit then 1 else 0
  }

  function And(x: nat, y: nat): (n: nat) {
    if x == 0 then 0 else Join(And(x / 2, y / 2), x % 2 == 1 && y % 2 == 1)
  }

  function Or(x: nat, y: nat): (n: nat)
    decreases x + y
  {
    if x == 0 && y == 0 then 0 else Join(Or(x / 2, y / 2), x % 2 == 1 || y % 2 == 1)
  }

  function Xor(x: nat, y: nat): (n: nat)
    decreases x + y
  {
    if x == 0 && y == 0 then 0 else Join(Xor(x / 2, y / 2), (x % 2 == 1) != (y % 2 == 1))
  }

  // x & ~y
  function AndNot(x: nat, y: nat): (n: nat) {
    if x == 0 then 0 else Join(AndNot(x / 2, y / 2), x % 2 == 1 && y % 2 == 0)
  }

  function Shl(x: nat, n: nat): (v: nat) {
    if n == 0 then x else 2 * Shl(x, n - 1)
  }

  function Shr(x: nat, n: nat): (v: nat) {
    if n == 0 then x else Shr(x / 2, n - 1)
  }

  // The n lowest bits set.
  function Ones(n: nat): (v: nat) {
    if n == 0 then 0 else Join(Ones(n - 1), true)
  }

  // 64 - countLeadingZeros: one more than the position of the highest set bit, 0 for 0.
  function BitLength(x: nat): (n: nat) {
    if x == 0 then 0 else 1 + BitLength(x / 2)
  }

  const NO_BIT: nat := 0xFFFF_FFFF_FFFF_FFFF

  // findFirstSet: position of the lowest set bit, the largest word for 0.
  function FirstSet(x: nat): (n: nat) {
    if x == 0 then NO_BIT else LowestBit(x)
  }

  function LowestBit(x: nat): (n: nat)
    requires x > 0
  {
    if x % 2 == 1 then 0 else 1 + LowestBit(x / 2)
  }

  lemma {:induction false} HasZero(i: nat)
    ensures !Has(0, i)
  {
    if i > 0 {
      HasZero(i - 1);
    }
  }

  lemma {:induction false} HasAnd(x: nat, y: nat, i: nat)
    ensures Has(And(x, y), i) <==> Has(x, i) && Has(y, i)
  {
    if x == 0 {
      HasZero(i);
    } else if i > 0 {
      HasAnd(x / 2, y / 2, i - 1);
      assert And(x, y) / 2 == And(x / 2, y / 2);
    }
  }

  lemma {:induction false} HasOr(x: nat, y: nat, i: nat)
    ensures Has(Or(x, y), i) <==> Has(x, i) || Has(y, i)
    decreases x + y
  {
    if x == 0 && y == 0 {
      HasZero(i);
    } else if i > 0 {
      HasOr(x / 2, y / 2, i - 1);
      assert Or(x, y) / 2 == Or(x / 2, y / 2);
    }
  }

  lemma {:induction false} HasXor(x: nat, y: nat, i: nat)
    ensures Has(Xor(x, y), i) <==> Has(x, i) != Has(y, i)
    decreases x + y
  {
    if x == 0 && y == 0 {
      HasZero(i);
    } else if i > 0 {
      HasXor(x / 2, y / 2, i - 1);
      assert Xor(x, y) / 2 == Xor(x / 2, y / 2);
    }
  }

  lemma {:induction false} HasAndNot(x: nat, y: nat, i: nat)
    ensures Has(AndNot(x, y), i) <==> Has(x, i) && !Has(y, i)
  {
    if x == 0 {
      HasZero(i);
    } else if i > 0 {
      HasAndNot(x / 2, y / 2, i - 1);
      assert AndNot(x, y) / 2 == AndNot(x / 2, y / 2);
    }
  }

  lemma {:induction false} HasOnes(n: nat, i: nat)
    ensures Has(Ones(n), i) <==> i < n
  {
    if n == 0 {
      HasZero(i);
    } else if i > 0 {
      HasOnes(n - 1, i - 1);
      assert Ones(n) / 2 == Ones(n - 1);
    }
  }

  lemma {:induction false} HasShl(x: nat, n: nat, i: nat)
    ensures Has(Shl(x, n), i) <==> i >= n && Has(x, i - n)
    decreases n
  {
    if n > 0 && i > 0 {
      HasShl(x, n - 1, i - 1);
    }
  }

  // A word is determined by its bits.
  lemma {:induction false} SameBits(x: nat, y: nat)
    requires forall i: nat :: Has(x, i) == Has(y, i)
    ensures x == y
    decreases x + y
  {
    if x != 0 || y != 0 {
      assert Has(x, 0) == Has(y, 0);
      forall i: nat ensures Has(x / 2, i) == Has(y / 2, i) {
        assert Has(x, i + 1) == Has(y, i + 1);
      }
      SameBits(x / 2, y / 2);
    }
  }

  lemma {:induction false} LowestBitIsLowest(x: nat)
    requires x > 0
    ensures Has(x, LowestBit(x)) && forall i: nat :: i < LowestBit(x) ==> !Has(x, i)
  {
    if x % 2 == 0 {
      LowestBitIsLowest(x / 2);
      forall i: nat | i < LowestBit(x) ensures !Has(x, i) {
        assert i > 0 ==> !Has(x / 2, i - 1);
      }
    }
  }

  lemma {:induction false} BitLengthIsHighest(x: nat)
    ensures x > 0 ==> BitLength(x) >= 1 && Has(x, BitLength(x) - 1)
    ensures forall i: nat :: i >= BitLength(x) ==> !Has(x, i)
  {
    if x > 0 {
      BitLengthIsHighest(x / 2);
      forall i: nat | i >= BitLength(x) ensures !Has(x, i) {
        assert !Has(x / 2, i - 1);
      }
      if x / 2 > 0 {
        assert Has(x / 2, BitLength(x / 2) - 1);
      }
    } else {
      forall i: nat ensures !Has(0, i) {
        HasZero(i);
      }
    }
  }

  lemma {:induction false} BitLengthShr(x: nat, n: nat)
    ensures BitLength(Shr(x, n)) == if BitLength(x) > n then BitLength(x) - n else 0
    decreases n
  {
    if n > 0 {
      BitLengthShr(x / 2, n - 1);
    }
  }

  lemma {:induction false} BitLengthShl(x: nat, n: nat)
    requires x > 0
    ensures BitLength(Shl(x, n)) == BitLength(x) + n && Shl(x, n) > 0
  {
    if n > 0 {
      BitLengthShl(x, n - 1);
    }
  }

  // The high part and the low n bits of a word written as their sum.
  lemma {:induction false} SplitWord(x: nat, y: nat, n: nat)
    requires y < Shl(1, n)
    ensures Shr(Shl(x, n) + y, n) == x && And(Shl(x, n) + y, Ones(n)) == y
    decreases n
  {
    if n == 0 {
      AndZero(x);
    } else {
      var w := Shl(x, n) + y;
      assert w / 2 == Shl(x, n - 1) + y / 2 && w % 2 == y % 2;
      SplitWord(x, y / 2, n - 1);
      assert Ones(n) / 2 == Ones(n - 1) && Ones(n) % 2 == 1;
    }
  }

  lemma {:induction false} AndZero(x: nat)
    ensures And(x, 0) == 0
  {
    if x > 0 {
      AndZero(x / 2);
    }
  }

  lemma {:induction false} BitLengthBound(x: nat, n: nat)
    ensures BitLength(x) <= n <==> x < Shl(1, n)
    decreases n
  {
    if n > 0 {
      BitLengthBound(x / 2, n - 1);
    }
  }

  lemma {:induction false} ShlMonotone(m: nat, n: nat)
    requires m <= n
    ensures Shl(1, m) <= Shl(1, n) && (m < n ==> Shl(1, m) < Shl(1, n)) && Shl(1, m) >= 1
    decreases n
  {
    if m < n {
      ShlMonotone(m, n - 1);
    } else if m > 0 {
      ShlMonotone(m - 1, m - 1);
    }
  }

  lemma {:induction false} ShlAdd(x: nat, m: nat, n: nat)
    ensures Shl(Shl(x, m), n) == Shl(x, m + n)
    decreases n
  {
    if n > 0 {
      ShlAdd(x, m, n - 1);
    }
  }
}
