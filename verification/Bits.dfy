/** Words as numbers and as rows of bits. */
module Bits {

  /** The bit at place `i`, the lowest being at 0. */
  predicate Bit(a: nat, i: nat) {
    if i == 0 then a % 2 == 1 else Bit(a / 2, i - 1)
  }

  function Digit(b: bool): nat {
    if b then 1 else 0
  }

  function Or(a: nat, b: nat): nat {
    if a == 0 && b == 0 then 0 else 2 * Or(a / 2, b / 2) + Digit(a % 2 == 1 || b % 2 == 1)
  }

  function And(a: nat, b: nat): nat {
    if a == 0 then 0 else 2 * And(a / 2, b / 2) + Digit(a % 2 == 1 && b % 2 == 1)
  }

  /** `a & ~b`. */
  function AndNot(a: nat, b: nat): nat {
    if a == 0 then 0 else 2 * AndNot(a / 2, b / 2) + Digit(a % 2 == 1 && b % 2 == 0)
  }

  /** `a << k`, without a width. */
  function Shl(a: nat, k: nat): nat {
    if k == 0 then a else 2 * Shl(a, k - 1)
  }

  function Shr(a: nat, k: nat): nat {
    if k == 0 then a else Shr(a / 2, k - 1)
  }

  /** The mask of the lowest `k` bits, `(1 << k) - 1`. */
  function Ones(k: nat): nat {
    if k == 0 then 0 else 2 * Ones(k - 1) + 1
  }

  lemma {:induction false} OnesIs(k: nat)
    ensures Ones(k) == Shl(1, k) - 1
  {
    if k > 0 {
      OnesIs(k - 1);
    }
  }

  // ----- what the operations do to each bit -----

  lemma Halved(x: nat, b: bool)
    ensures (2 * x + Digit(b)) / 2 == x && ((2 * x + Digit(b)) % 2 == 1 <==> b)
  {
  }

  lemma OrHalf(a: nat, b: nat)
    ensures Or(a, b) / 2 == Or(a / 2, b / 2) && (Or(a, b) % 2 == 1 <==> a % 2 == 1 || b % 2 == 1)
  {
    Halved(Or(a / 2, b / 2), a % 2 == 1 || b % 2 == 1);
  }

  lemma {:induction false} BitOr(a: nat, b: nat, i: nat)
    ensures Bit(Or(a, b), i) == (Bit(a, i) || Bit(b, i))
    decreases i
  {
    hide Or;
    OrHalf(a, b);
    if i > 0 {
      BitOr(a / 2, b / 2, i - 1);
    }
  }

  lemma AndHalf(a: nat, b: nat)
    ensures And(a, b) / 2 == And(a / 2, b / 2) && (And(a, b) % 2 == 1 <==> a % 2 == 1 && b % 2 == 1)
  {
    Halved(And(a / 2, b / 2), a % 2 == 1 && b % 2 == 1);
  }

  lemma {:induction false} BitAnd(a: nat, b: nat, i: nat)
    ensures Bit(And(a, b), i) == (Bit(a, i) && Bit(b, i))
    decreases i
  {
    hide And;
    AndHalf(a, b);
    if i > 0 {
      BitAnd(a / 2, b / 2, i - 1);
    }
  }

  lemma AndNotHalf(a: nat, b: nat)
    ensures AndNot(a, b) / 2 == AndNot(a / 2, b / 2) && (AndNot(a, b) % 2 == 1 <==> a % 2 == 1 && b % 2 == 0)
  {
    Halved(AndNot(a / 2, b / 2), a % 2 == 1 && b % 2 == 0);
  }

  lemma {:induction false} BitAndNot(a: nat, b: nat, i: nat)
    ensures Bit(AndNot(a, b), i) == (Bit(a, i) && !Bit(b, i))
    decreases i
  {
    hide AndNot;
    AndNotHalf(a, b);
    if i > 0 {
      BitAndNot(a / 2, b / 2, i - 1);
    }
  }

  lemma {:induction false} BitShl(a: nat, k: nat, i: nat)
    ensures Bit(Shl(a, k), i) == (i >= k && Bit(a, i - k))
    decreases k
  {
    if k > 0 && i > 0 {
      BitShl(a, k - 1, i - 1);
    }
  }

  lemma {:induction false} BitShr(a: nat, k: nat, i: nat)
    ensures Bit(Shr(a, k), i) == Bit(a, i + k)
    decreases k
  {
    if k > 0 {
      BitShr(a / 2, k - 1, i);
    }
  }

  lemma {:induction false} BitOnes(k: nat, i: nat)
    ensures Bit(Ones(k), i) == (i < k)
    decreases k
  {
    if k == 0 {
      BitZero(i);
    } else if i > 0 {
      BitOnes(k - 1, i - 1);
    }
  }

  lemma {:induction false} BitZero(i: nat)
    ensures !Bit(0, i)
  {
    if i > 0 {
      BitZero(i - 1);
    }
  }

  /** Numbers with the same bits are the same. */
  lemma {:induction false} SameBits(a: nat, b: nat)
    requires forall i: nat :: Bit(a, i) == Bit(b, i)
    ensures a == b
    decreases a + b
  {
    if a + b > 0 {
      forall i: nat ensures Bit(a / 2, i) == Bit(b / 2, i) {
        assert Bit(a, i + 1) == Bit(b, i + 1);
      }
      assert Bit(a, 0) == Bit(b, 0);
      SameBits(a / 2, b / 2);
    }
  }

  /** A number below `1 << k` has no bit from `k` on. */
  lemma {:induction false} HighBits(a: nat, k: nat, i: nat)
    requires a < Shl(1, k) && k <= i
    ensures !Bit(a, i)
    decreases k
  {
    if k == 0 {
      BitZero(i);
    } else {
      HighBits(a / 2, k - 1, i - 1);
    }
  }

  // ----- masks and arithmetic -----

  lemma {:induction false} AndZero(a: nat)
    ensures And(a, 0) == 0
  {
    if a > 0 {
      AndZero(a / 2);
    }
  }

  /** A number is its lowest `k` bits and the rest, shifted. */
  lemma {:induction false} Parts(a: nat, k: nat)
    ensures a == And(a, Ones(k)) + Shl(Shr(a, k), k) && And(a, Ones(k)) < Shl(1, k)
    decreases k
  {
    if k == 0 {
      AndZero(a);
    } else {
      Parts(a / 2, k - 1);
      assert Ones(k) / 2 == Ones(k - 1) && Ones(k) % 2 == 1;
      AndHalf(a, Ones(k));
      assert Shl(Shr(a, k), k) == 2 * Shl(Shr(a / 2, k - 1), k - 1);
    }
  }

  lemma {:induction false} Masked(a: nat, k: nat)
    requires a < Shl(1, k)
    ensures And(a, Ones(k)) == a
  {
    forall i: nat ensures Bit(And(a, Ones(k)), i) == Bit(a, i) {
      BitAnd(a, Ones(k), i);
      BitOnes(k, i);
      if i >= k {
        HighBits(a, k, i);
      }
    }
    SameBits(And(a, Ones(k)), a);
  }

  lemma {:induction false} ShlTimes(a: nat, k: nat)
    ensures Shl(a, k) == a * Shl(1, k)
  {
    if k > 0 {
      ShlTimes(a, k - 1);
      TwiceTimes(a, Shl(1, k - 1));
    }
  }

  lemma TwiceTimes(a: nat, b: nat)
    ensures 2 * (a * b) == a * (2 * b)
  {
  }

  /** Masking off and masking in split a number. */
  lemma {:induction false} Split(a: nat, b: nat)
    ensures a == And(a, b) + AndNot(a, b)
    decreases a
  {
    if a > 0 {
      Split(a / 2, b / 2);
    }
  }

  lemma {:induction false} AndShl(a: nat, b: nat, k: nat)
    ensures And(Shl(a, k), Shl(b, k)) == Shl(And(a, b), k)
  {
    forall i: nat ensures Bit(And(Shl(a, k), Shl(b, k)), i) == Bit(Shl(And(a, b), k), i) {
      BitAnd(Shl(a, k), Shl(b, k), i);
      BitShl(a, k, i);
      BitShl(b, k, i);
      BitShl(And(a, b), k, i);
      if i >= k {
        BitAnd(a, b, i - k);
      }
    }
    SameBits(And(Shl(a, k), Shl(b, k)), Shl(And(a, b), k));
  }

  lemma {:induction false} OrShl(a: nat, b: nat, k: nat)
    ensures Or(Shl(a, k), Shl(b, k)) == Shl(Or(a, b), k)
  {
    forall i: nat ensures Bit(Or(Shl(a, k), Shl(b, k)), i) == Bit(Shl(Or(a, b), k), i) {
      BitOr(Shl(a, k), Shl(b, k), i);
      BitShl(a, k, i);
      BitShl(b, k, i);
      BitShl(Or(a, b), k, i);
      if i >= k {
        BitOr(a, b, i - k);
      }
    }
    SameBits(Or(Shl(a, k), Shl(b, k)), Shl(Or(a, b), k));
  }

  lemma {:induction false} OrZero(a: nat)
    ensures Or(a, 0) == a
  {
    if a > 0 {
      OrZero(a / 2);
    }
  }

  /** Where no bit is shared, `|` is `+`. */
  lemma {:induction false} OrAdds(a: nat, b: nat, k: nat)
    requires b < Shl(1, k)
    ensures Or(Shl(a, k), b) == Shl(a, k) + b
    decreases k
  {
    if k == 0 {
      OrZero(a);
    } else {
      OrAdds(a, b / 2, k - 1);
      OrHalf(Shl(a, k), b);
    }
  }

  lemma {:induction false} ShlMore(a: nat, j: nat, k: nat)
    ensures Shl(a, j + k) == Shl(Shl(a, j), k)
    decreases k
  {
    if k > 0 {
      ShlMore(a, j, k - 1);
    }
  }

  /** A mask of the `m` bits above the lowest `k` keeps all but the lowest, in a number without higher bits. */
  lemma HighMask(a: nat, k: nat, m: nat)
    requires a < Shl(1, k + m)
    ensures And(a, Shl(Ones(m), k)) == Shl(Shr(a, k), k)
  {
    var x, y := And(a, Shl(Ones(m), k)), Shl(Shr(a, k), k);
    forall i: nat ensures Bit(x, i) == Bit(y, i) {
      BitAnd(a, Shl(Ones(m), k), i);
      BitShl(Ones(m), k, i);
      BitShl(Shr(a, k), k, i);
      if i >= k {
        BitOnes(m, i - k);
        BitShr(a, k, i - k);
      }
      if i >= k + m {
        HighBits(a, k + m, i);
      }
    }
    SameBits(x, y);
  }

  /** Shifting and masking are division and remainder by a power of two. */
  lemma Divided(a: nat, k: nat)
    ensures Shl(1, k) > 0 && Shr(a, k) == a / Shl(1, k) && And(a, Ones(k)) == a % Shl(1, k)
    ensures Shl(Shr(a, k), k) == a - a % Shl(1, k)
  {
    hide Shl, Shr, And, Ones;
    Parts(a, k);
    ShlTimes(Shr(a, k), k);
    Quotient(a, Shr(a, k), And(a, Ones(k)), Shl(1, k));
  }

  lemma Quotient(a: nat, q: nat, r: nat, d: nat)
    requires r < d && a == r + q * d
    ensures a / d == q && a % d == r
  {
    if a / d < q {
      Times(a / d + 1, q, d);
    } else if a / d > q {
      Times(q + 1, a / d, d);
    }
  }

  lemma Times(a: nat, b: nat, d: nat)
    requires a <= b
    ensures a * d <= b * d
  {
  }
}
