/** 64-bit words as numbers: wrap-around arithmetic, shifts and exclusive or. */
module Words {
  const TWO_TO_THE_64: nat := 0x1_0000_0000_0000_0000
  const U64_MAX: nat := TWO_TO_THE_64 - 1

  type u64 = x: nat | x < TWO_TO_THE_64

  function WrappingAdd(a: u64, b: u64): u64 {
    (a + b) % TWO_TO_THE_64
  }

  function WrappingMul(a: u64, b: u64): u64 {
    a * b % TWO_TO_THE_64
  }

  /** Logical shift right by `k` places. */
  function Shr(x: nat, k: nat): nat {
    if k == 0 then x else Shr(x / 2, k - 1)
  }

  /** Exclusive or, binary digit by binary digit. */
  function Xor(a: nat, b: nat): nat {
    if a == 0 && b == 0 then 0 else 2 * Xor(a / 2, b / 2) + (a + b) % 2
  }

  function Pow2(n: nat): nat {
    if n == 0 then 1 else 2 * Pow2(n - 1)
  }

  lemma XorDigit(a: nat, b: nat)
    ensures Xor(a, b) / 2 == Xor(a / 2, b / 2)
    ensures Xor(a, b) % 2 == (a + b) % 2
  {
  }

  lemma {:induction false} XorCancels(a: nat, b: nat)
    ensures Xor(Xor(a, b), b) == a
  {
    if a != 0 || b != 0 {
      XorCancels(a / 2, b / 2);
      var x := Xor(a, b);
      XorDigit(a, b);
      XorDigit(x, b);
      ParityCancels(a, b, x);
    }
  }

  lemma ParityCancels(a: nat, b: nat, x: nat)
    requires x % 2 == (a + b) % 2
    ensures (x + b) % 2 == a % 2
  {
  }

  lemma {:induction false} ShrXor(a: nat, b: nat, k: nat)
    ensures Shr(Xor(a, b), k) == Xor(Shr(a, k), Shr(b, k))
  {
    if k != 0 {
      XorDigit(a, b);
      ShrXor(a / 2, b / 2, k - 1);
    }
  }

  lemma {:induction false} XorBelow(a: nat, b: nat, n: nat)
    requires a < Pow2(n) && b < Pow2(n)
    ensures Xor(a, b) < Pow2(n)
  {
    if n != 0 {
      XorBelow(a / 2, b / 2, n - 1);
    }
  }

  lemma {:induction false} ShrShrinks(x: nat, k: nat)
    ensures Shr(x, k) <= x
    ensures k > 0 && x > 0 ==> Shr(x, k) < x
  {
    if k != 0 {
      ShrShrinks(x / 2, k - 1);
    }
  }

  /** The step `x ^ (x >> k)`, and the word it came from. */
  function XorShift(x: nat, k: nat): nat {
    Xor(x, Shr(x, k))
  }

  function UnXorShift(y: nat, k: nat): nat
    requires k > 0
    decreases y
  {
    if y == 0 then 0
    else
      ShrShrinks(y, k);
      Xor(y, UnXorShift(Shr(y, k), k))
  }

  lemma {:induction false} ShrZero(k: nat)
    ensures Shr(0, k) == 0
  {
    ShrShrinks(0, k);
  }

  lemma {:induction false} UnXorShiftInverts(x: nat, k: nat)
    requires k > 0
    ensures UnXorShift(XorShift(x, k), k) == x
  {
    var y := XorShift(x, k);
    XorCancels(x, Shr(x, k));
    if x == 0 {
      ShrZero(k);
    } else {
      ShrShrinks(x, k);
      ShrXor(x, Shr(x, k), k);
      UnXorShiftInverts(Shr(x, k), k);
      if y == 0 {
        ShrZero(k);
      }
    }
  }

  lemma {:induction false} XorShiftInverts(y: nat, k: nat)
    requires k > 0
    ensures XorShift(UnXorShift(y, k), k) == y
    decreases y
  {
    if y == 0 {
      ShrZero(k);
    } else {
      ShrShrinks(y, k);
      var z := UnXorShift(Shr(y, k), k);
      XorShiftInverts(Shr(y, k), k);
      ShrXor(y, z, k);
      XorCancels(z, Shr(z, k));
      XorCancels(y, z);
    }
  }

  lemma {:induction false} UnXorShiftBelow(y: nat, k: nat, n: nat)
    requires k > 0 && y < Pow2(n)
    ensures UnXorShift(y, k) < Pow2(n)
    decreases y
  {
    if y != 0 {
      ShrShrinks(y, k);
      UnXorShiftBelow(Shr(y, k), k, n);
      XorBelow(y, UnXorShift(Shr(y, k), k), n);
    }
  }

  lemma XorShiftBelow(x: nat, k: nat, n: nat)
    requires x < Pow2(n)
    ensures XorShift(x, k) < Pow2(n)
  {
    ShrShrinks(x, k);
    XorBelow(x, Shr(x, k), n);
  }

  lemma Pow2Of64()
    ensures Pow2(64) == TWO_TO_THE_64
  {
    Pow2Adds(8, 8);
    Pow2Adds(16, 16);
    Pow2Adds(32, 32);
    assert Pow2(8) == 0x100;
  }

  lemma {:induction false} Pow2Adds(a: nat, b: nat)
    ensures Pow2(a + b) == Pow2(a) * Pow2(b)
  {
    if a != 0 {
      Pow2Adds(a - 1, b);
    }
  }
}
