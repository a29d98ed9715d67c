/** Words of any width as naturals: shifts, fields, and the bitwise operators. */
module Bits {

  function Pow2(k: nat): (p: nat)
    ensures p > 0
  {
    if k == 0 then 1 else 2 * Pow2(k - 1)
  }

  /** n << k, without a width to fall off from. */
  function Shl(n: nat, k: nat): (r: nat) {
    if k == 0 then n else 2 * Shl(n, k - 1)
  }

  /** n >> k. */
  function Shr(n: nat, k: nat): (r: nat) {
    if k == 0 then n else Shr(n / 2, k - 1)
  }

  /** The low `k` bits, which is what a word of `k` bits keeps. */
  function Low(n: nat, k: nat): (r: nat)
    ensures r < Pow2(k)
  {
    if k == 0 then 0 else n % 2 + 2 * Low(n / 2, k - 1)
  }

  /** The `b` bits of `n` from position `o` on. */
  function Field(n: nat, o: nat, b: nat): (f: nat)
    ensures f < Pow2(b)
  {
    Low(Shr(n, o), b)
  }

  function Or(x: nat, y: nat): (r: nat)
    decreases x + y
  {
    if x == 0 && y == 0 then 0
    else 2 * Or(x / 2, y / 2) + (if x % 2 == 1 || y % 2 == 1 then 1 else 0)
  }

  function And(x: nat, y: nat): (r: nat)
    decreases x + y
  {
    if x == 0 && y == 0 then 0
    else 2 * And(x / 2, y / 2) + (if x % 2 == 1 && y % 2 == 1 then 1 else 0)
  }

  function Xor(x: nat, y: nat): (r: nat)
    decreases x + y
  {
    if x == 0 && y == 0 then 0 else 2 * Xor(x / 2, y / 2) + (x % 2 + y % 2) % 2
  }

  /** `~x` in a word of `w` bits. */
  function Not(x: nat, w: nat): (r: int) {
    Pow2(w) - 1 - x
  }

  // ---------------------------------------------------------------------------
  // Taking words apart and putting them together

  lemma {:induction false} Parts(n: nat, k: nat)
    ensures n == Low(n, k) + Shl(Shr(n, k), k)
  {
    if k > 0 { Parts(n / 2, k - 1); }
  }

  lemma {:induction false} Joined(x: nat, y: nat, k: nat)
    requires x < Pow2(k)
    ensures Low(x + Shl(y, k), k) == x && Shr(x + Shl(y, k), k) == y
  {
    if k > 0 {
      Joined(x / 2, y, k - 1);
      assert (x + Shl(y, k)) / 2 == x / 2 + Shl(y, k - 1);
    }
  }

  lemma {:induction false} JoinFits(x: nat, y: nat, k: nat, r: nat)
    requires x < Pow2(k) && y < Pow2(r)
    ensures x + Shl(y, k) < Pow2(k + r)
  {
    if k > 0 { JoinFits(x / 2, y, k - 1, r); }
  }

  lemma {:induction false} ShrFits(n: nat, k: nat, r: nat)
    requires n < Pow2(k + r)
    ensures Shr(n, k) < Pow2(r)
  {
    if k > 0 { ShrFits(n / 2, k - 1, r); }
  }

  lemma {:induction false} LowId(n: nat, k: nat)
    requires n < Pow2(k)
    ensures Low(n, k) == n
  {
    if k > 0 { LowId(n / 2, k - 1); }
  }

  lemma {:induction false} ShrShr(n: nat, j: nat, k: nat)
    ensures Shr(n, j + k) == Shr(Shr(n, j), k)
  {
    if j > 0 { ShrShr(n / 2, j - 1, k); }
  }

  lemma {:induction false} ShlShl(n: nat, j: nat, k: nat)
    ensures Shl(n, j + k) == Shl(Shl(n, k), j)
  {
    if j > 0 { ShlShl(n, j - 1, k); }
  }

  lemma {:induction false} ShlPlus(x: nat, y: nat, k: nat)
    ensures Shl(x + y, k) == Shl(x, k) + Shl(y, k)
  {
    if k > 0 { ShlPlus(x, y, k - 1); }
  }

  lemma {:induction false} ShlOne(k: nat)
    ensures Shl(1, k) == Pow2(k)
  {
    if k > 0 { ShlOne(k - 1); }
  }

  /** The shifts and the mask as division, product and remainder. */
  lemma {:induction false} ShlIsProduct(n: nat, k: nat)
    ensures Shl(n, k) == n * Pow2(k)
  {
    if k > 0 { ShlIsProduct(n, k - 1); }
  }

  lemma {:induction false} ShrIsQuotient(n: nat, k: nat)
    ensures Shr(n, k) == n / Pow2(k) && Low(n, k) == n % Pow2(k)
  {
    Parts(n, k);
    ShlIsProduct(Shr(n, k), k);
    RemainderIs(n, Pow2(k), Shr(n, k), Low(n, k));
  }

  /** A field as a stretch of binary digits. */
  lemma {:induction false} FieldIsDigits(n: nat, o: nat, b: nat)
    ensures Field(n, o, b) == n / Pow2(o) % Pow2(b)
  {
    ShrIsQuotient(n, o);
    ShrIsQuotient(Shr(n, o), b);
  }

  lemma {:induction false} LowSplit(n: nat, a: nat, b: nat)
    ensures Low(n, a + b) == Low(n, a) + Shl(Low(Shr(n, a), b), a)
  {
    if a > 0 { LowSplit(n / 2, a - 1, b); }
  }

  /** Two adjoining fields are one field. */
  lemma {:induction false} FieldSplit(n: nat, o: nat, a: nat, b: nat)
    ensures Field(n, o, a + b) == Field(n, o, a) + Shl(Field(n, o + a, b), a)
  {
    LowSplit(Shr(n, o), a, b);
    ShrShr(n, o, a);
  }

  lemma {:induction false} LowShr(n: nat, b: nat, i: nat, c: nat)
    requires i + c <= b
    ensures Low(Shr(Low(n, b), i), c) == Low(Shr(n, i), c)
  {
    if i > 0 {
      LowShr(n / 2, b - 1, i - 1, c);
      assert Low(n, b) / 2 == Low(n / 2, b - 1);
    } else if c > 0 {
      LowShr(n / 2, b - 1, 0, c - 1);
      assert Low(n, b) / 2 == Low(n / 2, b - 1);
    }
  }

  // ---------------------------------------------------------------------------
  // The bitwise operators

  lemma {:induction false} AndMask(x: nat, k: nat)
    ensures And(x, Pow2(k) - 1) == Low(x, k)
  {
    if k > 0 {
      assert (Pow2(k) - 1) / 2 == Pow2(k - 1) - 1;
      AndMask(x / 2, k - 1);
    } else {
      AndZero(x);
    }
  }

  lemma {:induction false} AndZero(x: nat)
    ensures And(x, 0) == 0
  {
    if x > 0 { AndZero(x / 2); }
  }

  lemma {:induction false} OrZero(x: nat)
    ensures Or(x, 0) == x && Or(0, x) == x
  {
    if x > 0 { OrZero(x / 2); }
  }

  /** `&` and `|` work on the low `k` bits and on the rest separately. */
  lemma {:induction false} AndSplit(a: nat, b: nat, k: nat)
    ensures And(a, b) == And(Low(a, k), Low(b, k)) + Shl(And(Shr(a, k), Shr(b, k)), k)
  {
    if k > 0 {
      AndSplit(a / 2, b / 2, k - 1);
      assert Low(a, k) / 2 == Low(a / 2, k - 1) && Low(b, k) / 2 == Low(b / 2, k - 1);
    }
  }

  lemma {:induction false} OrSplit(a: nat, b: nat, k: nat)
    ensures Or(a, b) == Or(Low(a, k), Low(b, k)) + Shl(Or(Shr(a, k), Shr(b, k)), k)
  {
    if k > 0 {
      OrSplit(a / 2, b / 2, k - 1);
      assert Low(a, k) / 2 == Low(a / 2, k - 1) && Low(b, k) / 2 == Low(b / 2, k - 1);
    }
  }

  /** Where one word ends before the other begins, `|` puts them side by side. */
  lemma {:induction false} OrDisjoint(x: nat, y: nat, k: nat)
    requires x < Pow2(k)
    ensures Or(x, Shl(y, k)) == x + Shl(y, k) && Or(Shl(y, k), x) == x + Shl(y, k)
  {
    Joined(0, y, k);
    LowId(x, k);
    ShrFits(x, k, 0);
    OrSplit(x, Shl(y, k), k);
    OrSplit(Shl(y, k), x, k);
    OrZero(x);
    OrZero(y);
  }

  lemma {:induction false} ShlZero(k: nat)
    ensures Shl(0, k) == 0
  {
    if k > 0 { ShlZero(k - 1); }
  }

  lemma {:induction false} ShlPow2(j: nat, k: nat)
    ensures Shl(Pow2(j), k) == Pow2(k + j)
  {
    if k > 0 { ShlPow2(j, k - 1); }
  }

  lemma {:induction false} XorZero(x: nat)
    ensures Xor(x, 0) == x && Xor(0, x) == x && Xor(x, x) == 0
  {
    if x > 0 { XorZero(x / 2); }
  }

  lemma {:induction false} XorStep(x: nat, y: nat)
    ensures Xor(x, y) / 2 == Xor(x / 2, y / 2) && Xor(x, y) % 2 == (x % 2 + y % 2) % 2
  {
  }

  lemma {:induction false} XorWhole(x: nat, y: nat)
    ensures Xor(x, y) == 2 * Xor(x / 2, y / 2) + (x % 2 + y % 2) % 2
  {
  }

  // ---------------------------------------------------------------------------
  // Powers and remainders

  lemma {:induction false} Sizes()
    ensures Pow2(32) == 0x1_0000_0000 && Pow2(64) == 0x1_0000_0000_0000_0000
  {
    Size16();
    DoublePow2(16);
    DoublePow2(32);
  }

  lemma {:induction false} Size16()
    ensures Pow2(16) == 0x1_0000
  {
    DoublePow2(8);
  }

  lemma {:induction false} DoublePow2(k: nat)
    ensures Pow2(2 * k) == Pow2(k) * Pow2(k)
  {
    SumPow2(k, k);
  }

  lemma {:induction false} SumPow2(j: nat, k: nat)
    ensures Pow2(j + k) == Pow2(j) * Pow2(k)
  {
    if j > 0 {
      SumPow2(j - 1, k);
      assert 2 * (Pow2(j - 1) * Pow2(k)) == (2 * Pow2(j - 1)) * Pow2(k);
    }
  }

  lemma RemainderIs(n: int, d: int, q: int, r: int)
    requires d > 0 && 0 <= r < d && n == q * d + r
    ensures n % d == r && n / d == q
  {
    var e := n / d - q;
    assert n == (n / d) * d + n % d;
    assert e * d == r - n % d;
    if e > 0 {
      AtLeast(e, d);
    } else if e < 0 {
      assert (-e) * d == n % d - r;
      AtLeast(-e, d);
    }
  }

  lemma {:induction false} AtLeast(e: int, d: int)
    requires e > 0 && d > 0
    ensures e * d >= d
  {
    if e > 1 {
      AtLeast(e - 1, d);
      assert e * d == (e - 1) * d + d;
    }
  }
}
