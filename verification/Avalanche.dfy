/** The MurmurHash3 finalizer and its inverse (deps/turf/turf/Util.h): a chain of xor-shifts
    and multiplications, each a bijection on words of a given width, undone link by link. */
module Avalanche {
  import opened Bits

  /** h ^= h >> k. */
  function Fold(h: nat, k: nat): (r: nat) {
    Xor(h, Shr(h, k))
  }

  /** h ^= (h ^ (h >> k)) >> k. */
  function Refold(h: nat, k: nat): (r: nat) {
    Xor(h, Shr(Fold(h, k), k))
  }

  /** h *= m in a word that counts modulo `size`. */
  function Times(h: nat, m: nat, size: nat): (r: nat)
    requires size > 0
    ensures r < size
  {
    h * m % size
  }

  const SIZE32: nat := 0x1_0000_0000
  const SIZE64: nat := 0x1_0000_0000_0000_0000

  function Avalanche32(h: nat): (r: nat) {
    Fold(Times(Fold(Times(Fold(h, 16), 0x85ebca6b, SIZE32), 13), 0xc2b2ae35, SIZE32), 16)
  }

  function Deavalanche32(h: nat): (r: nat) {
    Fold(Times(Refold(Times(Fold(h, 16), 0x7ed1b41d, SIZE32), 13), 0xa5cb9243, SIZE32), 16)
  }

  function Avalanche64(h: nat): (r: nat) {
    Fold(Times(Fold(Times(Fold(h, 33), 0xff51afd7ed558ccd, SIZE64), 33), 0xc4ceb9fe1a85ec53, SIZE64), 33)
  }

  function Deavalanche64(h: nat): (r: nat) {
    Fold(Times(Fold(Times(Fold(h, 33), 0x9cb4b2f8129337db, SIZE64), 33), 0x4f74430c22a54005, SIZE64), 33)
  }

  // ---------------------------------------------------------------------------
  // Exclusive or

  lemma {:induction false} XorAssoc(x: nat, y: nat, z: nat)
    ensures Xor(Xor(x, y), z) == Xor(x, Xor(y, z))
    decreases x + y + z
  {
    if x + y + z > 0 {
      XorAssoc(x / 2, y / 2, z / 2);
      AssocHalf(x, y, z);
      AssocBit(x, y, z);
      SameHalves(Xor(Xor(x, y), z), Xor(x, Xor(y, z)));
    }
  }

  lemma {:induction false} AssocHalf(x: nat, y: nat, z: nat)
    ensures Xor(Xor(x, y), z) / 2 == Xor(Xor(x / 2, y / 2), z / 2)
    ensures Xor(x, Xor(y, z)) / 2 == Xor(x / 2, Xor(y / 2, z / 2))
  {
    XorStep(x, y);
    XorStep(y, z);
    XorStep(Xor(x, y), z);
    XorStep(x, Xor(y, z));
  }

  lemma {:induction false} AssocBit(x: nat, y: nat, z: nat)
    ensures Xor(Xor(x, y), z) % 2 == Xor(x, Xor(y, z)) % 2
  {
    XorBit(x, y);
    XorBit(y, z);
    XorBit(Xor(x, y), z);
    XorBit(x, Xor(y, z));
    Parity(x % 2, y % 2, z % 2);
  }

  lemma {:induction false} XorBit(x: nat, y: nat)
    ensures Xor(x, y) % 2 == (x % 2 + y % 2) % 2
  {
    XorStep(x, y);
  }

  lemma {:induction false} SameHalves(a: nat, b: nat)
    requires a / 2 == b / 2 && a % 2 == b % 2
    ensures a == b
  {
  }

  lemma {:induction false} Parity(a: nat, b: nat, c: nat)
    requires a < 2 && b < 2 && c < 2
    ensures ((a + b) % 2 + c) % 2 == (a + (b + c) % 2) % 2
  {
  }

  lemma {:induction false} XorFits(x: nat, y: nat, w: nat)
    requires x < Pow2(w) && y < Pow2(w)
    ensures Xor(x, y) < Pow2(w)
  {
    if w > 0 { XorFits(x / 2, y / 2, w - 1); }
  }

  lemma {:induction false} ShrXor(x: nat, y: nat, k: nat)
    ensures Shr(Xor(x, y), k) == Xor(Shr(x, k), Shr(y, k))
  {
    if k > 0 { ShrXor(x / 2, y / 2, k - 1); }
  }

  lemma {:induction false} ShrLess(x: nat, k: nat)
    ensures Shr(x, k) <= x
  {
    if k > 0 { ShrLess(x / 2, k - 1); }
  }

  lemma {:induction false} ShrAway(x: nat, k: nat, w: nat)
    requires x < Pow2(w) && w <= k
    ensures Shr(x, k) == 0
  {
    if k > 0 { ShrAway(x / 2, k - 1, if w > 0 then w - 1 else 0); }
  }

  lemma {:induction false} FoldFits(x: nat, k: nat, w: nat)
    requires x < Pow2(w)
    ensures Fold(x, k) < Pow2(w) && Refold(x, k) < Pow2(w)
  {
    ShrLess(x, k);
    XorFits(x, Shr(x, k), w);
    ShrLess(Fold(x, k), k);
    XorFits(x, Shr(Fold(x, k), k), w);
  }

  /** A shift by half the width or more undoes itself. */
  lemma {:induction false} FoldTwice(x: nat, k: nat, w: nat)
    requires x < Pow2(w) && w <= 2 * k
    ensures Fold(Fold(x, k), k) == x
  {
    var s := Shr(x, k);
    ShrXor(x, s, k);
    ShrShr(x, k, k);
    ShrAway(x, k + k, w);
    XorZero(s);
    XorAssoc(x, s, s);
    XorZero(x);
  }

  /** Folding once more than the shift needs to leave the word undoes it. */
  lemma {:induction false} RefoldInverts(x: nat, k: nat, w: nat)
    requires x < Pow2(w) && w <= 3 * k
    ensures Refold(Fold(x, k), k) == x && Fold(Refold(x, k), k) == x
  {
    var s, t := Shr(x, k), Shr(Shr(x, k), k);
    ShrShr(x, k, k);
    ShrShr(x, 2 * k, k);
    ShrAway(x, 3 * k, w);
    assert Shr(t, k) == 0;
    ShrXor(x, s, k);
    RefoldIs(x, k);
    var f := Fold(x, k);
    RefoldIs(f, k);
    ShrXor(s, t, k);
    XorZero(t);
    XorCancel(x, s, t);
    var g := Refold(x, k);
    assert g == Xor(x, Xor(s, t));
    ShrXor(x, Xor(s, t), k);
  }

  lemma {:induction false} RefoldIs(x: nat, k: nat)
    ensures Refold(x, k) == Xor(x, Xor(Shr(x, k), Shr(Shr(x, k), k)))
  {
    ShrXor(x, Shr(x, k), k);
  }

  lemma {:induction false} XorCancel(x: nat, s: nat, t: nat)
    ensures Xor(Xor(x, s), Xor(Xor(s, t), t)) == x
    ensures Xor(Xor(x, Xor(s, t)), Xor(s, t)) == x
  {
    XorAssoc(s, t, t);
    XorZero(t);
    XorZero(s);
    XorAssoc(x, s, s);
    XorZero(x);
    XorAssoc(x, Xor(s, t), Xor(s, t));
    XorZero(Xor(s, t));
  }

  // ---------------------------------------------------------------------------
  // Multiplication

  /** Multiplying by `m` and then by its inverse modulo `size` changes nothing. */
  lemma {:induction false} TimesInverts(h: nat, m: nat, n: nat, size: nat, t: nat)
    requires h < size && m * n == t * size + 1
    ensures Times(Times(h, m, size), n, size) == h
  {
    var q, r := h * m / size, h * m % size;
    assert h * m == q * size + r;
    calc {
      r * n;
      (h * m - q * size) * n;
      h * (m * n) - (q * n) * size;
      h * (t * size + 1) - (q * n) * size;
      (h * t - q * n) * size + h;
    }
    RemainderIs(r * n, size, h * t - q * n, h);
  }

  // ---------------------------------------------------------------------------
  // Main results

  lemma {:induction false} BothWays(h: nat, m: nat, n: nat, size: nat, t: nat)
    requires h < size && m * n == t * size + 1
    ensures Times(Times(h, m, size), n, size) == h && Times(Times(h, n, size), m, size) == h
  {
    TimesInverts(h, m, n, size, t);
    assert n * m == m * n;
    TimesInverts(h, n, m, size, t);
  }

  /** The multipliers that go together are inverses modulo the size of the word. */
  lemma {:induction false} InverseA32(h: nat)
    requires h < SIZE32
    ensures Times(Times(h, 0x85ebca6b, SIZE32), 0xa5cb9243, SIZE32) == h
    ensures Times(Times(h, 0xa5cb9243, SIZE32), 0x85ebca6b, SIZE32) == h
  {
    BothWays(h, 0x85ebca6b, 0xa5cb9243, SIZE32, 0x56bb77f4);
  }

  lemma {:induction false} InverseB32(h: nat)
    requires h < SIZE32
    ensures Times(Times(h, 0xc2b2ae35, SIZE32), 0x7ed1b41d, SIZE32) == h
    ensures Times(Times(h, 0x7ed1b41d, SIZE32), 0xc2b2ae35, SIZE32) == h
  {
    BothWays(h, 0xc2b2ae35, 0x7ed1b41d, SIZE32, 0x60736e9a);
  }

  lemma {:induction false} InverseA64(h: nat)
    requires h < SIZE64
    ensures Times(Times(h, 0xff51afd7ed558ccd, SIZE64), 0x4f74430c22a54005, SIZE64) == h
    ensures Times(Times(h, 0x4f74430c22a54005, SIZE64), 0xff51afd7ed558ccd, SIZE64) == h
  {
    BothWays(h, 0xff51afd7ed558ccd, 0x4f74430c22a54005, SIZE64, 0x4f3e2925cb7c5b4e);
  }

  lemma {:induction false} InverseB64(h: nat)
    requires h < SIZE64
    ensures Times(Times(h, 0xc4ceb9fe1a85ec53, SIZE64), 0x9cb4b2f8129337db, SIZE64) == h
    ensures Times(Times(h, 0x9cb4b2f8129337db, SIZE64), 0xc4ceb9fe1a85ec53, SIZE64) == h
  {
    BothWays(h, 0xc4ceb9fe1a85ec53, 0x9cb4b2f8129337db, SIZE64, 0x7878e44812b2d581);
  }

  lemma {:induction false} Outer32(h: nat)
    requires h < SIZE32
    ensures Fold(h, 16) < SIZE32 && Fold(Fold(h, 16), 16) == h
  {
    Sizes();
    FoldFits(h, 16, 32);
    FoldTwice(h, 16, 32);
  }

  lemma {:induction false} Inner32(h: nat)
    requires h < SIZE32
    ensures Fold(h, 13) < SIZE32 && Refold(h, 13) < SIZE32
    ensures Refold(Fold(h, 13), 13) == h && Fold(Refold(h, 13), 13) == h
  {
    Sizes();
    FoldFits(h, 13, 32);
    RefoldInverts(h, 13, 32);
  }

  lemma {:induction false} Outer64(h: nat)
    requires h < SIZE64
    ensures Fold(h, 33) < SIZE64 && Fold(Fold(h, 33), 33) == h
  {
    Sizes();
    FoldFits(h, 33, 64);
    FoldTwice(h, 33, 64);
  }

  lemma {:induction false} DeavalancheInverts32(h: nat)
    requires h < SIZE32
    ensures Avalanche32(h) < SIZE32 && Deavalanche32(Avalanche32(h)) == h
  {
    var a := Fold(h, 16);
    Outer32(h);
    var b := Times(a, 0x85ebca6b, SIZE32);
    InverseA32(a);
    var c := Fold(b, 13);
    Inner32(b);
    InverseB32(c);
    Outer32(Times(c, 0xc2b2ae35, SIZE32));
  }

  lemma {:induction false} AvalancheInverts32(h: nat)
    requires h < SIZE32
    ensures Deavalanche32(h) < SIZE32 && Avalanche32(Deavalanche32(h)) == h
  {
    var a := Fold(h, 16);
    Outer32(h);
    var b := Times(a, 0x7ed1b41d, SIZE32);
    InverseB32(a);
    var c := Refold(b, 13);
    Inner32(b);
    InverseA32(c);
    Outer32(Times(c, 0xa5cb9243, SIZE32));
  }

  lemma {:induction false} DeavalancheInverts64(h: nat)
    requires h < SIZE64
    ensures Avalanche64(h) < SIZE64 && Deavalanche64(Avalanche64(h)) == h
  {
    var a := Fold(h, 33);
    Outer64(h);
    var b := Times(a, 0xff51afd7ed558ccd, SIZE64);
    InverseA64(a);
    var c := Fold(b, 33);
    Outer64(b);
    InverseB64(c);
    Outer64(Times(c, 0xc4ceb9fe1a85ec53, SIZE64));
  }

  lemma {:induction false} AvalancheInverts64(h: nat)
    requires h < SIZE64
    ensures Deavalanche64(h) < SIZE64 && Avalanche64(Deavalanche64(h)) == h
  {
    var a := Fold(h, 33);
    Outer64(h);
    var b := Times(a, 0x9cb4b2f8129337db, SIZE64);
    InverseB64(a);
    var c := Fold(b, 33);
    Outer64(b);
    InverseA64(c);
    Outer64(Times(c, 0x4f74430c22a54005, SIZE64));
  }
}
