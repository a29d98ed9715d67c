/** Words of 32 bits and the numbers they stand for. */
module Word32 {
  import opened Bits
  import opened Words

  const SIZE: nat := 0x1_0000_0000

  predicate Odd(x: bv32) { x & 1 == 1 }

  function Half(x: bv32): (r: bv32)
    ensures x != 0 ==> r < x
  {
    x >> 1
  }

  function Next(x: bv32): (r: bv32) { x + 1 }

  function BitXor(x: bv32, y: bv32): (r: bv32) { x ^ y }

  function BitAnd(x: bv32, y: bv32): (r: bv32) { x & y }

  function ShiftDown(x: bv32, k: bv7): (r: bv32)
    requires k <= 32
  {
    x >> k
  }

  /** The number a word stands for. */
  function Number(x: bv32): (n: nat)
    ensures n == 0 <==> x == 0
    decreases x
  {
    if x == 0 then 0 else (if Odd(x) then 1 else 0) + 2 * Number(Half(x))
  }

  lemma NumberStep(x: bv32)
    ensures Number(x) / 2 == Number(Half(x)) && Number(x) % 2 == if Odd(x) then 1 else 0
  {
  }

  // ---------------------------------------------------------------------------
  // Bitwise operators

  lemma XorHalf(x: bv32, y: bv32)
    ensures Half(BitXor(x, y)) == BitXor(Half(x), Half(y))
    ensures Odd(BitXor(x, y)) == (Odd(x) != Odd(y))
  {
  }

  lemma XorIs(x: bv32, y: bv32)
    ensures Number(BitXor(x, y)) == Xor(Number(x), Number(y))
  {
    forall a ensures HalfAt(Number, Half, Odd, a) { NumberStep(a); }
    forall a, b ensures XorAt(Number, Half, Odd, BitXor, a, b) { XorHalf(a, b); }
    XorNum(Number, Half, Odd, BitXor, x, y);
  }

  lemma AndHalf(x: bv32, y: bv32)
    ensures Half(BitAnd(x, y)) == BitAnd(Half(x), Half(y))
    ensures Odd(BitAnd(x, y)) == (Odd(x) && Odd(y))
  {
  }

  lemma AndIs(x: bv32, y: bv32)
    ensures Number(BitAnd(x, y)) == And(Number(x), Number(y))
  {
    forall a ensures HalfAt(Number, Half, Odd, a) { NumberStep(a); }
    forall a, b ensures AndAt(Number, Half, Odd, BitAnd, a, b) { AndHalf(a, b); }
    AndNum(Number, Half, Odd, BitAnd, x, y);
  }

  lemma DownStep(x: bv32, k: bv7)
    requires 0 < k <= 32
    ensures ShiftDown(x, k) == Half(ShiftDown(x, k - 1))
  {
  }

  lemma DownNone(x: bv32)
    ensures ShiftDown(x, 0) == x && ShiftDown(x, 32) == 0
  {
  }

  lemma {:induction false} ShrBy(num: bv32 -> nat, x: bv32, k: bv7)
    requires k <= 32 && forall a :: HalfAt(num, Half, Odd, a)
    ensures num(ShiftDown(x, k)) == Shr(num(x), k as nat)
    decreases k as nat
  {
    if k == 0 {
      DownNone(x);
    } else {
      Pred(k);
      ShrBy(num, x, k - 1);
      DownStep(x, k);
      assert HalfAt(num, Half, Odd, ShiftDown(x, k - 1));
      ShrShr(num(x), k as nat - 1, 1);
    }
  }

  lemma ShrIs(x: bv32, k: bv7)
    requires k <= 32
    ensures Number(ShiftDown(x, k)) == Shr(Number(x), k as nat)
  {
    forall a ensures HalfAt(Number, Half, Odd, a) { NumberStep(a); }
    ShrBy(Number, x, k);
  }

  lemma NumberFits(x: bv32)
    ensures Number(x) < SIZE
  {
    ShrIs(x, 32);
    DownNone(x);
    ShrNone(Number(x), 32);
    Sizes();
  }

  lemma Injective(x: bv32, y: bv32)
    requires Number(x) == Number(y)
    ensures x == y
  {
    XorIs(x, y);
    XorZero(Number(x));
    assert x ^ y == 0;
  }

  // ---------------------------------------------------------------------------
  // Sum

  lemma IncHalf(x: bv32)
    requires x != 0xffff_ffff
    ensures Odd(x) ==> Half(Next(x)) == Next(Half(x))
    ensures !Odd(x) ==> Half(Next(x)) == Half(x)
    ensures Odd(Next(x)) == !Odd(x)
    ensures Half(x) != 0xffff_ffff
  {
  }

  lemma {:induction false} Increment(x: bv32)
    requires x != 0xffff_ffff
    ensures Number(Next(x)) == Number(x) + 1
    decreases Number(x)
  {
    NumberStep(x);
    NumberStep(Next(x));
    IncHalf(x);
    if Odd(x) { Increment(Half(x)); }
  }

  ghost predicate DigitAt(num: bv32 -> nat, x: bv32) {
    num(x) == num(BitAnd(x, 0xf)) + 0x10 * num(ShiftDown(x, 4))
  }

  /** The four lowest hexadecimal digits and the rest. */
  ghost predicate DigitsAt(num: bv32 -> nat, x: bv32) {
    var a := ShiftDown(x, 4);
    var b := ShiftDown(a, 4);
    var c := ShiftDown(b, 4);
    num(x) == num(BitAnd(x, 0xf)) + 0x10 * num(BitAnd(a, 0xf)) + 0x100 * num(BitAnd(b, 0xf))
      + 0x1000 * num(BitAnd(c, 0xf)) + 0x1_0000 * num(ShiftDown(c, 4))
  }

  lemma DigitIs(x: bv32)
    ensures DigitAt(Number, x)
  {
    ShrIs(x, 4);
    AndIs(x, 0xf);
    Digits();
    DigitOf(Number(x), Number(0xf), 4);
  }

  lemma DigitsBy(num: bv32 -> nat, x: bv32)
    requires forall a :: DigitAt(num, a)
    ensures DigitsAt(num, x)
  {
    var a := ShiftDown(x, 4);
    var b := ShiftDown(a, 4);
    assert DigitAt(num, x) && DigitAt(num, a) && DigitAt(num, b) && DigitAt(num, ShiftDown(b, 4));
  }

  lemma DigitsIs(x: bv32)
    ensures DigitsAt(Number, x)
  {
    forall a ensures DigitAt(Number, a) { DigitIs(a); }
    DigitsBy(Number, x);
  }

  lemma Digits()
    ensures Number(0x1) == 0x1 && Number(0x2) == 0x2 && Number(0x3) == 0x3 && Number(0x4) == 0x4
    ensures Number(0x5) == 0x5 && Number(0x6) == 0x6 && Number(0x7) == 0x7 && Number(0x8) == 0x8
    ensures Number(0x9) == 0x9 && Number(0xa) == 0xa && Number(0xb) == 0xb && Number(0xc) == 0xc
    ensures Number(0xd) == 0xd && Number(0xe) == 0xe && Number(0xf) == 0xf
  {
  }

  lemma Largest()
    ensures Number(0xffff_ffff) == SIZE - 1
  {
    Digits();
    DigitsIs(0xffff_ffff);
    DigitsIs(0xffff);
  }

  /** `num` counts up with the words, in a circle. */
  ghost predicate NextAt(num: bv32 -> nat, x: bv32) {
    && num(x) < SIZE && (num(x) == 0 <==> x == 0)
    && num(x + 1) == if num(x) + 1 == SIZE then 0 else num(x) + 1
  }

  lemma NextIs(x: bv32)
    ensures NextAt(Number, x)
  {
    NumberFits(x);
    Largest();
    if x == 0xffff_ffff {
      Wraps(x);
      assert Number(x + 1) == 0;
      assert Number(x) == SIZE - 1;
    } else {
      Increment(x);
      NumberFits(Next(x));
      assert Number(x + 1) == Number(Next(x));
    }
  }

  lemma Wraps(x: bv32)
    requires x == 0xffff_ffff
    ensures x + 1 == 0
  {
  }

  ghost predicate PlusAt(num: bv32 -> nat, x: bv32, y: bv32) {
    num(x + y) == (num(x) + num(y)) % SIZE
  }

  ghost predicate TimesAt(num: bv32 -> nat, x: bv32, y: bv32) {
    num(x * y) == num(x) * num(y) % SIZE
  }

  lemma {:induction false} PlusBy(num: bv32 -> nat, x: bv32, y: bv32)
    requires forall a :: NextAt(num, a)
    ensures PlusAt(num, x, y)
    decreases num(y)
  {
    assert NextAt(num, y);
    if num(y) != 0 {
      assert NextAt(num, y - 1);
      PlusBy(num, x, y - 1);
      assert NextAt(num, x + (y - 1));
      PlusOne(num, x, y);
    } else {
      assert NextAt(num, x);
      PlusNone(num, x);
    }
  }

  lemma PlusNone(num: bv32 -> nat, x: bv32)
    requires num(x) < SIZE && num(0) == 0
    ensures PlusAt(num, x, 0)
  {
  }

  lemma PlusOne(num: bv32 -> nat, x: bv32, y: bv32)
    requires PlusAt(num, x, y - 1) && NextAt(num, x + (y - 1)) && num(y) == num(y - 1) + 1
    ensures PlusAt(num, x, y)
  {
    OneAdded(num(x), num(y - 1), SIZE);
  }

  lemma {:induction false} TimesBy(num: bv32 -> nat, x: bv32, y: bv32)
    requires forall a :: NextAt(num, a)
    ensures TimesAt(num, x, y)
    decreases num(y)
  {
    assert NextAt(num, y);
    if num(y) != 0 {
      assert NextAt(num, y - 1);
      TimesBy(num, x, y - 1);
      PlusBy(num, x * (y - 1), x);
      TimesOne(num, x, y);
    } else {
      assert NextAt(num, x);
      TimesNone(num, x);
    }
  }

  lemma TimesNone(num: bv32 -> nat, x: bv32)
    requires num(0) == 0
    ensures TimesAt(num, x, 0)
  {
  }

  lemma TimesOne(num: bv32 -> nat, x: bv32, y: bv32)
    requires TimesAt(num, x, y - 1) && PlusAt(num, x * (y - 1), x) && num(y) == num(y - 1) + 1
    ensures TimesAt(num, x, y)
  {
    OneMore(num(x), num(y - 1), SIZE);
  }

  lemma TimesIs(x: bv32, y: bv32)
    ensures Number(x * y) == Number(x) * Number(y) % SIZE
  {
    forall a ensures NextAt(Number, a) { NextIs(a); }
    TimesBy(Number, x, y);
    assert TimesAt(Number, x, y);
  }

  // ---------------------------------------------------------------------------
  // The two links of the hash finalizer

  /** h ^= h >> k. */
  function Folded(h: bv32, k: bv7): (r: bv32)
    requires k <= 32
  {
    BitXor(h, ShiftDown(h, k))
  }

  /** h *= m. */
  function Scaled(h: bv32, m: bv32): (r: bv32) { h * m }

  lemma FoldedIs(h: bv32, k: bv7)
    requires k <= 32
    ensures Number(Folded(h, k)) == Xor(Number(h), Shr(Number(h), k as nat))
  {
    ShrIs(h, k);
    XorIs(h, ShiftDown(h, k));
  }

  lemma ScaledIs(h: bv32, m: bv32)
    ensures Number(Scaled(h, m)) == Number(h) * Number(m) % SIZE
  {
    TimesIs(h, m);
  }

  /** h ^= (h ^ (h >> k)) >> k. */
  function Refolded(h: bv32, k: bv7): (r: bv32)
    requires k <= 32
  {
    BitXor(h, ShiftDown(Folded(h, k), k))
  }

  lemma RefoldedIs(h: bv32, k: bv7)
    requires k <= 32
    ensures Number(Refolded(h, k)) == Xor(Number(h), Shr(Number(Folded(h, k)), k as nat))
  {
    ShrIs(Folded(h, k), k);
    XorIs(h, ShiftDown(Folded(h, k), k));
  }
}
