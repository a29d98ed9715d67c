/** Arithmetic modulo the size of a word, one step at a time. */
module Words {
  import opened Bits

  /** Overflow in a part of a sum does not change what is kept of it. */
  lemma SumOfRest(a: nat, b: nat, size: nat)
    requires size > 0
    ensures (a % size + b) % size == (a + b) % size
  {
    var r := (a + b) % size;
    assert a + b == (a + b) / size * size + r;
    assert a == a / size * size + a % size;
    assert a % size + b == ((a + b) / size - a / size) * size + r;
    RemainderIs(a % size + b, size, (a + b) / size - a / size, r);
  }

  /** Multiplication is addition repeated. */
  lemma OneMore(x: nat, n: nat, size: nat)
    requires size > 0
    ensures x * (n + 1) % size == (x * n % size + x) % size
  {
    SumOfRest(x * n, x, size);
    assert x * (n + 1) == x * n + x;
  }

  lemma OneAdded(a: nat, b: nat, size: nat)
    requires size > 0
    ensures (a + (b + 1)) % size == var s := (a + b) % size; if s + 1 == size then 0 else s + 1
  {
    SumOfRest(a + b, 1, size);
    var s := (a + b) % size;
    if s + 1 == size {
      RemainderIs(s + 1, size, 1, 0);
    } else {
      RemainderIs(s + 1, size, 0, s + 1);
    }
  }

  function Bit(b: bool): (n: nat) { if b then 1 else 0 }

  lemma Apart(a: nat, s: bool)
    ensures (2 * a + Bit(s)) / 2 == a && (2 * a + Bit(s)) % 2 == Bit(s)
  {
  }

  /** The bitwise operators by halves and lowest bits. */
  lemma XorJoin(c: nat, a: nat, s: bool, b: nat, t: bool)
    requires c == 2 * Xor(a, b) + Bit(s != t)
    ensures c == Xor(2 * a + Bit(s), 2 * b + Bit(t))
  {
    Apart(a, s);
    Apart(b, t);
    XorZero(0);
    XorWhole(2 * a + Bit(s), 2 * b + Bit(t));
    assert (Bit(s) + Bit(t)) % 2 == Bit(s != t);
  }

  lemma AndJoin(c: nat, a: nat, s: bool, b: nat, t: bool)
    requires c == 2 * And(a, b) + Bit(s && t)
    ensures c == And(2 * a + Bit(s), 2 * b + Bit(t))
  {
    Apart(a, s);
    Apart(b, t);
    AndZero(0);
  }

  lemma {:induction false} ShrNone(n: nat, k: nat)
    requires Shr(n, k) == 0
    ensures n < Pow2(k)
  {
    Parts(n, k);
    ShlZero(k);
  }

  lemma Pred(k: bv7)
    requires k > 0
    ensures (k - 1) as nat == k as nat - 1
  {
  }

  /** The lowest hexadecimal digit and the rest. */
  lemma DigitOf(n: nat, mask: nat, k: nat)
    requires mask == 0xf && k == 4
    ensures n == And(n, mask) + 0x10 * Shr(n, k)
  {
    ShlIsProduct(Shr(n, k), k);
    AndMask(n, k);
    Parts(n, k);
    assert Pow2(4) == 0x10;
    assert Pow2(k) - 1 == mask;
  }

  // ---------------------------------------------------------------------------
  // Words told by their halves and lowest bits

  /** The number of a word is twice that of its half, and one more if it is odd. */
  ghost predicate HalfAt<T(!new)>(num: T -> nat, half: T -> T, odd: T -> bool, x: T) {
    num(x) == 2 * num(half(x)) + Bit(odd(x))
  }

  ghost predicate XorAt<T(!new)>(num: T -> nat, half: T -> T, odd: T -> bool, xor: (T, T) -> T, x: T, y: T) {
    && (num(x) == 0 && num(y) == 0 ==> num(xor(x, y)) == 0)
    && num(half(xor(x, y))) == num(xor(half(x), half(y)))
    && odd(xor(x, y)) == (odd(x) != odd(y))
  }

  ghost predicate AndAt<T(!new)>(num: T -> nat, half: T -> T, odd: T -> bool, and: (T, T) -> T, x: T, y: T) {
    && (num(x) == 0 && num(y) == 0 ==> num(and(x, y)) == 0)
    && num(half(and(x, y))) == num(and(half(x), half(y)))
    && odd(and(x, y)) == (odd(x) && odd(y))
  }

  lemma {:induction false} XorNum<T(!new)>(num: T -> nat, half: T -> T, odd: T -> bool, xor: (T, T) -> T, x: T, y: T)
    requires forall a :: HalfAt(num, half, odd, a)
    requires forall a, b :: XorAt(num, half, odd, xor, a, b)
    ensures num(xor(x, y)) == Xor(num(x), num(y))
    decreases num(x) + num(y)
  {
    assert HalfAt(num, half, odd, x) && HalfAt(num, half, odd, y) && HalfAt(num, half, odd, xor(x, y));
    assert XorAt(num, half, odd, xor, x, y);
    if num(x) + num(y) == 0 {
      XorZero(0);
    } else {
      XorNum(num, half, odd, xor, half(x), half(y));
      XorJoin(num(xor(x, y)), num(half(x)), odd(x), num(half(y)), odd(y));
    }
  }

  lemma {:induction false} AndNum<T(!new)>(num: T -> nat, half: T -> T, odd: T -> bool, and: (T, T) -> T, x: T, y: T)
    requires forall a :: HalfAt(num, half, odd, a)
    requires forall a, b :: AndAt(num, half, odd, and, a, b)
    ensures num(and(x, y)) == And(num(x), num(y))
    decreases num(x) + num(y)
  {
    assert HalfAt(num, half, odd, x) && HalfAt(num, half, odd, y) && HalfAt(num, half, odd, and(x, y));
    assert AndAt(num, half, odd, and, x, y);
    if num(x) + num(y) == 0 {
      AndZero(0);
    } else {
      AndNum(num, half, odd, and, half(x), half(y));
      AndJoin(num(and(x, y)), num(half(x)), odd(x), num(half(y)), odd(y));
    }
  }
}
