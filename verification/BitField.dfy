/** Packed bit fields (deps/turf/turf/BitField.h): one word, any width, any layout. */
module BitField {
  import opened Bits
  import opened Common

  /** The word made of `o` low bits, a field of `b` bits, and the bits above it. */
  function Pack(low: nat, mid: nat, high: nat, o: nat, b: nat): (n: nat) {
    low + Shl(mid + Shl(high, b), o)
  }

  /** Two fields of a layout that share no bit. */
  predicate Apart(o: nat, b: nat, o': nat, b': nat) {
    o' + b' <= o || o + b <= o'
  }

  /** `n'` is `n` with one field changed to `v` and no other field touched. */
  ghost predicate OnlyField(n: nat, n': nat, o: nat, b: nat, v: nat) {
    && Field(n', o, b) == v
    && forall o': nat, b': nat :: Apart(o, b, o', b') ==> Field(n', o', b') == Field(n, o', b')
  }

  /** `n` with the field at `o` replaced. */
  function Replaced(n: nat, o: nat, b: nat, v: nat): (n': nat) {
    Pack(Low(n, o), v, Shr(n, o + b), o, b)
  }

  lemma {:induction false} PackFields(low: nat, mid: nat, high: nat, o: nat, b: nat)
    requires low < Pow2(o) && mid < Pow2(b)
    ensures var n := Pack(low, mid, high, o, b);
            Low(n, o) == low && Shr(n, o) == mid + Shl(high, b) && Field(n, o, b) == mid && Shr(n, o + b) == high
  {
    Joined(low, mid + Shl(high, b), o);
    Joined(mid, high, b);
    ShrShr(Pack(low, mid, high, o, b), o, b);
  }

  lemma {:induction false} Unpack(n: nat, o: nat, b: nat)
    ensures n == Replaced(n, o, b, Field(n, o, b))
  {
    Parts(n, o);
    Parts(Shr(n, o), b);
    ShrShr(n, o, b);
  }

  /** A word that keeps the bits below and above a field keeps every other field. */
  lemma {:induction false} OthersKept(n: nat, n': nat, o: nat, b: nat, o': nat, b': nat)
    requires Low(n, o) == Low(n', o) && Shr(n, o + b) == Shr(n', o + b) && Apart(o, b, o', b')
    ensures Field(n, o', b') == Field(n', o', b')
  {
    if o' + b' <= o {
      LowShr(n, o, o', b');
      LowShr(n', o, o', b');
    } else {
      ShrShr(n, o + b, o' - o - b);
      ShrShr(n', o + b, o' - o - b);
    }
  }

  lemma {:induction false} ReplacedIsOnlyField(n: nat, o: nat, b: nat, v: nat)
    requires v < Pow2(b)
    ensures OnlyField(n, Replaced(n, o, b, v), o, b, v)
  {
    PackFields(Low(n, o), v, Shr(n, o + b), o, b);
    forall o': nat, b': nat | Apart(o, b, o', b')
      ensures Field(Replaced(n, o, b, v), o', b') == Field(n, o', b')
    {
      OthersKept(n, Replaced(n, o, b, v), o, b, o', b');
    }
  }

  lemma {:induction false} ReplacedFits(n: nat, o: nat, b: nat, w: nat, v: nat)
    requires n < Pow2(w) && o + b <= w && v < Pow2(b)
    ensures Replaced(n, o, b, v) < Pow2(w)
  {
    var rest := w - o - b;
    ShrFits(n, o + b, rest);
    JoinFits(v, Shr(n, o + b), b, rest);
    JoinFits(Low(n, o), v + Shl(Shr(n, o + b), b), o, b + rest);
  }

  lemma {:induction false} MaskIs(o: nat, b: nat, rest: nat)
    ensures Shl(Pow2(b) - 1, o) < Pow2(o + b + rest)
    ensures Not(Shl(Pow2(b) - 1, o), o + b + rest) == Pack(Pow2(o) - 1, 0, Pow2(rest) - 1, o, b)
  {
    var mask, above := Pow2(b) - 1, Shl(Pow2(rest) - 1, b);
    ShlShl(1, o, b + rest);
    ShlShl(1, b, rest);
    ShlOne(o + b + rest);
    ShlOne(b + rest);
    ShlOne(rest);
    ShlOne(b);
    ShlOne(o);
    ShlPlus(Pow2(rest) - 1, 1, b);
    assert Pow2(b + rest) == above + Pow2(b);
    ShlPlus(mask, 1 + above, o);
    ShlPlus(1, above, o);
  }

  /** value & ~Mask empties the field. */
  lemma {:induction false} Cleared(n: nat, o: nat, b: nat, w: nat)
    requires n < Pow2(w) && o + b <= w
    ensures Shl(Pow2(b) - 1, o) < Pow2(w)
    ensures And(n, Not(Shl(Pow2(b) - 1, o), w)) == Replaced(n, o, b, 0)
  {
    var rest := w - o - b;
    var mask := Pack(Pow2(o) - 1, 0, Pow2(rest) - 1, o, b);
    MaskIs(o, b, rest);
    PackFields(Pow2(o) - 1, 0, Pow2(rest) - 1, o, b);
    AndSplit(n, mask, o);
    LowLow(n, o);
    AndMask(Low(n, o), o);
    ClearedAbove(n, o, b, rest, Shr(mask, o));
  }

  lemma {:induction false} LowLow(n: nat, k: nat)
    ensures Low(Low(n, k), k) == Low(n, k)
  {
    LowId(Low(n, k), k);
  }

  lemma {:induction false} ClearedAbove(n: nat, o: nat, b: nat, rest: nat, mask: nat)
    requires n < Pow2(o + b + rest) && mask == Shl(Pow2(rest) - 1, b)
    ensures And(Shr(n, o), mask) == Shl(Shr(n, o + b), b)
  {
    Joined(0, Pow2(rest) - 1, b);
    AndSplit(Shr(n, o), mask, b);
    AndZero(Low(Shr(n, o), b));
    ShrShr(n, o, b);
    ShrFits(n, o + b, rest);
    AndMask(Shr(n, o + b), rest);
    LowId(Shr(n, o + b), rest);
  }

  /** (value & ~Mask) | (v << Offset) fills it. */
  lemma {:induction false} Filled(n: nat, o: nat, b: nat, v: nat)
    requires v < Pow2(b)
    ensures Or(Replaced(n, o, b, 0), Shl(v, o)) == Replaced(n, o, b, v)
  {
    OrJoined(Low(n, o), 0 + Shl(Shr(n, o + b), b), v, o);
    OrDisjoint(v, Shr(n, o + b), b);
  }

  lemma {:induction false} OrJoined(low: nat, x: nat, y: nat, k: nat)
    requires low < Pow2(k)
    ensures Or(low + Shl(x, k), Shl(y, k)) == low + Shl(Or(x, y), k)
  {
    Joined(low, x, k);
    Joined(0, y, k);
    OrSplit(low + Shl(x, k), Shl(y, k), k);
    OrZero(low);
  }

  /** Adding to a field as a number is adding to the word. */
  lemma {:induction false} Shifted(n: nat, o: nat, b: nat, v: nat)
    ensures n + Shl(v, o) == Replaced(n, o, b, Field(n, o, b) + v)
  {
    Unpack(n, o, b);
    ShlPlus(Field(n, o, b) + Shl(Shr(n, o + b), b), v, o);
  }

  /** A word of fields. Each operation takes the field it is applied to by its place:
      a BitFieldMember's own, or BaseOffset + BitsPerItem * i for element i of an array. */
  class Word {
    const width: nat
    var value: nat

    constructor (width: nat, v: nat)
      requires v < Pow2(width)
      ensures this.width == width && value == v && Valid()
    {
      this.width := width;
      value := v;
    }

    ghost predicate Valid()
      reads this
    {
      value < Pow2(width)
    }

    /** Reading a field: (value >> Offset) & Maximum. */
    method Get(o: nat, b: nat) returns (v: nat)
      requires Valid() && o + b <= width
      ensures v == Field(value, o, b) <= Pow2(b) - 1
    {
      AndMask(Shr(value, o), b);
      v := And(Shr(value, o), Pow2(b) - 1);
    }

    /** operator=: the field reads back as `v`. */
    method Assign(o: nat, b: nat, v: nat)
      requires Valid() && o + b <= width && v <= Pow2(b) - 1
      modifies this
      ensures Valid() && OnlyField(old(value), value, o, b, v)
    {
      Cleared(value, o, b, width);
      Filled(value, o, b, v);
      ReplacedIsOnlyField(value, o, b, v);
      ReplacedFits(value, o, b, width, v);
      var mask := Shl(Pow2(b) - 1, o);
      value := Or(And(value, Not(mask, width)), Shl(v, o));
    }

    /** operator+=: nothing is carried out of the field. */
    method Add(o: nat, b: nat, v: nat)
      requires Valid() && o + b <= width && Field(value, o, b) + v <= Pow2(b) - 1
      modifies this
      ensures Valid() && OnlyField(old(value), value, o, b, Field(old(value), o, b) + v)
    {
      Shifted(value, o, b, v);
      ReplacedIsOnlyField(value, o, b, Field(value, o, b) + v);
      ReplacedFits(value, o, b, width, Field(value, o, b) + v);
      LowId(value + Shl(v, o), width);
      value := Low(value + Shl(v, o), width);
    }

    /** operator-=: nothing is borrowed from outside the field. */
    method Subtract(o: nat, b: nat, v: nat)
      requires Valid() && o + b <= width && v <= Field(value, o, b)
      modifies this
      ensures Valid() && OnlyField(old(value), value, o, b, Field(old(value), o, b) - v)
    {
      ghost var f := Field(value, o, b) - v;
      ghost var n' := Replaced(value, o, b, f);
      ReplacedIsOnlyField(value, o, b, f);
      ReplacedFits(value, o, b, width, f);
      Unpack(value, o, b);
      ShlPlus(f + Shl(Shr(value, o + b), b), v, o);
      assert value == n' + Shl(v, o);
      value := value - Shl(v, o);
    }
  }

  /** Different elements of a bit field array share no bit. */
  lemma {:induction false} ElementsApart(base: nat, bits: nat, i: nat, j: nat)
    requires i != j
    ensures Apart(base + bits * i, bits, base + bits * j, bits)
  {
    if i < j { MulMono(bits, i + 1, j); } else { MulMono(bits, j + 1, i); }
  }

  /** The demand on += is exact: a sum too large for its field carries into the bits above. */
  lemma {:induction false} CarriesIff(n: nat, o: nat, b: nat, v: nat)
    requires v < Pow2(b)
    ensures Shr(n + Shl(v, o), o + b) == Shr(n, o + b) <==> Field(n, o, b) + v < Pow2(b)
  {
    var low, sum, high := Low(n, o), Field(n, o, b) + v, Shr(n, o + b);
    Shifted(n, o, b, v);
    if sum < Pow2(b) {
      PackFields(low, sum, high, o, b);
    } else {
      PackFields(low, sum - Pow2(b), high + 1, o, b);
      ShlPlus(high, 1, b);
      ShlOne(b);
    }
  }

  /** What a word of `w` bits makes of n - (v << o): it wraps around below zero. */
  function Difference(n: nat, o: nat, v: nat, w: nat): (r: int) {
    if Shl(v, o) <= n then n - Shl(v, o) else n + Pow2(w) - Shl(v, o)
  }

  /** So is the demand on -=: a difference below zero borrows from the bits above. */
  lemma {:induction false} BorrowsIff(n: nat, o: nat, b: nat, v: nat, w: nat)
    requires n < Pow2(w) && o + b < w && v < Pow2(b)
    ensures Difference(n, o, v, w) >= 0
    ensures Shr(Difference(n, o, v, w), o + b) == Shr(n, o + b) <==> v <= Field(n, o, b)
  {
    var low, f, high, rest := Low(n, o), Field(n, o, b), Shr(n, o + b), w - o - b;
    Unpack(n, o, b);
    if v <= f {
      ShlPlus(f - v + Shl(high, b), v, o);
      PackFields(low, f - v, high, o, b);
    } else if high > 0 {
      BorrowOne(low, f, v, high, o, b);
      PackFields(low, f + Pow2(b) - v, high - 1, o, b);
    } else {
      WrapAround(low, f, v, o, b, rest);
      PackFields(low, f + Pow2(b) - v, Pow2(rest) - 1, o, b);
      assert Pow2(rest) > 1;
    }
  }

  lemma {:induction false} BorrowOne(low: nat, f: nat, v: nat, high: nat, o: nat, b: nat)
    requires f < v < Pow2(b) && high > 0
    ensures Pack(low, f, high, o, b) == Pack(low, f + Pow2(b) - v, high - 1, o, b) + Shl(v, o)
  {
    ShlOne(b);
    ShlPlus(high - 1, 1, b);
    ShlPlus(f + Pow2(b) - v + Shl(high - 1, b), v, o);
  }

  lemma {:induction false} WrapAround(low: nat, f: nat, v: nat, o: nat, b: nat, rest: nat)
    requires low < Pow2(o) && f < v < Pow2(b)
    ensures var n := Pack(low, f, 0, o, b);
            n < Shl(v, o)
            && n + Pow2(o + b + rest) - Shl(v, o) == Pack(low, f + Pow2(b) - v, Pow2(rest) - 1, o, b)
  {
    ShlZero(b);
    ShlPlus(f, v - f, o);
    ShlPlus(1, v - f - 1, o);
    ShlOne(o);
    var mid := f + Pow2(b) - v + Shl(Pow2(rest) - 1, b);
    ShlPlus(Pow2(rest) - 1, 1, b);
    ShlOne(b);
    ShlPow2(rest, b);
    assert mid + v == f + Pow2(b + rest);
    ShlPlus(mid, v, o);
    ShlPlus(f, Pow2(b + rest), o);
    ShlPow2(b + rest, o);
  }
}
