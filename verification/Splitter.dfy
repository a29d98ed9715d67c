/** Cutting a bit string into numbers (deps/cds/cds/algo/split_bitstring.h, the
    little-endian branches). */
module Splitter {
  import opened Bits

  /** The bit string as one number, lowest byte first. */
  function Number(bytes: seq<nat>): (n: nat) {
    if bytes == [] then 0 else Low(bytes[0], 8) + Shl(Number(bytes[1..]), 8)
  }

  ghost predicate Bytes(bytes: seq<nat>) {
    forall i: nat :: i < |bytes| ==> bytes[i] < Pow2(8)
  }

  /** Bits that lie within one byte are a field of the whole string. */
  lemma {:induction false} ByteField(bytes: seq<nat>, i: nat, o: nat, b: nat)
    requires Bytes(bytes) && i < |bytes| && o + b <= 8
    ensures Field(Number(bytes), 8 * i + o, b) == Field(bytes[i], o, b)
  {
    var n := Number(bytes);
    LowId(bytes[0], 8);
    Joined(bytes[0], Number(bytes[1..]), 8);
    if i == 0 {
      LowShr(n, 8, o, b);
    } else {
      ByteField(bytes[1..], i - 1, o, b);
      ShrShr(n, 8, 8 * (i - 1) + o);
    }
  }

  /** split_bitstring over results of `width` bits. */
  class BitSplitter {
    const bytes: seq<nat>
    const width: nat
    var cur: nat
    var offset: nat

    ghost predicate Valid()
      reads this
    {
      Bytes(bytes) && offset < 8 && cur <= |bytes| && (cur == |bytes| ==> offset == 0)
    }

    function BitOffset(): (n: nat)
      reads this
    {
      offset + 8 * cur
    }

    function RestCount(): (n: int)
      reads this
    {
      8 * |bytes| - BitOffset()
    }

    constructor (bytes: seq<nat>, width: nat, start: nat)
      requires Bytes(bytes) && start <= 8 * |bytes|
      ensures Valid() && this.bytes == bytes && this.width == width && BitOffset() == start
    {
      this.bytes := bytes;
      this.width := width;
      cur := start / 8;
      offset := start % 8;
    }

    /** cut: the next `count` bits, as one number. */
    method Cut(count: nat) returns (result: nat)
      requires Valid() && count <= width && count <= RestCount()
      modifies this`cur, this`offset
      ensures Valid() && BitOffset() == old(BitOffset()) + count
      ensures result == Field(Number(bytes), old(BitOffset()), count)
    {
      result := 0;
      ghost var n, start := Number(bytes), BitOffset();
      var done := 0;
      while done < count
        invariant Valid() && done <= count && BitOffset() == start + done
        invariant result == Field(n, start, done)
      {
        var bits := count - done;
        if bits > 8 - offset { bits := 8 - offset; }
        var piece := And(Shr(bytes[cur], offset), Pow2(bits) - 1);
        Piece(bytes, cur, offset, bits);
        Place(n, start, done, bits, width);
        result := Or(result, Low(Shl(piece, done), width));
        offset := offset + bits;
        if offset == 8 {
          offset := 0;
          cur := cur + 1;
        }
        done := done + bits;
      }
    }

    /** safe_cut: what there is of the next `count` bits. */
    method SafeCut(count: nat) returns (result: nat)
      requires Valid() && (if count <= RestCount() then count else RestCount()) <= width
      modifies this`cur, this`offset
      ensures Valid()
      ensures var c := if count <= old(RestCount()) then count else old(RestCount());
              BitOffset() == old(BitOffset()) + c && result == Field(Number(bytes), old(BitOffset()), c)
    {
      if cur >= |bytes| {
        return 0;
      }
      var rest := (|bytes| - cur - 1) * 8 + (8 - offset);
      var c := if rest < count then rest else count;
      if c != 0 {
        result := Cut(c);
      } else {
        result := 0;
      }
    }
  }

  lemma {:induction false} Piece(bytes: seq<nat>, i: nat, o: nat, b: nat)
    requires Bytes(bytes) && i < |bytes| && o + b <= 8
    ensures And(Shr(bytes[i], o), Pow2(b) - 1) == Field(Number(bytes), 8 * i + o, b)
  {
    AndMask(Shr(bytes[i], o), b);
    ByteField(bytes, i, o, b);
  }

  /** A piece shifted above the bits already there extends the field they are. */
  lemma {:induction false} Place(n: nat, start: nat, done: nat, b: nat, width: nat)
    requires done + b <= width
    ensures Or(Field(n, start, done), Low(Shl(Field(n, start + done, b), done), width))
            == Field(n, start, done + b)
  {
    var piece := Field(n, start + done, b);
    JoinFits(0, piece, done, b);
    Pow2Mono(done + b, width);
    LowId(Shl(piece, done), width);
    OrDisjoint(Field(n, start, done), piece, done);
    FieldSplit(n, start, done, b);
  }

  lemma {:induction false} WholeByte(bytes: seq<nat>, cur: nat, start: nat, i: nat, width: nat)
    requires Bytes(bytes) && cur < |bytes| && 8 * cur == 8 * start + i && i + 8 <= width
    ensures Or(Field(Number(bytes), 8 * start, i), Low(Shl(bytes[cur], i), width))
            == Field(Number(bytes), 8 * start, i + 8)
  {
    LowId(bytes[cur], 8);
    ByteField(bytes, cur, 0, 8);
    Place(Number(bytes), 8 * start, i, 8, width);
  }

  lemma {:induction false} Pow2Mono(a: nat, b: nat)
    requires a <= b
    ensures Pow2(a) <= Pow2(b)
  {
    if a < b { Pow2Mono(a, b - 1); }
  }

  // ---------------------------------------------------------------------------
  // Any sequence of cuts

  function Sum(counts: seq<nat>): (n: nat) {
    if counts == [] then 0 else counts[0] + Sum(counts[1..])
  }

  /** The results of cutting `counts` off from position `start`, laid end to end. */
  function EndToEnd(n: nat, start: nat, counts: seq<nat>): (r: nat)
    decreases |counts|
  {
    if counts == [] then 0
    else Field(n, start, counts[0]) + Shl(EndToEnd(n, start + counts[0], counts[1..]), counts[0])
  }

  /** Laid end to end the cuts are the bits they were cut from, however they are grouped. */
  lemma {:induction false} CutsAreTheBits(n: nat, start: nat, counts: seq<nat>)
    ensures EndToEnd(n, start, counts) == Field(n, start, Sum(counts))
    decreases |counts|
  {
    if counts != [] {
      CutsAreTheBits(n, start + counts[0], counts[1..]);
      FieldSplit(n, start, counts[0], Sum(counts[1..]));
    }
  }

  /** Cutting a list of counts off a splitter, one after the other. */
  method CutAll(s: BitSplitter, counts: seq<nat>) returns (results: seq<nat>)
    requires s.Valid() && Sum(counts) <= s.RestCount()
    requires forall i: nat :: i < |counts| ==> counts[i] <= s.width
    modifies s`cur, s`offset
    ensures s.Valid() && s.BitOffset() == old(s.BitOffset()) + Sum(counts)
    ensures |results| == |counts|
    ensures forall i: nat :: i < |counts| ==>
              results[i] == Field(Number(s.bytes), old(s.BitOffset()) + Sum(counts[..i]), counts[i])
  {
    results := [];
    assert counts[..0] == [];
    var k := 0;
    while k < |counts|
      invariant k <= |counts| == k + |counts[k..]| && |results| == k
      invariant s.Valid() && s.BitOffset() == old(s.BitOffset()) + Sum(counts[..k])
      invariant Sum(counts[..k]) + Sum(counts[k..]) == Sum(counts)
      invariant forall i: nat :: i < k ==>
                  results[i] == Field(Number(s.bytes), old(s.BitOffset()) + Sum(counts[..i]), counts[i])
    {
      SumNext(counts, k);
      var r := s.Cut(counts[k]);
      results := results + [r];
      k := k + 1;
    }
    assert counts[..k] == counts;
  }

  lemma {:induction false} SumNext(counts: seq<nat>, k: nat)
    requires k < |counts|
    ensures Sum(counts[..k + 1]) == Sum(counts[..k]) + counts[k]
    ensures Sum(counts[k..]) == counts[k] + Sum(counts[k + 1..])
  {
    assert counts[k..][1..] == counts[k + 1..];
    if k > 0 {
      SumNext(counts[1..], k - 1);
      assert counts[..k + 1][1..] == counts[1..][..k] && counts[..k][1..] == counts[1..][..k - 1];
    } else {
      assert counts[..1][1..] == [];
    }
  }

  // ---------------------------------------------------------------------------
  // Whole bytes

  /** byte_splitter over results of `width` bits. */
  class ByteSplitter {
    const bytes: seq<nat>
    const width: nat
    var cur: nat

    ghost predicate Valid()
      reads this
    {
      Bytes(bytes) && cur <= |bytes|
    }

    constructor (bytes: seq<nat>, width: nat, start: nat)
      requires Bytes(bytes) && start % 8 == 0 && start <= 8 * |bytes|
      ensures Valid() && this.bytes == bytes && this.width == width && 8 * cur == start
    {
      this.bytes := bytes;
      this.width := width;
      cur := start / 8;
    }

    /** cut, for a whole number of bytes: the same bits as BitSplitter.Cut. */
    method Cut(count: nat) returns (result: nat)
      requires Valid() && count % 8 == 0 && count <= width && 8 * cur + count <= 8 * |bytes|
      modifies this`cur
      ensures Valid() && 8 * cur == 8 * old(cur) + count
      ensures result == Field(Number(bytes), 8 * old(cur), count)
    {
      result := 0;
      ghost var n, start := Number(bytes), cur;
      var i := 0;
      while i < count
        invariant i % 8 == 0 && i <= count && 8 * cur == 8 * start + i
        invariant result == Field(n, 8 * start, i)
      {
        WholeByte(bytes, cur, start, i, width);
        result := Or(result, Low(Shl(bytes[cur], i), width));
        cur := cur + 1;
        i := i + 8;
      }
    }

    /** safe_cut as written: the byte that the cursor is on is left out of the rest, so no
        more than all but the last byte is ever cut. */
    method SafeCut(count: nat) returns (result: nat)
      requires Valid() && count % 8 == 0 && WrittenCount(count, 8 * (|bytes| - cur)) <= width
      modifies this`cur
      ensures Valid()
      ensures var c := WrittenCount(count, 8 * (|bytes| - old(cur)));
              8 * cur == 8 * old(cur) + c && result == Field(Number(bytes), 8 * old(cur), c)
    {
      if cur >= |bytes| {
        return 0;
      }
      var rest := (|bytes| - cur - 1) * 8;
      var c := if rest < count then rest else count;
      if c != 0 {
        result := Cut(c);
      } else {
        result := 0;
      }
    }
  }

  /** How many bits safe_cut takes of `rest` remaining ones, and how many it promises to. */
  function WrittenCount(count: nat, rest: nat): (c: nat) {
    if rest < 8 then 0 else if rest - 8 < count then rest - 8 else count
  }

  function PromisedCount(count: nat, rest: nat): (c: nat) {
    if rest < count then rest else count
  }

  /** Repeating safe_cut never reaches the last byte, so a reader that stops at the end of
      the string does not stop. */
  lemma {:induction false} LastByteNeverCut(counts: seq<nat>, rest: nat)
    requires rest >= 8
    ensures rest - Taken(counts, rest) >= 8
  {
    if counts != [] {
      LastByteNeverCut(counts[1..], rest - WrittenCount(counts[0], rest));
    }
  }

  /** The bits that a series of safe_cut calls takes of `rest`. */
  function Taken(counts: seq<nat>, rest: nat): (n: nat)
    ensures n <= rest
  {
    if counts == [] then 0
    else
      var c := WrittenCount(counts[0], rest);
      c + Taken(counts[1..], rest - c)
  }

  /** safe_cut keeps its promise exactly when the cut stays clear of the last byte. */
  lemma {:induction false} SafeCutIff(count: nat, rest: nat)
    requires rest % 8 == 0
    ensures WrittenCount(count, rest) == PromisedCount(count, rest) <==> rest == 0 || count + 8 <= rest || count == 0
  {
  }

  // ---------------------------------------------------------------------------
  // Numbers

  datatype Outcome = Undefined | Value(value: nat)

  /** (1 << count) - 1 in `int`: beyond 30 bits the shift or the subtraction overflows. */
  function IntMask(count: nat): (r: Outcome) {
    if count <= 30 then Value(Pow2(count) - 1) else Undefined
  }

  /** number_splitter over an unsigned number of `width` bits. */
  class NumberSplitter {
    const number: nat
    const width: nat
    var shift: nat

    ghost predicate Valid()
      reads this
    {
      number < Pow2(width) && shift <= width
    }

    constructor (number: nat, width: nat, start: nat)
      requires number < Pow2(width) && start < width
      ensures Valid() && this.number == number && this.width == width && shift == start
    {
      this.number := number;
      this.width := width;
      shift := start;
    }

    /** cut: defined exactly for counts that the int-typed mask is wide enough for, and then
        the same bits that BitSplitter.Cut gives of the number's bytes. */
    method Cut(count: nat) returns (result: Outcome)
      requires Valid() && shift + count <= width
      modifies this`shift
      ensures Valid() && shift == old(shift) + count
      ensures result == if count <= 30 then Value(Field(number, old(shift), count)) else Undefined
    {
      var mask := IntMask(count);
      if mask.Value? {
        AndMask(Shr(number, shift), count);
        result := Value(And(Shr(number, shift), mask.value));
      } else {
        result := Undefined;
      }
      shift := shift + count;
    }

    /** safe_cut, whose promise for any count holds as far as the mask reaches. */
    method SafeCut(count: nat) returns (result: Outcome)
      requires Valid()
      modifies this`shift
      ensures Valid()
      ensures var c := PromisedCount(count, width - old(shift));
              && shift == old(shift) + c
              && result == if c <= 30 then Value(Field(number, old(shift), c)) else Undefined
    {
      if shift >= width {
        return Value(0);
      }
      var rest := width - shift;
      var c := if rest < count then rest else count;
      if c != 0 {
        result := Cut(c);
      } else {
        result := Value(0);
      }
    }
  }
}
