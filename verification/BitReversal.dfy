/** Reversing the bits of a word three ways (deps/cds/cds/algo/bit_reversal.h), and why the
    first works for every word whose length is a power of two. */
module BitReversal {
  import opened Bits

  // ---------------------------------------------------------------------------
  // The three algorithms

  /** SWAR: swap adjacent bits, then pairs, nibbles, bytes and halves. */
  function Swar32(x: bv32): (r: bv32) {
    Swap16(Swap8(Swap4(Swap2(Swap1(x)))))
  }

  function Swap1(x: bv32): (r: bv32) { ((x & 0xaaaaaaaa) >> 1) | ((x & 0x55555555) << 1) }
  function Swap2(x: bv32): (r: bv32) { ((x & 0xcccccccc) >> 2) | ((x & 0x33333333) << 2) }
  function Swap4(x: bv32): (r: bv32) { ((x & 0xf0f0f0f0) >> 4) | ((x & 0x0f0f0f0f) << 4) }
  function Swap8(x: bv32): (r: bv32) { ((x & 0xff00ff00) >> 8) | ((x & 0x00ff00ff) << 8) }
  function Swap16(x: bv32): (r: bv32) { (x >> 16) | (x << 16) }

  /** The 64-bit forms reverse each half and swap them. */
  function Swap64(low: bv32, high: bv32): (r: bv64) {
    ((low as bv64) << 32) | (high as bv64)
  }

  function Swar64(x: bv64): (r: bv64) {
    Swap64(Swar32(Low32(x)), Swar32(High32(x)))
  }

  function Low32(x: bv64): (r: bv32) { (x & 0xffffffff) as bv32 }
  function High32(x: bv64): (r: bv32) { (x >> 32) as bv32 }

  /** Row `r` of the lookup table. */
  function Row(r: nat): (t: seq<bv8>) {
    if r == 0 then [0x00, 0x80, 0x40, 0xC0, 0x20, 0xA0, 0x60, 0xE0, 0x10, 0x90, 0x50, 0xD0, 0x30, 0xB0, 0x70, 0xF0]
    else if r == 1 then [0x08, 0x88, 0x48, 0xC8, 0x28, 0xA8, 0x68, 0xE8, 0x18, 0x98, 0x58, 0xD8, 0x38, 0xB8, 0x78, 0xF8]
    else if r == 2 then [0x04, 0x84, 0x44, 0xC4, 0x24, 0xA4, 0x64, 0xE4, 0x14, 0x94, 0x54, 0xD4, 0x34, 0xB4, 0x74, 0xF4]
    else if r == 3 then [0x0C, 0x8C, 0x4C, 0xCC, 0x2C, 0xAC, 0x6C, 0xEC, 0x1C, 0x9C, 0x5C, 0xDC, 0x3C, 0xBC, 0x7C, 0xFC]
    else if r == 4 then [0x02, 0x82, 0x42, 0xC2, 0x22, 0xA2, 0x62, 0xE2, 0x12, 0x92, 0x52, 0xD2, 0x32, 0xB2, 0x72, 0xF2]
    else if r == 5 then [0x0A, 0x8A, 0x4A, 0xCA, 0x2A, 0xAA, 0x6A, 0xEA, 0x1A, 0x9A, 0x5A, 0xDA, 0x3A, 0xBA, 0x7A, 0xFA]
    else if r == 6 then [0x06, 0x86, 0x46, 0xC6, 0x26, 0xA6, 0x66, 0xE6, 0x16, 0x96, 0x56, 0xD6, 0x36, 0xB6, 0x76, 0xF6]
    else if r == 7 then [0x0E, 0x8E, 0x4E, 0xCE, 0x2E, 0xAE, 0x6E, 0xEE, 0x1E, 0x9E, 0x5E, 0xDE, 0x3E, 0xBE, 0x7E, 0xFE]
    else if r == 8 then [0x01, 0x81, 0x41, 0xC1, 0x21, 0xA1, 0x61, 0xE1, 0x11, 0x91, 0x51, 0xD1, 0x31, 0xB1, 0x71, 0xF1]
    else if r == 9 then [0x09, 0x89, 0x49, 0xC9, 0x29, 0xA9, 0x69, 0xE9, 0x19, 0x99, 0x59, 0xD9, 0x39, 0xB9, 0x79, 0xF9]
    else if r == 10 then [0x05, 0x85, 0x45, 0xC5, 0x25, 0xA5, 0x65, 0xE5, 0x15, 0x95, 0x55, 0xD5, 0x35, 0xB5, 0x75, 0xF5]
    else if r == 11 then [0x0D, 0x8D, 0x4D, 0xCD, 0x2D, 0xAD, 0x6D, 0xED, 0x1D, 0x9D, 0x5D, 0xDD, 0x3D, 0xBD, 0x7D, 0xFD]
    else if r == 12 then [0x03, 0x83, 0x43, 0xC3, 0x23, 0xA3, 0x63, 0xE3, 0x13, 0x93, 0x53, 0xD3, 0x33, 0xB3, 0x73, 0xF3]
    else if r == 13 then [0x0B, 0x8B, 0x4B, 0xCB, 0x2B, 0xAB, 0x6B, 0xEB, 0x1B, 0x9B, 0x5B, 0xDB, 0x3B, 0xBB, 0x7B, 0xFB]
    else if r == 14 then [0x07, 0x87, 0x47, 0xC7, 0x27, 0xA7, 0x67, 0xE7, 0x17, 0x97, 0x57, 0xD7, 0x37, 0xB7, 0x77, 0xF7]
    else [0x0F, 0x8F, 0x4F, 0xCF, 0x2F, 0xAF, 0x6F, 0xEF, 0x1F, 0x9F, 0x5F, 0xDF, 0x3F, 0xBF, 0x7F, 0xFF]
  }

  /** Entry `b` of the table: row and column are its upper and lower nibble. */
  function Table(b: bv8): (r: bv8) {
    Entry((b >> 4) as bv4, (b & 0xf) as bv4)
  }

  function Entry(r: bv4, c: bv4): (e: bv8) {
    assert |Row(r as nat)| == 16;
    Row(r as nat)[c as nat]
  }

  function Byte0(x: bv32): (b: bv8) { (x & 0xff) as bv8 }
  function Byte1(x: bv32): (b: bv8) { ((x >> 8) & 0xff) as bv8 }
  function Byte2(x: bv32): (b: bv8) { ((x >> 16) & 0xff) as bv8 }
  function Byte3(x: bv32): (b: bv8) { ((x >> 24) & 0xff) as bv8 }

  function Word(b3: bv8, b2: bv8, b1: bv8, b0: bv8): (x: bv32) {
    ((b3 as bv32) << 24) | ((b2 as bv32) << 16) | ((b1 as bv32) << 8) | (b0 as bv32)
  }

  function Lookup32(x: bv32): (r: bv32) {
    Word(Table(Byte0(x)), Table(Byte1(x)), Table(Byte2(x)), Table(Byte3(x)))
  }

  /** muldiv32_byte: copies of the byte, one bit picked from each, summed in the middle. */
  function MulByte(b: bv8): (r: bv8) {
    var w := b as bv64;
    ((((((w * 0x0802) & 0x22110) | ((w * 0x8020) & 0x88440)) * 0x10101) >> 16) & 0xff) as bv8
  }

  /** muldiv64_byte: the picked bits are folded together by a remainder. */
  function ModByte(b: bv8): (r: bv8) {
    var w := b as bv64;
    ((((w * 0x0202020202) & 0x010884422010) % 1023) & 0xff) as bv8
  }

  function Mul32(x: bv32): (r: bv32) {
    Word(MulByte(Byte0(x)), MulByte(Byte1(x)), MulByte(Byte2(x)), MulByte(Byte3(x)))
  }

  function Mod32(x: bv32): (r: bv32) {
    Word(ModByte(Byte0(x)), ModByte(Byte1(x)), ModByte(Byte2(x)), ModByte(Byte3(x)))
  }

  function Lookup64(x: bv64): (r: bv64) {
    Swap64(Lookup32(Low32(x)), Lookup32(High32(x)))
  }

  /** The 64-bit forms of muldiv put eight bytes together. */
  function Word64(b7: bv8, b6: bv8, b5: bv8, b4: bv8, b3: bv8, b2: bv8, b1: bv8, b0: bv8): (x: bv64) {
    (b0 as bv64) | ((b1 as bv64) << 8) | ((b2 as bv64) << 16) | ((b3 as bv64) << 24)
    | ((b4 as bv64) << 32) | ((b5 as bv64) << 40) | ((b6 as bv64) << 48) | ((b7 as bv64) << 56)
  }

  function Octet0(x: bv64): (b: bv8) { (x & 0xff) as bv8 }
  function Octet1(x: bv64): (b: bv8) { ((x >> 8) & 0xff) as bv8 }
  function Octet2(x: bv64): (b: bv8) { ((x >> 16) & 0xff) as bv8 }
  function Octet3(x: bv64): (b: bv8) { ((x >> 24) & 0xff) as bv8 }
  function Octet4(x: bv64): (b: bv8) { ((x >> 32) & 0xff) as bv8 }
  function Octet5(x: bv64): (b: bv8) { ((x >> 40) & 0xff) as bv8 }
  function Octet6(x: bv64): (b: bv8) { ((x >> 48) & 0xff) as bv8 }
  function Octet7(x: bv64): (b: bv8) { ((x >> 56) & 0xff) as bv8 }

  function Mul64(x: bv64): (r: bv64) {
    Word64(MulByte(Octet0(x)), MulByte(Octet1(x)), MulByte(Octet2(x)), MulByte(Octet3(x)),
           MulByte(Octet4(x)), MulByte(Octet5(x)), MulByte(Octet6(x)), MulByte(Octet7(x)))
  }

  function Mod64(x: bv64): (r: bv64) {
    Word64(ModByte(Octet0(x)), ModByte(Octet1(x)), ModByte(Octet2(x)), ModByte(Octet3(x)),
           ModByte(Octet4(x)), ModByte(Octet5(x)), ModByte(Octet6(x)), ModByte(Octet7(x)))
  }

  // ---------------------------------------------------------------------------
  // What reversal is

  function Mask(i: nat): (m: bv8) {
    if i == 0 then 1 else if i == 1 then 2 else if i == 2 then 4 else if i == 3 then 8
    else if i == 4 then 16 else if i == 5 then 32 else if i == 6 then 64 else 128
  }

  function BitOf(b: bv8, i: nat): (bit: bool) {
    b & Mask(i) != 0
  }

  /** Bit `i` of a string of bytes, lowest first. */
  function BitAt(bytes: seq<bv8>, i: nat): (bit: bool)
    requires i < 8 * |bytes|
  {
    BitOf(bytes[i / 8], i % 8)
  }

  /** `r` holds the bits of `s` in the opposite order. */
  ghost predicate Mirrors(r: seq<bv8>, s: seq<bv8>) {
    |r| == |s| && forall i: nat :: i < 8 * |s| ==> BitAt(r, i) == BitAt(s, 8 * |s| - 1 - i)
  }

  function Bytes32(x: bv32): (s: seq<bv8>) {
    [Byte0(x), Byte1(x), Byte2(x), Byte3(x)]
  }

  function Bytes64(x: bv64): (s: seq<bv8>) {
    Bytes32(Low32(x)) + Bytes32(High32(x))
  }

  // ---------------------------------------------------------------------------
  // They reverse

  /** The bits of one byte, reversed. */
  function ReversedByte(b: bv8): (r: bv8) {
    Nibbles(Pairs(Singles(b)))
  }

  function Singles(b: bv8): (r: bv8) { ((b & 0xaa) >> 1) | ((b & 0x55) << 1) }
  function Pairs(b: bv8): (r: bv8) { ((b & 0xcc) >> 2) | ((b & 0x33) << 2) }
  function Nibbles(b: bv8): (r: bv8) { (b >> 4) | (b << 4) }

  lemma ByteReverses(b: bv8, i: nat)
    requires i < 8
    ensures BitOf(ReversedByte(b), i) == BitOf(b, 7 - i)
  {
    if i < 4 {
      if i == 0 {} else if i == 1 {} else if i == 2 {} else {}
    } else {
      if i == 4 {} else if i == 5 {} else if i == 6 {} else {}
    }
  }

  /** For any number of bytes: reversing each of them and their order reverses all bits. */
  lemma BytewiseReverses(r: seq<bv8>, s: seq<bv8>)
    requires |r| == |s| && forall j: nat :: j < |s| ==> r[j] == ReversedByte(s[|s| - 1 - j])
    ensures Mirrors(r, s)
  {
    forall i: nat | i < 8 * |s| ensures BitAt(r, i) == BitAt(s, 8 * |s| - 1 - i) {
      var j := i / 8;
      assert (8 * |s| - 1 - i) / 8 == |s| - 1 - j && (8 * |s| - 1 - i) % 8 == 7 - i % 8;
      assert r[j] == ReversedByte(s[|s| - 1 - j]);
      ByteReverses(s[|s| - 1 - j], i % 8);
    }
  }

  lemma TableReverses(b: bv8)
    ensures Table(b) == ReversedByte(b)
  {
    EntryReverses((b >> 4) as bv4, (b & 0xf) as bv4);
    assert ((((b >> 4) as bv4) as bv8) << 4) | (((b & 0xf) as bv4) as bv8) == b;
  }

  lemma EntryReverses(r: bv4, c: bv4)
    ensures Entry(r, c) == ReversedByte(((r as bv8) << 4) | (c as bv8))
  {
    RowReverses(r, c);
  }

  lemma RowReverses(r: bv4, c: bv4)
    ensures var t, k := Row(r as nat), c as nat;
            |t| == 16 && t[k] == ReversedByte(((r as bv8) << 4) | (c as bv8))
  {
  }

  lemma MulReverses(b: bv8)
    ensures MulByte(b) == ReversedByte(b)
  {
  }

  lemma ModReverses(b: bv8)
    ensures ModByte(b) == ReversedByte(b)
  {
  }

  lemma Swap1Bytes(x: bv32)
    ensures var y := Swap1(x);
            && Byte0(y) == Singles(Byte0(x)) && Byte1(y) == Singles(Byte1(x))
            && Byte2(y) == Singles(Byte2(x)) && Byte3(y) == Singles(Byte3(x))
  {
  }

  lemma Swap2Bytes(x: bv32)
    ensures var y := Swap2(x);
            && Byte0(y) == Pairs(Byte0(x)) && Byte1(y) == Pairs(Byte1(x))
            && Byte2(y) == Pairs(Byte2(x)) && Byte3(y) == Pairs(Byte3(x))
  {
  }

  lemma Swap4Bytes(x: bv32)
    ensures var y := Swap4(x);
            && Byte0(y) == Nibbles(Byte0(x)) && Byte1(y) == Nibbles(Byte1(x))
            && Byte2(y) == Nibbles(Byte2(x)) && Byte3(y) == Nibbles(Byte3(x))
  {
  }

  lemma Swap8Bytes(x: bv32)
    ensures var y := Swap8(x);
            Byte0(y) == Byte1(x) && Byte1(y) == Byte0(x) && Byte2(y) == Byte3(x) && Byte3(y) == Byte2(x)
  {
  }

  lemma Swap16Bytes(x: bv32)
    ensures var y := Swap16(x);
            Byte0(y) == Byte2(x) && Byte1(y) == Byte3(x) && Byte2(y) == Byte0(x) && Byte3(y) == Byte1(x)
  {
  }

  lemma SwarBytes(x: bv32)
    ensures var y := Swar32(x);
            && Byte0(y) == ReversedByte(Byte3(x)) && Byte1(y) == ReversedByte(Byte2(x))
            && Byte2(y) == ReversedByte(Byte1(x)) && Byte3(y) == ReversedByte(Byte0(x))
  {
    var x1 := Swap1(x);
    var x2 := Swap2(x1);
    var x4 := Swap4(x2);
    Swap1Bytes(x);
    Swap2Bytes(x1);
    Swap4Bytes(x2);
    Swap8Bytes(x4);
    Swap16Bytes(Swap8(x4));
  }

  lemma WordOfBytes(x: bv32)
    ensures x == Word(Byte3(x), Byte2(x), Byte1(x), Byte0(x))
  {
  }

  lemma BytewiseIsSwar(x: bv32)
    ensures Swar32(x) == Word(ReversedByte(Byte0(x)), ReversedByte(Byte1(x)),
                              ReversedByte(Byte2(x)), ReversedByte(Byte3(x)))
  {
    SwarBytes(x);
    WordOfBytes(Swar32(x));
  }

  /** The table, the products and the remainders all give the reversal that SWAR gives. */
  lemma AllAgree32(x: bv32)
    ensures Lookup32(x) == Swar32(x) && Mul32(x) == Swar32(x) && Mod32(x) == Swar32(x)
  {
    BytewiseIsSwar(x);
    EachByte(Byte0(x));
    EachByte(Byte1(x));
    EachByte(Byte2(x));
    EachByte(Byte3(x));
  }

  lemma EachByte(b: bv8)
    ensures Table(b) == ReversedByte(b) && MulByte(b) == ReversedByte(b) && ModByte(b) == ReversedByte(b)
  {
    TableReverses(b);
    MulReverses(b);
    ModReverses(b);
  }

  lemma Octets(x: bv64)
    ensures Octet0(x) == Byte0(Low32(x)) && Octet1(x) == Byte1(Low32(x))
    ensures Octet2(x) == Byte2(Low32(x)) && Octet3(x) == Byte3(Low32(x))
    ensures Octet4(x) == Byte0(High32(x)) && Octet5(x) == Byte1(High32(x))
    ensures Octet6(x) == Byte2(High32(x)) && Octet7(x) == Byte3(High32(x))
  {
  }

  lemma WordHalves(b7: bv8, b6: bv8, b5: bv8, b4: bv8, b3: bv8, b2: bv8, b1: bv8, b0: bv8)
    ensures Word64(b7, b6, b5, b4, b3, b2, b1, b0) == Swap64(Word(b7, b6, b5, b4), Word(b3, b2, b1, b0))
  {
  }

  lemma MulIsTwoWords(x: bv64)
    ensures Mul64(x) == Swap64(Mul32(Low32(x)), Mul32(High32(x)))
  {
    Octets(x);
    WordHalves(MulByte(Octet0(x)), MulByte(Octet1(x)), MulByte(Octet2(x)), MulByte(Octet3(x)),
               MulByte(Octet4(x)), MulByte(Octet5(x)), MulByte(Octet6(x)), MulByte(Octet7(x)));
  }

  lemma ModIsTwoWords(x: bv64)
    ensures Mod64(x) == Swap64(Mod32(Low32(x)), Mod32(High32(x)))
  {
    Octets(x);
    WordHalves(ModByte(Octet0(x)), ModByte(Octet1(x)), ModByte(Octet2(x)), ModByte(Octet3(x)),
               ModByte(Octet4(x)), ModByte(Octet5(x)), ModByte(Octet6(x)), ModByte(Octet7(x)));
  }

  /** The same for 64-bit words. */
  lemma AllAgree64(x: bv64)
    ensures Lookup64(x) == Swar64(x) && Mul64(x) == Swar64(x) && Mod64(x) == Swar64(x)
  {
    AllAgree32(Low32(x));
    AllAgree32(High32(x));
    MulIsTwoWords(x);
    ModIsTwoWords(x);
  }

  /** SWAR reverses every 32-bit word, and so do the others, by AllAgree32. */
  lemma SwarReverses32(x: bv32)
    ensures Mirrors(Bytes32(Swar32(x)), Bytes32(x))
  {
    SwarBytes(x);
    BytewiseReverses(Bytes32(Swar32(x)), Bytes32(x));
  }

  lemma Halves(low: bv32, high: bv32)
    ensures Low32(Swap64(low, high)) == high && High32(Swap64(low, high)) == low
  {
  }

  lemma BitAtAppend(a: seq<bv8>, b: seq<bv8>, i: nat)
    requires i < 8 * |a + b|
    ensures BitAt(a + b, i) == if i < 8 * |a| then BitAt(a, i) else BitAt(b, i - 8 * |a|)
  {
    if i >= 8 * |a| {
      assert (i - 8 * |a|) / 8 == i / 8 - |a| && (i - 8 * |a|) % 8 == i % 8;
    }
  }

  /** Reversing two halves and swapping them reverses the whole. */
  lemma MirrorsJoin(r1: seq<bv8>, s1: seq<bv8>, r2: seq<bv8>, s2: seq<bv8>)
    requires Mirrors(r1, s1) && Mirrors(r2, s2)
    ensures Mirrors(r2 + r1, s1 + s2)
  {
    var n := 8 * |s1 + s2|;
    forall i: nat | i < n ensures BitAt(r2 + r1, i) == BitAt(s1 + s2, n - 1 - i) {
      BitAtAppend(r2, r1, i);
      BitAtAppend(s1, s2, n - 1 - i);
    }
  }

  lemma SwarReverses64(x: bv64)
    ensures Mirrors(Bytes64(Swar64(x)), Bytes64(x))
  {
    SwarReverses32(Low32(x));
    SwarReverses32(High32(x));
    Halves(Swar32(Low32(x)), Swar32(High32(x)));
    MirrorsJoin(Bytes32(Swar32(Low32(x))), Bytes32(Low32(x)), Bytes32(Swar32(High32(x))), Bytes32(High32(x)));
  }

  /** All four algorithms reverse every word of both widths. */
  lemma AllReverse(x: bv32, y: bv64)
    ensures Mirrors(Bytes32(Lookup32(x)), Bytes32(x)) && Mirrors(Bytes64(Lookup64(y)), Bytes64(y))
    ensures Mirrors(Bytes32(Mul32(x)), Bytes32(x)) && Mirrors(Bytes64(Mul64(y)), Bytes64(y))
    ensures Mirrors(Bytes32(Mod32(x)), Bytes32(x)) && Mirrors(Bytes64(Mod64(y)), Bytes64(y))
  {
    AllAgree32(x);
    AllAgree64(y);
    SwarReverses32(x);
    SwarReverses64(y);
  }

  /** Reversing twice gives the word back. */
  lemma SwarTwice32(x: bv32)
    ensures Swar32(Swar32(x)) == x
  {
    var y := Swar32(x);
    SwarBytes(x);
    SwarBytes(y);
    ByteTwice(Byte0(x));
    ByteTwice(Byte1(x));
    ByteTwice(Byte2(x));
    ByteTwice(Byte3(x));
    WordOfBytes(x);
    WordOfBytes(Swar32(y));
  }

  lemma ByteTwice(b: bv8)
    ensures ReversedByte(ReversedByte(b)) == b
  {
  }

  lemma SwarTwice64(x: bv64)
    ensures Swar64(Swar64(x)) == x
  {
    Halves(Swar32(Low32(x)), Swar32(High32(x)));
    SwarTwice32(Low32(x));
    SwarTwice32(High32(x));
    Rejoined(x);
  }

  lemma Rejoined(x: bv64)
    ensures Swap64(High32(x), Low32(x)) == x
  {
  }

  /** So do the others, at both widths. */
  lemma AllTwice(x: bv32, y: bv64)
    ensures Lookup32(Lookup32(x)) == x && Lookup64(Lookup64(y)) == y
    ensures Mul32(Mul32(x)) == x && Mul64(Mul64(y)) == y
    ensures Mod32(Mod32(x)) == x && Mod64(Mod64(y)) == y
  {
    Twice32(x);
    Twice64(y);
  }

  lemma Twice32(x: bv32)
    ensures Lookup32(Lookup32(x)) == x && Mul32(Mul32(x)) == x && Mod32(Mod32(x)) == x
  {
    AllAgree32(x);
    AllAgree32(Swar32(x));
    SwarTwice32(x);
  }

  lemma Twice64(x: bv64)
    ensures Lookup64(Lookup64(x)) == x && Mul64(Mul64(x)) == x && Mod64(Mod64(x)) == x
  {
    AllAgree64(x);
    AllAgree64(Swar64(x));
    SwarTwice64(x);
  }

  // ---------------------------------------------------------------------------
  // Why: swapping blocks of any length that is a power of two

  /** Adjacent blocks of length `b` swapped, throughout `s`. */
  function Swapped<T>(s: seq<T>, b: nat): (r: seq<T>)
    requires b > 0
    ensures |r| == |s|
  {
    if |s| < 2 * b then s else s[b..2 * b] + s[..b] + Swapped(s[2 * b..], b)
  }

  /** Blocks of length 1, 2, 4, ... up to half of 2^k swapped, one length after the other. */
  function SwappedAll<T>(s: seq<T>, k: nat): (r: seq<T>)
    ensures |r| == |s|
  {
    if k == 0 then s else Swapped(SwappedAll(s, k - 1), Pow2(k - 1))
  }

  function Reversed<T>(s: seq<T>): (r: seq<T>)
    ensures |r| == |s|
  {
    if s == [] then [] else Reversed(s[1..]) + [s[0]]
  }

  lemma {:induction false} ReversedAppend<T>(a: seq<T>, b: seq<T>)
    ensures Reversed(a + b) == Reversed(b) + Reversed(a)
  {
    if a == [] {
      assert a + b == b;
    } else {
      assert (a + b)[1..] == a[1..] + b;
      ReversedAppend(a[1..], b);
    }
  }

  /** `n` is a multiple of `b`. */
  ghost predicate Whole(n: nat, b: nat)
    requires b > 0
  {
    n == 0 || (n >= b && Whole(n - b, b))
  }

  /** Swapping works on the two parts of a sequence separately if no block straddles them. */
  lemma {:induction false} SwappedAppend<T>(s: seq<T>, t: seq<T>, b: nat)
    requires b > 0 && Whole(|s|, 2 * b)
    ensures Swapped(s + t, b) == Swapped(s, b) + Swapped(t, b)
  {
    if s == [] {
      assert s + t == t;
    } else {
      assert (s + t)[b..2 * b] == s[b..2 * b] && (s + t)[..b] == s[..b];
      assert (s + t)[2 * b..] == s[2 * b..] + t;
      SwappedAppend(s[2 * b..], t, b);
    }
  }

  lemma {:induction false} WholeSum(m: nat, n: nat, b: nat)
    requires b > 0 && Whole(m, b) && Whole(n, b)
    ensures Whole(m + n, b)
  {
    if m > 0 { WholeSum(m - b, n, b); }
  }

  lemma {:induction false} WholePow2(k: nat, j: nat)
    requires j <= k
    ensures Whole(Pow2(k), Pow2(j))
  {
    if j < k {
      WholePow2(k - 1, j);
      WholeSum(Pow2(k - 1), Pow2(k - 1), Pow2(j));
    } else {
      assert Whole(0, Pow2(j));
    }
  }

  lemma {:induction false} SwappedAllAppend<T>(s: seq<T>, t: seq<T>, k: nat, j: nat)
    requires |s| == Pow2(k) && j <= k
    ensures SwappedAll(s + t, j) == SwappedAll(s, j) + SwappedAll(t, j)
  {
    if j > 0 {
      SwappedAllAppend(s, t, k, j - 1);
      WholePow2(k, j);
      SwappedAppend(SwappedAll(s, j - 1), SwappedAll(t, j - 1), Pow2(j - 1));
    }
  }

  /** Swapping blocks of length 1, 2, 4, ... reverses every sequence of length 2^k. */
  lemma {:induction false} SwapsReverse<T>(s: seq<T>, k: nat)
    requires |s| == Pow2(k)
    ensures SwappedAll(s, k) == Reversed(s)
  {
    if k > 0 {
      var h := Pow2(k - 1);
      var low, high := s[..h], s[h..];
      assert s == low + high;
      SwapsReverse(low, k - 1);
      SwapsReverse(high, k - 1);
      SwappedAllAppend(low, high, k - 1, k - 1);
      ReversedAppend(low, high);
      OneSwap(Reversed(low), Reversed(high));
    } else {
      assert s == [s[0]] && Reversed(s[1..]) == [];
    }
  }

  lemma {:induction false} OneSwap<T>(a: seq<T>, b: seq<T>)
    requires |a| == |b| > 0
    ensures Swapped(a + b, |a|) == b + a
  {
    assert (a + b)[|a|..2 * |a|] == b && (a + b)[..|a|] == a && (a + b)[2 * |a|..] == [];
  }

  // ---------------------------------------------------------------------------
  // SWAR does just that

  /** Where swapping blocks of length `b` takes position `i` from. */
  function Partner(i: nat, b: nat): (j: nat)
    requires b > 0
  {
    if i < b then i + b else if i < 2 * b then i - b else 2 * b + Partner(i - 2 * b, b)
  }

  lemma {:induction false} SwappedAt<T>(s: seq<T>, b: nat, i: nat)
    requires b > 0 && Whole(|s|, 2 * b) && i < |s|
    ensures Partner(i, b) < |s| && Swapped(s, b)[i] == s[Partner(i, b)]
  {
    if i >= 2 * b {
      SwappedAt(s[2 * b..], b, i - 2 * b);
      assert Swapped(s, b)[i] == Swapped(s[2 * b..], b)[i - 2 * b];
    }
  }

  function Bits32(x: bv32): (s: seq<bool>) {
    seq(32, i requires 0 <= i < 32 => BitAt(Bytes32(x), i))
  }

  /** Bit by bit, `t` is `s` with blocks of length `b` swapped. */
  ghost predicate Swaps(s: seq<bv8>, t: seq<bv8>, b: nat)
    requires b > 0 && |s| == |t| == 4
  {
    forall i: nat :: i < 32 ==> Partner(i, b) < 32 && BitAt(t, i) == BitAt(s, Partner(i, b))
  }

  lemma {:induction false} SwapsBits(x: bv32, y: bv32, k: nat)
    requires k < 5 && Swaps(Bytes32(x), Bytes32(y), Pow2(k))
    ensures Bits32(y) == Swapped(Bits32(x), Pow2(k))
  {
    assert Pow2(5) == 32;
    WholePow2(5, k + 1);
    forall i: nat | i < 32 ensures Bits32(y)[i] == Swapped(Bits32(x), Pow2(k))[i] {
      SwappedAt(Bits32(x), Pow2(k), i);
    }
  }

  lemma {:induction false} PartnerOfOne(r: nat)
    requires r < 8
    ensures Partner(r, 1) == (if r % 2 == 0 then r + 1 else r - 1) < 8
  {
    if r >= 2 { PartnerOfOne(r - 2); }
  }

  lemma {:induction false} PartnerOfTwo(r: nat)
    requires r < 8
    ensures Partner(r, 2) == (if r / 2 % 2 == 0 then r + 2 else r - 2) < 8
  {
    if r >= 4 { PartnerOfTwo(r - 4); }
  }

  /** Swapping within bytes is swapping in each byte. */
  lemma {:induction false} SwapsInBytes(s: seq<bv8>, t: seq<bv8>, b: nat)
    requires |s| == |t| == 4 && (b == 1 || b == 2 || b == 4)
    requires forall j: nat, r: nat :: j < 4 && r < 8 ==> ByteSwaps(s[j], t[j], b, r)
    ensures Swaps(s, t, b)
  {
    forall i: nat | i < 32 ensures Partner(i, b) < 32 && BitAt(t, i) == BitAt(s, Partner(i, b)) {
      assert ByteSwaps(s[i / 8], t[i / 8], b, i % 8);
      PartnerInByte(i / 8, i % 8, b);
      BitIn(s, i / 8, Partner(i % 8, b));
      BitIn(t, i / 8, i % 8);
    }
  }

  predicate ByteSwaps(x: bv8, y: bv8, b: nat, r: nat)
    requires b > 0
  {
    Partner(r, b) < 8 && BitOf(y, r) == BitOf(x, Partner(r, b))
  }

  lemma {:induction false} BitIn(s: seq<bv8>, j: nat, r: nat)
    requires j < |s| && r < 8
    ensures BitAt(s, 8 * j + r) == BitOf(s[j], r)
  {
    assert (8 * j + r) / 8 == j && (8 * j + r) % 8 == r;
  }

  /** Swapping whole bytes. */
  lemma {:induction false} SwapsBytes(s: seq<bv8>, t: seq<bv8>, b: nat)
    requires |s| == |t| == 4
    requires (b == 8 && t == [s[1], s[0], s[3], s[2]]) || (b == 16 && t == [s[2], s[3], s[0], s[1]])
    ensures Swaps(s, t, b)
  {
    forall i: nat | i < 32 ensures Partner(i, b) < 32 && BitAt(t, i) == BitAt(s, Partner(i, b)) {
      BitIn(t, i / 8, i % 8);
      var j := if b == 8 then [1, 0, 3, 2][i / 8] else [2, 3, 0, 1][i / 8];
      assert Partner(i, b) == 8 * j + i % 8;
      BitIn(s, j, i % 8);
    }
  }

  lemma {:induction false} PartnerInByte(j: nat, r: nat, b: nat)
    requires r < 8 && (b == 1 || b == 2 || b == 4)
    ensures Partner(8 * j + r, b) == 8 * j + Partner(r, b)
  {
    if j > 0 {
      PartnerInByte(j - 1, r, b);
      PartnerSteps(8 * (j - 1) + r, b);
    }
  }

  lemma {:induction false} PartnerSteps(i: nat, b: nat)
    requires b == 1 || b == 2 || b == 4
    ensures Partner(i + 8, b) == 8 + Partner(i, b)
  {
    if b == 1 {
      assert Partner(i + 8, 1) == 2 + Partner(i + 6, 1) && Partner(i + 6, 1) == 2 + Partner(i + 4, 1);
      assert Partner(i + 4, 1) == 2 + Partner(i + 2, 1) && Partner(i + 2, 1) == 2 + Partner(i, 1);
    } else if b == 2 {
      assert Partner(i + 8, 2) == 4 + Partner(i + 4, 2) && Partner(i + 4, 2) == 4 + Partner(i, 2);
    }
  }

  lemma SinglesSwap(b: bv8, i: nat)
    requires i < 8
    ensures BitOf(Singles(b), i) == BitOf(b, if i % 2 == 0 then i + 1 else i - 1)
  {
    if i < 4 {
      if i == 0 {} else if i == 1 {} else if i == 2 {} else {}
    } else {
      if i == 4 {} else if i == 5 {} else if i == 6 {} else {}
    }
  }

  lemma PairsSwap(b: bv8, i: nat)
    requires i < 8
    ensures BitOf(Pairs(b), i) == BitOf(b, if i / 2 % 2 == 0 then i + 2 else i - 2)
  {
    if i < 4 {
      if i == 0 {} else if i == 1 {} else if i == 2 {} else {}
    } else {
      if i == 4 {} else if i == 5 {} else if i == 6 {} else {}
    }
  }

  lemma NibblesSwap(b: bv8, i: nat)
    requires i < 8
    ensures BitOf(Nibbles(b), i) == BitOf(b, if i < 4 then i + 4 else i - 4)
  {
    if i < 4 {
      if i == 0 {} else if i == 1 {} else if i == 2 {} else {}
    } else {
      if i == 4 {} else if i == 5 {} else if i == 6 {} else {}
    }
  }

  lemma Swap1Swaps(x: bv32)
    ensures Swaps(Bytes32(x), Bytes32(Swap1(x)), 1)
  {
    Swap1Bytes(x);
    var s, t := Bytes32(x), Bytes32(Swap1(x));
    forall j: nat, r: nat | j < 4 && r < 8
      ensures ByteSwaps(s[j], t[j], 1, r)
    {
      PartnerOfOne(r);
      SinglesSwap(s[j], r);
    }
    SwapsInBytes(s, t, 1);
  }

  lemma Swap2Swaps(x: bv32)
    ensures Swaps(Bytes32(x), Bytes32(Swap2(x)), 2)
  {
    Swap2Bytes(x);
    var s, t := Bytes32(x), Bytes32(Swap2(x));
    forall j: nat, r: nat | j < 4 && r < 8
      ensures ByteSwaps(s[j], t[j], 2, r)
    {
      PartnerOfTwo(r);
      PairsSwap(s[j], r);
    }
    SwapsInBytes(s, t, 2);
  }

  lemma Swap4Swaps(x: bv32)
    ensures Swaps(Bytes32(x), Bytes32(Swap4(x)), 4)
  {
    Swap4Bytes(x);
    var s, t := Bytes32(x), Bytes32(Swap4(x));
    forall j: nat, r: nat | j < 4 && r < 8
      ensures ByteSwaps(s[j], t[j], 4, r)
    {
      NibblesSwap(s[j], r);
    }
    SwapsInBytes(s, t, 4);
  }

  lemma Swap8Swaps(x: bv32)
    ensures Swaps(Bytes32(x), Bytes32(Swap8(x)), 8)
  {
    Swap8Bytes(x);
    SwapsBytes(Bytes32(x), Bytes32(Swap8(x)), 8);
  }

  lemma Swap16Swaps(x: bv32)
    ensures Swaps(Bytes32(x), Bytes32(Swap16(x)), 16)
  {
    Swap16Bytes(x);
    SwapsBytes(Bytes32(x), Bytes32(Swap16(x)), 16);
  }

  /** The five mask-and-shift lines of SWAR are the block swaps of lengths 1 to 16, and so
      reverse the list of bits. */
  lemma {:induction false} SwarIsSwaps(x: bv32)
    ensures Bits32(Swar32(x)) == SwappedAll(Bits32(x), 5) == Reversed(Bits32(x))
  {
    var x1 := Swap1(x);
    var x2 := Swap2(x1);
    var x4 := Swap4(x2);
    var x8 := Swap8(x4);
    Stages(x, x1, x2, x4, x8);
    assert Pow2(5) == 32;
    SwapsReverse(Bits32(x), 5);
  }

  lemma {:induction false} Stages(x: bv32, x1: bv32, x2: bv32, x4: bv32, x8: bv32)
    requires x1 == Swap1(x) && x2 == Swap2(x1) && x4 == Swap4(x2) && x8 == Swap8(x4)
    ensures Bits32(Swap16(x8)) == SwappedAll(Bits32(x), 5)
  {
    Swap1Swaps(x);
    SwapsBits(x, x1, 0);
    Swap2Swaps(x1);
    SwapsBits(x1, x2, 1);
    Swap4Swaps(x2);
    SwapsBits(x2, x4, 2);
    Swap8Swaps(x4);
    SwapsBits(x4, x8, 3);
    Swap16Swaps(x8);
    SwapsBits(x8, Swap16(x8), 4);
    var s := Bits32(x);
    assert SwappedAll(s, 1) == Bits32(x1);
    assert SwappedAll(s, 2) == Bits32(x2);
    assert SwappedAll(s, 3) == Bits32(x4);
    assert SwappedAll(s, 4) == Bits32(x8);
  }
}
