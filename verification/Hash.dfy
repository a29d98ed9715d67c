/** The finalizer on words (deps/turf/turf/Util.h), which is link by link the finalizer on numbers. */
module Hash32 {
  import A = Avalanche
  import opened Word32

  function Avalanche(h: bv32): (r: bv32) {
    Folded(Scaled(Folded(Scaled(Folded(h, 16), 0x85ebca6b), 13), 0xc2b2ae35), 16)
  }

  function Deavalanche(h: bv32): (r: bv32) {
    Folded(Scaled(Refolded(Scaled(Folded(h, 16), 0x7ed1b41d), 13), 0xa5cb9243), 16)
  }

  /** The multipliers as numbers. */
  lemma FirstFactor()
    ensures Number(0x85ebca6b) == 0x85ebca6b
  {
    Digits();
    DigitsIs(0x85ebca6b);
    DigitsIs(0x85eb);
  }

  lemma SecondFactor()
    ensures Number(0xc2b2ae35) == 0xc2b2ae35
  {
    Digits();
    DigitsIs(0xc2b2ae35);
    DigitsIs(0xc2b2);
  }

  lemma SecondInverse()
    ensures Number(0x7ed1b41d) == 0x7ed1b41d
  {
    Digits();
    DigitsIs(0x7ed1b41d);
    DigitsIs(0x7ed1);
  }

  lemma FirstInverse()
    ensures Number(0xa5cb9243) == 0xa5cb9243
  {
    Digits();
    DigitsIs(0xa5cb9243);
    DigitsIs(0xa5cb);
  }

  /** Words and numbers go through the same links. */
  lemma AvalancheIs(h: bv32)
    ensures Number(Avalanche(h)) == A.Avalanche32(Number(h))
  {
    FirstFactor();
    SecondFactor();
    FoldedIs(h, 16);
    var a := Folded(h, 16);
    ScaledIs(a, 0x85ebca6b);
    var b := Scaled(a, 0x85ebca6b);
    FoldedIs(b, 13);
    var c := Folded(b, 13);
    ScaledIs(c, 0xc2b2ae35);
    var d := Scaled(c, 0xc2b2ae35);
    FoldedIs(d, 16);
  }

  lemma DeavalancheIs(h: bv32)
    ensures Number(Deavalanche(h)) == A.Deavalanche32(Number(h))
  {
    SecondInverse();
    FirstInverse();
    FoldedIs(h, 16);
    var a := Folded(h, 16);
    ScaledIs(a, 0x7ed1b41d);
    var b := Scaled(a, 0x7ed1b41d);
    FoldedIs(b, 13);
    RefoldedIs(b, 13);
    var c := Refolded(b, 13);
    ScaledIs(c, 0xa5cb9243);
    var d := Scaled(c, 0xa5cb9243);
    FoldedIs(d, 16);
  }

  /** Each undoes the other, on every word. */
  lemma ThereAndBack(h: bv32)
    ensures Deavalanche(Avalanche(h)) == h && Avalanche(Deavalanche(h)) == h
  {
    NumberFits(h);
    AvalancheIs(h);
    DeavalancheIs(Avalanche(h));
    A.DeavalancheInverts32(Number(h));
    Injective(Deavalanche(Avalanche(h)), h);
    DeavalancheIs(h);
    AvalancheIs(Deavalanche(h));
    A.AvalancheInverts32(Number(h));
    Injective(Avalanche(Deavalanche(h)), h);
  }

  /** Three words and what they are turned into; each line and each constant matters to some of them. */
  lemma KnownAnswers()
    ensures Avalanche(0x1) == 0x514e28b7
    ensures Avalanche(0x12345675) == 0x9dc5ff04
    ensures Avalanche(0xffffffff) == 0x81f16f39
  {
  }
}

/** The same for 64 bits. */
module Hash64 {
  import A = Avalanche
  import opened Word64

  function Avalanche(h: bv64): (r: bv64) {
    Folded(Scaled(Folded(Scaled(Folded(h, 33), 0xff51afd7ed558ccd), 33), 0xc4ceb9fe1a85ec53), 33)
  }

  function Deavalanche(h: bv64): (r: bv64) {
    Folded(Scaled(Folded(Scaled(Folded(h, 33), 0x9cb4b2f8129337db), 33), 0x4f74430c22a54005), 33)
  }

  /** The multipliers as numbers. */
  lemma FirstFactor()
    ensures Number(0xff51afd7ed558ccd) == 0xff51afd7ed558ccd
  {
    Digits();
    DigitsIs(0xff51afd7ed558ccd);
    DigitsIs(0xff51afd7ed55);
    DigitsIs(0xff51afd7);
    DigitsIs(0xff51);
  }

  lemma SecondFactor()
    ensures Number(0xc4ceb9fe1a85ec53) == 0xc4ceb9fe1a85ec53
  {
    Digits();
    DigitsIs(0xc4ceb9fe1a85ec53);
    DigitsIs(0xc4ceb9fe1a85);
    DigitsIs(0xc4ceb9fe);
    DigitsIs(0xc4ce);
  }

  lemma SecondInverse()
    ensures Number(0x9cb4b2f8129337db) == 0x9cb4b2f8129337db
  {
    Digits();
    DigitsIs(0x9cb4b2f8129337db);
    DigitsIs(0x9cb4b2f81293);
    DigitsIs(0x9cb4b2f8);
    DigitsIs(0x9cb4);
  }

  lemma FirstInverse()
    ensures Number(0x4f74430c22a54005) == 0x4f74430c22a54005
  {
    Digits();
    DigitsIs(0x4f74430c22a54005);
    DigitsIs(0x4f74430c22a5);
    DigitsIs(0x4f74430c);
    DigitsIs(0x4f74);
  }

  /** Words and numbers go through the same links. */
  lemma AvalancheIs(h: bv64)
    ensures Number(Avalanche(h)) == A.Avalanche64(Number(h))
  {
    FirstFactor();
    SecondFactor();
    FoldedIs(h, 33);
    var a := Folded(h, 33);
    ScaledIs(a, 0xff51afd7ed558ccd);
    var b := Scaled(a, 0xff51afd7ed558ccd);
    FoldedIs(b, 33);
    var c := Folded(b, 33);
    ScaledIs(c, 0xc4ceb9fe1a85ec53);
    var d := Scaled(c, 0xc4ceb9fe1a85ec53);
    FoldedIs(d, 33);
  }

  lemma DeavalancheIs(h: bv64)
    ensures Number(Deavalanche(h)) == A.Deavalanche64(Number(h))
  {
    SecondInverse();
    FirstInverse();
    FoldedIs(h, 33);
    var a := Folded(h, 33);
    ScaledIs(a, 0x9cb4b2f8129337db);
    var b := Scaled(a, 0x9cb4b2f8129337db);
    FoldedIs(b, 33);
    var c := Folded(b, 33);
    ScaledIs(c, 0x4f74430c22a54005);
    var d := Scaled(c, 0x4f74430c22a54005);
    FoldedIs(d, 33);
  }

  /** Each undoes the other, on every word. */
  lemma ThereAndBack(h: bv64)
    ensures Deavalanche(Avalanche(h)) == h && Avalanche(Deavalanche(h)) == h
  {
    NumberFits(h);
    AvalancheIs(h);
    DeavalancheIs(Avalanche(h));
    A.DeavalancheInverts64(Number(h));
    Injective(Deavalanche(Avalanche(h)), h);
    DeavalancheIs(h);
    AvalancheIs(Deavalanche(h));
    A.AvalancheInverts64(Number(h));
    Injective(Avalanche(Deavalanche(h)), h);
  }

  /** Three words and what they are turned into; each line and each constant matters to some of them. */
  lemma KnownAnswers()
    ensures Avalanche(0x1) == 0xb456bcfc34c2cb2c
    ensures Avalanche(0x123456789abcdedf) == 0xa9ff35123c54a456
    ensures Avalanche(0xffffffffffffffff) == 0x64b5720b4b825f21
  {
  }
}
