/** The S-box byte by byte: the table of figure 7 of FIPS 197, which the source also ships for read-only memory. */
module AesSbox {
  import opened Words
  import opened Gf256
  import opened AesTables

  /** The inverse is the only byte with product 1. */
  lemma InverseIs(x: byte, c: byte)
    requires Mul(x, c) == 1
    ensures Inverse(x) == c
  {
    hide Mul, Inverse;
    if x == 0 {
      MulZeros(0, c);
    } else {
      InverseLaws(x);
      MulAssoc(c, x, Inverse(x));
      MulComm(c, x);
      MulOne(Inverse(x));
      MulComm(c, 1);
      MulOne(c);
    }
  }

  // ----- a product without recursion

  function Bits(x: byte, y: byte, more: byte): byte { Add(if LowBit(y) then x else 0, more) }

  function Product(x: byte, y: byte): byte {
    var x1, y1 := XTime(x), Rest(y);
    var x2, y2 := XTime(x1), Rest(y1);
    var x3, y3 := XTime(x2), Rest(y2);
    var x4, y4 := XTime(x3), Rest(y3);
    var x5, y5 := XTime(x4), Rest(y4);
    var x6, y6 := XTime(x5), Rest(y5);
    var rest := Bits(x5, y5, Bits(x6, y6, Bits(XTime(x6), Rest(y6), 0)));
    Bits(x, y, Bits(x1, y1, Bits(x2, y2, Bits(x3, y3, Bits(x4, y4, rest)))))
  }

  lemma MulBitsIs(n: nat, x: byte, y: byte)
    ensures MulBits(0, x, y) == 0 && MulBits(n + 1, x, y) == Bits(x, y, MulBits(n, XTime(x), Rest(y)))
  {
    hide Add, XTime, LowBit, Rest;
  }

  lemma ProductIs(x: byte, y: byte)
    ensures Product(x, y) == Mul(x, y)
  {
    hide XTime, Rest, Bits, MulBits;
    var x1, y1 := XTime(x), Rest(y);
    var x2, y2 := XTime(x1), Rest(y1);
    var x3, y3 := XTime(x2), Rest(y2);
    var x4, y4 := XTime(x3), Rest(y3);
    var x5, y5 := XTime(x4), Rest(y4);
    var x6, y6 := XTime(x5), Rest(y5);
    var x7, y7 := XTime(x6), Rest(y6);
    MulBitsIs(7, x, y);
    MulBitsIs(6, x1, y1);
    MulBitsIs(5, x2, y2);
    MulBitsIs(4, x3, y3);
    MulBitsIs(3, x4, y4);
    MulBitsIs(2, x5, y5);
    MulBitsIs(1, x6, y6);
    MulBitsIs(0, x7, y7);
    MulBitsIs(0, XTime(x7), Rest(y7));
  }

  lemma SubIs(x: byte, c: byte)
    requires Product(x, c) == 1
    ensures Sub(x) == Affine(c)
  {
    hide Product, Mul, Inverse, Affine;
    ProductIs(x, c);
    InverseIs(x, c);
  }

  lemma SubOfZero()
    ensures Sub(0) == 0x63
  {}

  // ----- the values, by the inverses

  lemma SubRow0()
    ensures Sub(0x00) == 0x63 && Sub(0x01) == 0x7c && Sub(0x02) == 0x77 && Sub(0x03) == 0x7b
    ensures Sub(0x04) == 0xf2 && Sub(0x05) == 0x6b && Sub(0x06) == 0x6f && Sub(0x07) == 0xc5
    ensures Sub(0x08) == 0x30 && Sub(0x09) == 0x01 && Sub(0x0a) == 0x67 && Sub(0x0b) == 0x2b
    ensures Sub(0x0c) == 0xfe && Sub(0x0d) == 0xd7 && Sub(0x0e) == 0xab && Sub(0x0f) == 0x76
  {
    hide Sub;
    SubOfZero(); SubIs(0x01, 0x01); SubIs(0x02, 0x8d); SubIs(0x03, 0xf6);
    SubIs(0x04, 0xcb); SubIs(0x05, 0x52); SubIs(0x06, 0x7b); SubIs(0x07, 0xd1);
    SubIs(0x08, 0xe8); SubIs(0x09, 0x4f); SubIs(0x0a, 0x29); SubIs(0x0b, 0xc0);
    SubIs(0x0c, 0xb0); SubIs(0x0d, 0xe1); SubIs(0x0e, 0xe5); SubIs(0x0f, 0xc7);
  }

  lemma SubRow1()
    ensures Sub(0x10) == 0xca && Sub(0x11) == 0x82 && Sub(0x12) == 0xc9 && Sub(0x13) == 0x7d
    ensures Sub(0x14) == 0xfa && Sub(0x15) == 0x59 && Sub(0x16) == 0x47 && Sub(0x17) == 0xf0
    ensures Sub(0x18) == 0xad && Sub(0x19) == 0xd4 && Sub(0x1a) == 0xa2 && Sub(0x1b) == 0xaf
    ensures Sub(0x1c) == 0x9c && Sub(0x1d) == 0xa4 && Sub(0x1e) == 0x72 && Sub(0x1f) == 0xc0
  {
    hide Sub;
    SubIs(0x10, 0x74); SubIs(0x11, 0xb4); SubIs(0x12, 0xaa); SubIs(0x13, 0x4b);
    SubIs(0x14, 0x99); SubIs(0x15, 0x2b); SubIs(0x16, 0x60); SubIs(0x17, 0x5f);
    SubIs(0x18, 0x58); SubIs(0x19, 0x3f); SubIs(0x1a, 0xfd); SubIs(0x1b, 0xcc);
    SubIs(0x1c, 0xff); SubIs(0x1d, 0x40); SubIs(0x1e, 0xee); SubIs(0x1f, 0xb2);
  }

  lemma SubRow2()
    ensures Sub(0x20) == 0xb7 && Sub(0x21) == 0xfd && Sub(0x22) == 0x93 && Sub(0x23) == 0x26
    ensures Sub(0x24) == 0x36 && Sub(0x25) == 0x3f && Sub(0x26) == 0xf7 && Sub(0x27) == 0xcc
    ensures Sub(0x28) == 0x34 && Sub(0x29) == 0xa5 && Sub(0x2a) == 0xe5 && Sub(0x2b) == 0xf1
    ensures Sub(0x2c) == 0x71 && Sub(0x2d) == 0xd8 && Sub(0x2e) == 0x31 && Sub(0x2f) == 0x15
  {
    hide Sub;
    SubIs(0x20, 0x3a); SubIs(0x21, 0x6e); SubIs(0x22, 0x5a); SubIs(0x23, 0xf1);
    SubIs(0x24, 0x55); SubIs(0x25, 0x4d); SubIs(0x26, 0xa8); SubIs(0x27, 0xc9);
    SubIs(0x28, 0xc1); SubIs(0x29, 0x0a); SubIs(0x2a, 0x98); SubIs(0x2b, 0x15);
    SubIs(0x2c, 0x30); SubIs(0x2d, 0x44); SubIs(0x2e, 0xa2); SubIs(0x2f, 0xc2);
  }

  lemma SubRow3()
    ensures Sub(0x30) == 0x04 && Sub(0x31) == 0xc7 && Sub(0x32) == 0x23 && Sub(0x33) == 0xc3
    ensures Sub(0x34) == 0x18 && Sub(0x35) == 0x96 && Sub(0x36) == 0x05 && Sub(0x37) == 0x9a
    ensures Sub(0x38) == 0x07 && Sub(0x39) == 0x12 && Sub(0x3a) == 0x80 && Sub(0x3b) == 0xe2
    ensures Sub(0x3c) == 0xeb && Sub(0x3d) == 0x27 && Sub(0x3e) == 0xb2 && Sub(0x3f) == 0x75
  {
    hide Sub;
    SubIs(0x30, 0x2c); SubIs(0x31, 0x45); SubIs(0x32, 0x92); SubIs(0x33, 0x6c);
    SubIs(0x34, 0xf3); SubIs(0x35, 0x39); SubIs(0x36, 0x66); SubIs(0x37, 0x42);
    SubIs(0x38, 0xf2); SubIs(0x39, 0x35); SubIs(0x3a, 0x20); SubIs(0x3b, 0x6f);
    SubIs(0x3c, 0x77); SubIs(0x3d, 0xbb); SubIs(0x3e, 0x59); SubIs(0x3f, 0x19);
  }

  lemma SubRow4()
    ensures Sub(0x40) == 0x09 && Sub(0x41) == 0x83 && Sub(0x42) == 0x2c && Sub(0x43) == 0x1a
    ensures Sub(0x44) == 0x1b && Sub(0x45) == 0x6e && Sub(0x46) == 0x5a && Sub(0x47) == 0xa0
    ensures Sub(0x48) == 0x52 && Sub(0x49) == 0x3b && Sub(0x4a) == 0xd6 && Sub(0x4b) == 0xb3
    ensures Sub(0x4c) == 0x29 && Sub(0x4d) == 0xe3 && Sub(0x4e) == 0x2f && Sub(0x4f) == 0x84
  {
    hide Sub;
    SubIs(0x40, 0x1d); SubIs(0x41, 0xfe); SubIs(0x42, 0x37); SubIs(0x43, 0x67);
    SubIs(0x44, 0x2d); SubIs(0x45, 0x31); SubIs(0x46, 0xf5); SubIs(0x47, 0x69);
    SubIs(0x48, 0xa7); SubIs(0x49, 0x64); SubIs(0x4a, 0xab); SubIs(0x4b, 0x13);
    SubIs(0x4c, 0x54); SubIs(0x4d, 0x25); SubIs(0x4e, 0xe9); SubIs(0x4f, 0x09);
  }

  lemma SubRow5()
    ensures Sub(0x50) == 0x53 && Sub(0x51) == 0xd1 && Sub(0x52) == 0x00 && Sub(0x53) == 0xed
    ensures Sub(0x54) == 0x20 && Sub(0x55) == 0xfc && Sub(0x56) == 0xb1 && Sub(0x57) == 0x5b
    ensures Sub(0x58) == 0x6a && Sub(0x59) == 0xcb && Sub(0x5a) == 0xbe && Sub(0x5b) == 0x39
    ensures Sub(0x5c) == 0x4a && Sub(0x5d) == 0x4c && Sub(0x5e) == 0x58 && Sub(0x5f) == 0xcf
  {
    hide Sub;
    SubIs(0x50, 0xed); SubIs(0x51, 0x5c); SubIs(0x52, 0x05); SubIs(0x53, 0xca);
    SubIs(0x54, 0x4c); SubIs(0x55, 0x24); SubIs(0x56, 0x87); SubIs(0x57, 0xbf);
    SubIs(0x58, 0x18); SubIs(0x59, 0x3e); SubIs(0x5a, 0x22); SubIs(0x5b, 0xf0);
    SubIs(0x5c, 0x51); SubIs(0x5d, 0xec); SubIs(0x5e, 0x61); SubIs(0x5f, 0x17);
  }

  lemma SubRow6()
    ensures Sub(0x60) == 0xd0 && Sub(0x61) == 0xef && Sub(0x62) == 0xaa && Sub(0x63) == 0xfb
    ensures Sub(0x64) == 0x43 && Sub(0x65) == 0x4d && Sub(0x66) == 0x33 && Sub(0x67) == 0x85
    ensures Sub(0x68) == 0x45 && Sub(0x69) == 0xf9 && Sub(0x6a) == 0x02 && Sub(0x6b) == 0x7f
    ensures Sub(0x6c) == 0x50 && Sub(0x6d) == 0x3c && Sub(0x6e) == 0x9f && Sub(0x6f) == 0xa8
  {
    hide Sub;
    SubIs(0x60, 0x16); SubIs(0x61, 0x5e); SubIs(0x62, 0xaf); SubIs(0x63, 0xd3);
    SubIs(0x64, 0x49); SubIs(0x65, 0xa6); SubIs(0x66, 0x36); SubIs(0x67, 0x43);
    SubIs(0x68, 0xf4); SubIs(0x69, 0x47); SubIs(0x6a, 0x91); SubIs(0x6b, 0xdf);
    SubIs(0x6c, 0x33); SubIs(0x6d, 0x93); SubIs(0x6e, 0x21); SubIs(0x6f, 0x3b);
  }

  lemma SubRow7()
    ensures Sub(0x70) == 0x51 && Sub(0x71) == 0xa3 && Sub(0x72) == 0x40 && Sub(0x73) == 0x8f
    ensures Sub(0x74) == 0x92 && Sub(0x75) == 0x9d && Sub(0x76) == 0x38 && Sub(0x77) == 0xf5
    ensures Sub(0x78) == 0xbc && Sub(0x79) == 0xb6 && Sub(0x7a) == 0xda && Sub(0x7b) == 0x21
    ensures Sub(0x7c) == 0x10 && Sub(0x7d) == 0xff && Sub(0x7e) == 0xf3 && Sub(0x7f) == 0xd2
  {
    hide Sub;
    SubIs(0x70, 0x79); SubIs(0x71, 0xb7); SubIs(0x72, 0x97); SubIs(0x73, 0x85);
    SubIs(0x74, 0x10); SubIs(0x75, 0xb5); SubIs(0x76, 0xba); SubIs(0x77, 0x3c);
    SubIs(0x78, 0xb6); SubIs(0x79, 0x70); SubIs(0x7a, 0xd0); SubIs(0x7b, 0x06);
    SubIs(0x7c, 0xa1); SubIs(0x7d, 0xfa); SubIs(0x7e, 0x81); SubIs(0x7f, 0x82);
  }

  lemma SubRow8()
    ensures Sub(0x80) == 0xcd && Sub(0x81) == 0x0c && Sub(0x82) == 0x13 && Sub(0x83) == 0xec
    ensures Sub(0x84) == 0x5f && Sub(0x85) == 0x97 && Sub(0x86) == 0x44 && Sub(0x87) == 0x17
    ensures Sub(0x88) == 0xc4 && Sub(0x89) == 0xa7 && Sub(0x8a) == 0x7e && Sub(0x8b) == 0x3d
    ensures Sub(0x8c) == 0x64 && Sub(0x8d) == 0x5d && Sub(0x8e) == 0x19 && Sub(0x8f) == 0x73
  {
    hide Sub;
    SubIs(0x80, 0x83); SubIs(0x81, 0x7e); SubIs(0x82, 0x7f); SubIs(0x83, 0x80);
    SubIs(0x84, 0x96); SubIs(0x85, 0x73); SubIs(0x86, 0xbe); SubIs(0x87, 0x56);
    SubIs(0x88, 0x9b); SubIs(0x89, 0x9e); SubIs(0x8a, 0x95); SubIs(0x8b, 0xd9);
    SubIs(0x8c, 0xf7); SubIs(0x8d, 0x02); SubIs(0x8e, 0xb9); SubIs(0x8f, 0xa4);
  }

  lemma SubRow9()
    ensures Sub(0x90) == 0x60 && Sub(0x91) == 0x81 && Sub(0x92) == 0x4f && Sub(0x93) == 0xdc
    ensures Sub(0x94) == 0x22 && Sub(0x95) == 0x2a && Sub(0x96) == 0x90 && Sub(0x97) == 0x88
    ensures Sub(0x98) == 0x46 && Sub(0x99) == 0xee && Sub(0x9a) == 0xb8 && Sub(0x9b) == 0x14
    ensures Sub(0x9c) == 0xde && Sub(0x9d) == 0x5e && Sub(0x9e) == 0x0b && Sub(0x9f) == 0xdb
  {
    hide Sub;
    SubIs(0x90, 0xde); SubIs(0x91, 0x6a); SubIs(0x92, 0x32); SubIs(0x93, 0x6d);
    SubIs(0x94, 0xd8); SubIs(0x95, 0x8a); SubIs(0x96, 0x84); SubIs(0x97, 0x72);
    SubIs(0x98, 0x2a); SubIs(0x99, 0x14); SubIs(0x9a, 0x9f); SubIs(0x9b, 0x88);
    SubIs(0x9c, 0xf9); SubIs(0x9d, 0xdc); SubIs(0x9e, 0x89); SubIs(0x9f, 0x9a);
  }

  lemma SubRowA()
    ensures Sub(0xa0) == 0xe0 && Sub(0xa1) == 0x32 && Sub(0xa2) == 0x3a && Sub(0xa3) == 0x0a
    ensures Sub(0xa4) == 0x49 && Sub(0xa5) == 0x06 && Sub(0xa6) == 0x24 && Sub(0xa7) == 0x5c
    ensures Sub(0xa8) == 0xc2 && Sub(0xa9) == 0xd3 && Sub(0xaa) == 0xac && Sub(0xab) == 0x62
    ensures Sub(0xac) == 0x91 && Sub(0xad) == 0x95 && Sub(0xae) == 0xe4 && Sub(0xaf) == 0x79
  {
    hide Sub;
    SubIs(0xa0, 0xfb); SubIs(0xa1, 0x7c); SubIs(0xa2, 0x2e); SubIs(0xa3, 0xc3);
    SubIs(0xa4, 0x8f); SubIs(0xa5, 0xb8); SubIs(0xa6, 0x65); SubIs(0xa7, 0x48);
    SubIs(0xa8, 0x26); SubIs(0xa9, 0xc8); SubIs(0xaa, 0x12); SubIs(0xab, 0x4a);
    SubIs(0xac, 0xce); SubIs(0xad, 0xe7); SubIs(0xae, 0xd2); SubIs(0xaf, 0x62);
  }

  lemma SubRowB()
    ensures Sub(0xb0) == 0xe7 && Sub(0xb1) == 0xc8 && Sub(0xb2) == 0x37 && Sub(0xb3) == 0x6d
    ensures Sub(0xb4) == 0x8d && Sub(0xb5) == 0xd5 && Sub(0xb6) == 0x4e && Sub(0xb7) == 0xa9
    ensures Sub(0xb8) == 0x6c && Sub(0xb9) == 0x56 && Sub(0xba) == 0xf4 && Sub(0xbb) == 0xea
    ensures Sub(0xbc) == 0x65 && Sub(0xbd) == 0x7a && Sub(0xbe) == 0xae && Sub(0xbf) == 0x08
  {
    hide Sub;
    SubIs(0xb0, 0x0c); SubIs(0xb1, 0xe0); SubIs(0xb2, 0x1f); SubIs(0xb3, 0xef);
    SubIs(0xb4, 0x11); SubIs(0xb5, 0x75); SubIs(0xb6, 0x78); SubIs(0xb7, 0x71);
    SubIs(0xb8, 0xa5); SubIs(0xb9, 0x8e); SubIs(0xba, 0x76); SubIs(0xbb, 0x3d);
    SubIs(0xbc, 0xbd); SubIs(0xbd, 0xbc); SubIs(0xbe, 0x86); SubIs(0xbf, 0x57);
  }

  lemma SubRowC()
    ensures Sub(0xc0) == 0xba && Sub(0xc1) == 0x78 && Sub(0xc2) == 0x25 && Sub(0xc3) == 0x2e
    ensures Sub(0xc4) == 0x1c && Sub(0xc5) == 0xa6 && Sub(0xc6) == 0xb4 && Sub(0xc7) == 0xc6
    ensures Sub(0xc8) == 0xe8 && Sub(0xc9) == 0xdd && Sub(0xca) == 0x74 && Sub(0xcb) == 0x1f
    ensures Sub(0xcc) == 0x4b && Sub(0xcd) == 0xbd && Sub(0xce) == 0x8b && Sub(0xcf) == 0x8a
  {
    hide Sub;
    SubIs(0xc0, 0x0b); SubIs(0xc1, 0x28); SubIs(0xc2, 0x2f); SubIs(0xc3, 0xa3);
    SubIs(0xc4, 0xda); SubIs(0xc5, 0xd4); SubIs(0xc6, 0xe4); SubIs(0xc7, 0x0f);
    SubIs(0xc8, 0xa9); SubIs(0xc9, 0x27); SubIs(0xca, 0x53); SubIs(0xcb, 0x04);
    SubIs(0xcc, 0x1b); SubIs(0xcd, 0xfc); SubIs(0xce, 0xac); SubIs(0xcf, 0xe6);
  }

  lemma SubRowD()
    ensures Sub(0xd0) == 0x70 && Sub(0xd1) == 0x3e && Sub(0xd2) == 0xb5 && Sub(0xd3) == 0x66
    ensures Sub(0xd4) == 0x48 && Sub(0xd5) == 0x03 && Sub(0xd6) == 0xf6 && Sub(0xd7) == 0x0e
    ensures Sub(0xd8) == 0x61 && Sub(0xd9) == 0x35 && Sub(0xda) == 0x57 && Sub(0xdb) == 0xb9
    ensures Sub(0xdc) == 0x86 && Sub(0xdd) == 0xc1 && Sub(0xde) == 0x1d && Sub(0xdf) == 0x9e
  {
    hide Sub;
    SubIs(0xd0, 0x7a); SubIs(0xd1, 0x07); SubIs(0xd2, 0xae); SubIs(0xd3, 0x63);
    SubIs(0xd4, 0xc5); SubIs(0xd5, 0xdb); SubIs(0xd6, 0xe2); SubIs(0xd7, 0xea);
    SubIs(0xd8, 0x94); SubIs(0xd9, 0x8b); SubIs(0xda, 0xc4); SubIs(0xdb, 0xd5);
    SubIs(0xdc, 0x9d); SubIs(0xdd, 0xf8); SubIs(0xde, 0x90); SubIs(0xdf, 0x6b);
  }

  lemma SubRowE()
    ensures Sub(0xe0) == 0xe1 && Sub(0xe1) == 0xf8 && Sub(0xe2) == 0x98 && Sub(0xe3) == 0x11
    ensures Sub(0xe4) == 0x69 && Sub(0xe5) == 0xd9 && Sub(0xe6) == 0x8e && Sub(0xe7) == 0x94
    ensures Sub(0xe8) == 0x9b && Sub(0xe9) == 0x1e && Sub(0xea) == 0x87 && Sub(0xeb) == 0xe9
    ensures Sub(0xec) == 0xce && Sub(0xed) == 0x55 && Sub(0xee) == 0x28 && Sub(0xef) == 0xdf
  {
    hide Sub;
    SubIs(0xe0, 0xb1); SubIs(0xe1, 0x0d); SubIs(0xe2, 0xd6); SubIs(0xe3, 0xeb);
    SubIs(0xe4, 0xc6); SubIs(0xe5, 0x0e); SubIs(0xe6, 0xcf); SubIs(0xe7, 0xad);
    SubIs(0xe8, 0x08); SubIs(0xe9, 0x4e); SubIs(0xea, 0xd7); SubIs(0xeb, 0xe3);
    SubIs(0xec, 0x5d); SubIs(0xed, 0x50); SubIs(0xee, 0x1e); SubIs(0xef, 0xb3);
  }

  lemma SubRowF()
    ensures Sub(0xf0) == 0x8c && Sub(0xf1) == 0xa1 && Sub(0xf2) == 0x89 && Sub(0xf3) == 0x0d
    ensures Sub(0xf4) == 0xbf && Sub(0xf5) == 0xe6 && Sub(0xf6) == 0x42 && Sub(0xf7) == 0x68
    ensures Sub(0xf8) == 0x41 && Sub(0xf9) == 0x99 && Sub(0xfa) == 0x2d && Sub(0xfb) == 0x0f
    ensures Sub(0xfc) == 0xb0 && Sub(0xfd) == 0x54 && Sub(0xfe) == 0xbb && Sub(0xff) == 0x16
  {
    hide Sub;
    SubIs(0xf0, 0x5b); SubIs(0xf1, 0x23); SubIs(0xf2, 0x38); SubIs(0xf3, 0x34);
    SubIs(0xf4, 0x68); SubIs(0xf5, 0x46); SubIs(0xf6, 0x03); SubIs(0xf7, 0x8c);
    SubIs(0xf8, 0xdd); SubIs(0xf9, 0x9c); SubIs(0xfa, 0x7d); SubIs(0xfb, 0xa0);
    SubIs(0xfc, 0xcd); SubIs(0xfd, 0x1a); SubIs(0xfe, 0x41); SubIs(0xff, 0x1c);
  }

  /** All of them. */
  lemma SubTable()
    ensures Sub(0x00) == 0x63 && Sub(0x01) == 0x7c && Sub(0x02) == 0x77 && Sub(0x03) == 0x7b
    ensures Sub(0x04) == 0xf2 && Sub(0x05) == 0x6b && Sub(0x06) == 0x6f && Sub(0x07) == 0xc5
    ensures Sub(0x08) == 0x30 && Sub(0x09) == 0x01 && Sub(0x0a) == 0x67 && Sub(0x0b) == 0x2b
    ensures Sub(0x0c) == 0xfe && Sub(0x0d) == 0xd7 && Sub(0x0e) == 0xab && Sub(0x0f) == 0x76
    ensures Sub(0x10) == 0xca && Sub(0x11) == 0x82 && Sub(0x12) == 0xc9 && Sub(0x13) == 0x7d
    ensures Sub(0x14) == 0xfa && Sub(0x15) == 0x59 && Sub(0x16) == 0x47 && Sub(0x17) == 0xf0
    ensures Sub(0x18) == 0xad && Sub(0x19) == 0xd4 && Sub(0x1a) == 0xa2 && Sub(0x1b) == 0xaf
    ensures Sub(0x1c) == 0x9c && Sub(0x1d) == 0xa4 && Sub(0x1e) == 0x72 && Sub(0x1f) == 0xc0
    ensures Sub(0x20) == 0xb7 && Sub(0x21) == 0xfd && Sub(0x22) == 0x93 && Sub(0x23) == 0x26
    ensures Sub(0x24) == 0x36 && Sub(0x25) == 0x3f && Sub(0x26) == 0xf7 && Sub(0x27) == 0xcc
    ensures Sub(0x28) == 0x34 && Sub(0x29) == 0xa5 && Sub(0x2a) == 0xe5 && Sub(0x2b) == 0xf1
    ensures Sub(0x2c) == 0x71 && Sub(0x2d) == 0xd8 && Sub(0x2e) == 0x31 && Sub(0x2f) == 0x15
    ensures Sub(0x30) == 0x04 && Sub(0x31) == 0xc7 && Sub(0x32) == 0x23 && Sub(0x33) == 0xc3
    ensures Sub(0x34) == 0x18 && Sub(0x35) == 0x96 && Sub(0x36) == 0x05 && Sub(0x37) == 0x9a
    ensures Sub(0x38) == 0x07 && Sub(0x39) == 0x12 && Sub(0x3a) == 0x80 && Sub(0x3b) == 0xe2
    ensures Sub(0x3c) == 0xeb && Sub(0x3d) == 0x27 && Sub(0x3e) == 0xb2 && Sub(0x3f) == 0x75
    ensures Sub(0x40) == 0x09 && Sub(0x41) == 0x83 && Sub(0x42) == 0x2c && Sub(0x43) == 0x1a
    ensures Sub(0x44) == 0x1b && Sub(0x45) == 0x6e && Sub(0x46) == 0x5a && Sub(0x47) == 0xa0
    ensures Sub(0x48) == 0x52 && Sub(0x49) == 0x3b && Sub(0x4a) == 0xd6 && Sub(0x4b) == 0xb3
    ensures Sub(0x4c) == 0x29 && Sub(0x4d) == 0xe3 && Sub(0x4e) == 0x2f && Sub(0x4f) == 0x84
    ensures Sub(0x50) == 0x53 && Sub(0x51) == 0xd1 && Sub(0x52) == 0x00 && Sub(0x53) == 0xed
    ensures Sub(0x54) == 0x20 && Sub(0x55) == 0xfc && Sub(0x56) == 0xb1 && Sub(0x57) == 0x5b
    ensures Sub(0x58) == 0x6a && Sub(0x59) == 0xcb && Sub(0x5a) == 0xbe && Sub(0x5b) == 0x39
    ensures Sub(0x5c) == 0x4a && Sub(0x5d) == 0x4c && Sub(0x5e) == 0x58 && Sub(0x5f) == 0xcf
    ensures Sub(0x60) == 0xd0 && Sub(0x61) == 0xef && Sub(0x62) == 0xaa && Sub(0x63) == 0xfb
    ensures Sub(0x64) == 0x43 && Sub(0x65) == 0x4d && Sub(0x66) == 0x33 && Sub(0x67) == 0x85
    ensures Sub(0x68) == 0x45 && Sub(0x69) == 0xf9 && Sub(0x6a) == 0x02 && Sub(0x6b) == 0x7f
    ensures Sub(0x6c) == 0x50 && Sub(0x6d) == 0x3c && Sub(0x6e) == 0x9f && Sub(0x6f) == 0xa8
    ensures Sub(0x70) == 0x51 && Sub(0x71) == 0xa3 && Sub(0x72) == 0x40 && Sub(0x73) == 0x8f
    ensures Sub(0x74) == 0x92 && Sub(0x75) == 0x9d && Sub(0x76) == 0x38 && Sub(0x77) == 0xf5
    ensures Sub(0x78) == 0xbc && Sub(0x79) == 0xb6 && Sub(0x7a) == 0xda && Sub(0x7b) == 0x21
    ensures Sub(0x7c) == 0x10 && Sub(0x7d) == 0xff && Sub(0x7e) == 0xf3 && Sub(0x7f) == 0xd2
    ensures Sub(0x80) == 0xcd && Sub(0x81) == 0x0c && Sub(0x82) == 0x13 && Sub(0x83) == 0xec
    ensures Sub(0x84) == 0x5f && Sub(0x85) == 0x97 && Sub(0x86) == 0x44 && Sub(0x87) == 0x17
    ensures Sub(0x88) == 0xc4 && Sub(0x89) == 0xa7 && Sub(0x8a) == 0x7e && Sub(0x8b) == 0x3d
    ensures Sub(0x8c) == 0x64 && Sub(0x8d) == 0x5d && Sub(0x8e) == 0x19 && Sub(0x8f) == 0x73
    ensures Sub(0x90) == 0x60 && Sub(0x91) == 0x81 && Sub(0x92) == 0x4f && Sub(0x93) == 0xdc
    ensures Sub(0x94) == 0x22 && Sub(0x95) == 0x2a && Sub(0x96) == 0x90 && Sub(0x97) == 0x88
    ensures Sub(0x98) == 0x46 && Sub(0x99) == 0xee && Sub(0x9a) == 0xb8 && Sub(0x9b) == 0x14
    ensures Sub(0x9c) == 0xde && Sub(0x9d) == 0x5e && Sub(0x9e) == 0x0b && Sub(0x9f) == 0xdb
    ensures Sub(0xa0) == 0xe0 && Sub(0xa1) == 0x32 && Sub(0xa2) == 0x3a && Sub(0xa3) == 0x0a
    ensures Sub(0xa4) == 0x49 && Sub(0xa5) == 0x06 && Sub(0xa6) == 0x24 && Sub(0xa7) == 0x5c
    ensures Sub(0xa8) == 0xc2 && Sub(0xa9) == 0xd3 && Sub(0xaa) == 0xac && Sub(0xab) == 0x62
    ensures Sub(0xac) == 0x91 && Sub(0xad) == 0x95 && Sub(0xae) == 0xe4 && Sub(0xaf) == 0x79
    ensures Sub(0xb0) == 0xe7 && Sub(0xb1) == 0xc8 && Sub(0xb2) == 0x37 && Sub(0xb3) == 0x6d
    ensures Sub(0xb4) == 0x8d && Sub(0xb5) == 0xd5 && Sub(0xb6) == 0x4e && Sub(0xb7) == 0xa9
    ensures Sub(0xb8) == 0x6c && Sub(0xb9) == 0x56 && Sub(0xba) == 0xf4 && Sub(0xbb) == 0xea
    ensures Sub(0xbc) == 0x65 && Sub(0xbd) == 0x7a && Sub(0xbe) == 0xae && Sub(0xbf) == 0x08
    ensures Sub(0xc0) == 0xba && Sub(0xc1) == 0x78 && Sub(0xc2) == 0x25 && Sub(0xc3) == 0x2e
    ensures Sub(0xc4) == 0x1c && Sub(0xc5) == 0xa6 && Sub(0xc6) == 0xb4 && Sub(0xc7) == 0xc6
    ensures Sub(0xc8) == 0xe8 && Sub(0xc9) == 0xdd && Sub(0xca) == 0x74 && Sub(0xcb) == 0x1f
    ensures Sub(0xcc) == 0x4b && Sub(0xcd) == 0xbd && Sub(0xce) == 0x8b && Sub(0xcf) == 0x8a
    ensures Sub(0xd0) == 0x70 && Sub(0xd1) == 0x3e && Sub(0xd2) == 0xb5 && Sub(0xd3) == 0x66
    ensures Sub(0xd4) == 0x48 && Sub(0xd5) == 0x03 && Sub(0xd6) == 0xf6 && Sub(0xd7) == 0x0e
    ensures Sub(0xd8) == 0x61 && Sub(0xd9) == 0x35 && Sub(0xda) == 0x57 && Sub(0xdb) == 0xb9
    ensures Sub(0xdc) == 0x86 && Sub(0xdd) == 0xc1 && Sub(0xde) == 0x1d && Sub(0xdf) == 0x9e
    ensures Sub(0xe0) == 0xe1 && Sub(0xe1) == 0xf8 && Sub(0xe2) == 0x98 && Sub(0xe3) == 0x11
    ensures Sub(0xe4) == 0x69 && Sub(0xe5) == 0xd9 && Sub(0xe6) == 0x8e && Sub(0xe7) == 0x94
    ensures Sub(0xe8) == 0x9b && Sub(0xe9) == 0x1e && Sub(0xea) == 0x87 && Sub(0xeb) == 0xe9
    ensures Sub(0xec) == 0xce && Sub(0xed) == 0x55 && Sub(0xee) == 0x28 && Sub(0xef) == 0xdf
    ensures Sub(0xf0) == 0x8c && Sub(0xf1) == 0xa1 && Sub(0xf2) == 0x89 && Sub(0xf3) == 0x0d
    ensures Sub(0xf4) == 0xbf && Sub(0xf5) == 0xe6 && Sub(0xf6) == 0x42 && Sub(0xf7) == 0x68
    ensures Sub(0xf8) == 0x41 && Sub(0xf9) == 0x99 && Sub(0xfa) == 0x2d && Sub(0xfb) == 0x0f
    ensures Sub(0xfc) == 0xb0 && Sub(0xfd) == 0x54 && Sub(0xfe) == 0xbb && Sub(0xff) == 0x16
  {
    hide Sub;
    SubRow0(); SubRow1(); SubRow2(); SubRow3();
    SubRow4(); SubRow5(); SubRow6(); SubRow7();
    SubRow8(); SubRow9(); SubRowA(); SubRowB();
    SubRowC(); SubRowD(); SubRowE(); SubRowF();
  }

  // ----- the table of the source

  const ROW_0: seq<byte> := [
    0x63, 0x7c, 0x77, 0x7b, 0xf2, 0x6b, 0x6f, 0xc5,
    0x30, 0x01, 0x67, 0x2b, 0xfe, 0xd7, 0xab, 0x76]
  const ROW_1: seq<byte> := [
    0xca, 0x82, 0xc9, 0x7d, 0xfa, 0x59, 0x47, 0xf0,
    0xad, 0xd4, 0xa2, 0xaf, 0x9c, 0xa4, 0x72, 0xc0]
  const ROW_2: seq<byte> := [
    0xb7, 0xfd, 0x93, 0x26, 0x36, 0x3f, 0xf7, 0xcc,
    0x34, 0xa5, 0xe5, 0xf1, 0x71, 0xd8, 0x31, 0x15]
  const ROW_3: seq<byte> := [
    0x04, 0xc7, 0x23, 0xc3, 0x18, 0x96, 0x05, 0x9a,
    0x07, 0x12, 0x80, 0xe2, 0xeb, 0x27, 0xb2, 0x75]
  const ROW_4: seq<byte> := [
    0x09, 0x83, 0x2c, 0x1a, 0x1b, 0x6e, 0x5a, 0xa0,
    0x52, 0x3b, 0xd6, 0xb3, 0x29, 0xe3, 0x2f, 0x84]
  const ROW_5: seq<byte> := [
    0x53, 0xd1, 0x00, 0xed, 0x20, 0xfc, 0xb1, 0x5b,
    0x6a, 0xcb, 0xbe, 0x39, 0x4a, 0x4c, 0x58, 0xcf]
  const ROW_6: seq<byte> := [
    0xd0, 0xef, 0xaa, 0xfb, 0x43, 0x4d, 0x33, 0x85,
    0x45, 0xf9, 0x02, 0x7f, 0x50, 0x3c, 0x9f, 0xa8]
  const ROW_7: seq<byte> := [
    0x51, 0xa3, 0x40, 0x8f, 0x92, 0x9d, 0x38, 0xf5,
    0xbc, 0xb6, 0xda, 0x21, 0x10, 0xff, 0xf3, 0xd2]
  const ROW_8: seq<byte> := [
    0xcd, 0x0c, 0x13, 0xec, 0x5f, 0x97, 0x44, 0x17,
    0xc4, 0xa7, 0x7e, 0x3d, 0x64, 0x5d, 0x19, 0x73]
  const ROW_9: seq<byte> := [
    0x60, 0x81, 0x4f, 0xdc, 0x22, 0x2a, 0x90, 0x88,
    0x46, 0xee, 0xb8, 0x14, 0xde, 0x5e, 0x0b, 0xdb]
  const ROW_A: seq<byte> := [
    0xe0, 0x32, 0x3a, 0x0a, 0x49, 0x06, 0x24, 0x5c,
    0xc2, 0xd3, 0xac, 0x62, 0x91, 0x95, 0xe4, 0x79]
  const ROW_B: seq<byte> := [
    0xe7, 0xc8, 0x37, 0x6d, 0x8d, 0xd5, 0x4e, 0xa9,
    0x6c, 0x56, 0xf4, 0xea, 0x65, 0x7a, 0xae, 0x08]
  const ROW_C: seq<byte> := [
    0xba, 0x78, 0x25, 0x2e, 0x1c, 0xa6, 0xb4, 0xc6,
    0xe8, 0xdd, 0x74, 0x1f, 0x4b, 0xbd, 0x8b, 0x8a]
  const ROW_D: seq<byte> := [
    0x70, 0x3e, 0xb5, 0x66, 0x48, 0x03, 0xf6, 0x0e,
    0x61, 0x35, 0x57, 0xb9, 0x86, 0xc1, 0x1d, 0x9e]
  const ROW_E: seq<byte> := [
    0xe1, 0xf8, 0x98, 0x11, 0x69, 0xd9, 0x8e, 0x94,
    0x9b, 0x1e, 0x87, 0xe9, 0xce, 0x55, 0x28, 0xdf]
  const ROW_F: seq<byte> := [
    0x8c, 0xa1, 0x89, 0x0d, 0xbf, 0xe6, 0x42, 0x68,
    0x41, 0x99, 0x2d, 0x0f, 0xb0, 0x54, 0xbb, 0x16]

  lemma RowIs0(t: seq<byte>)
    requires IsFSbox(t)
    ensures t[0..16] == ROW_0
  {
    hide Sub, ByteAt;
    SubRow0();
    BytesOf0();
  }

  lemma BytesOf0()
    ensures ByteAt(0) == 0x00 && ByteAt(1) == 0x01 && ByteAt(2) == 0x02 && ByteAt(3) == 0x03
    ensures ByteAt(4) == 0x04 && ByteAt(5) == 0x05 && ByteAt(6) == 0x06 && ByteAt(7) == 0x07
    ensures ByteAt(8) == 0x08 && ByteAt(9) == 0x09 && ByteAt(10) == 0x0a && ByteAt(11) == 0x0b
    ensures ByteAt(12) == 0x0c && ByteAt(13) == 0x0d && ByteAt(14) == 0x0e && ByteAt(15) == 0x0f
  {}

  lemma RowIs1(t: seq<byte>)
    requires IsFSbox(t)
    ensures t[16..32] == ROW_1
  {
    hide Sub, ByteAt;
    SubRow1();
    BytesOf1();
  }

  lemma BytesOf1()
    ensures ByteAt(16) == 0x10 && ByteAt(17) == 0x11 && ByteAt(18) == 0x12 && ByteAt(19) == 0x13
    ensures ByteAt(20) == 0x14 && ByteAt(21) == 0x15 && ByteAt(22) == 0x16 && ByteAt(23) == 0x17
    ensures ByteAt(24) == 0x18 && ByteAt(25) == 0x19 && ByteAt(26) == 0x1a && ByteAt(27) == 0x1b
    ensures ByteAt(28) == 0x1c && ByteAt(29) == 0x1d && ByteAt(30) == 0x1e && ByteAt(31) == 0x1f
  {}

  lemma RowIs2(t: seq<byte>)
    requires IsFSbox(t)
    ensures t[32..48] == ROW_2
  {
    hide Sub, ByteAt;
    SubRow2();
    BytesOf2();
  }

  lemma BytesOf2()
    ensures ByteAt(32) == 0x20 && ByteAt(33) == 0x21 && ByteAt(34) == 0x22 && ByteAt(35) == 0x23
    ensures ByteAt(36) == 0x24 && ByteAt(37) == 0x25 && ByteAt(38) == 0x26 && ByteAt(39) == 0x27
    ensures ByteAt(40) == 0x28 && ByteAt(41) == 0x29 && ByteAt(42) == 0x2a && ByteAt(43) == 0x2b
    ensures ByteAt(44) == 0x2c && ByteAt(45) == 0x2d && ByteAt(46) == 0x2e && ByteAt(47) == 0x2f
  {}

  lemma RowIs3(t: seq<byte>)
    requires IsFSbox(t)
    ensures t[48..64] == ROW_3
  {
    hide Sub, ByteAt;
    SubRow3();
    BytesOf3();
  }

  lemma BytesOf3()
    ensures ByteAt(48) == 0x30 && ByteAt(49) == 0x31 && ByteAt(50) == 0x32 && ByteAt(51) == 0x33
    ensures ByteAt(52) == 0x34 && ByteAt(53) == 0x35 && ByteAt(54) == 0x36 && ByteAt(55) == 0x37
    ensures ByteAt(56) == 0x38 && ByteAt(57) == 0x39 && ByteAt(58) == 0x3a && ByteAt(59) == 0x3b
    ensures ByteAt(60) == 0x3c && ByteAt(61) == 0x3d && ByteAt(62) == 0x3e && ByteAt(63) == 0x3f
  {}

  lemma RowIs4(t: seq<byte>)
    requires IsFSbox(t)
    ensures t[64..80] == ROW_4
  {
    hide Sub, ByteAt;
    SubRow4();
    BytesOf4();
  }

  lemma BytesOf4()
    ensures ByteAt(64) == 0x40 && ByteAt(65) == 0x41 && ByteAt(66) == 0x42 && ByteAt(67) == 0x43
    ensures ByteAt(68) == 0x44 && ByteAt(69) == 0x45 && ByteAt(70) == 0x46 && ByteAt(71) == 0x47
    ensures ByteAt(72) == 0x48 && ByteAt(73) == 0x49 && ByteAt(74) == 0x4a && ByteAt(75) == 0x4b
    ensures ByteAt(76) == 0x4c && ByteAt(77) == 0x4d && ByteAt(78) == 0x4e && ByteAt(79) == 0x4f
  {}

  lemma RowIs5(t: seq<byte>)
    requires IsFSbox(t)
    ensures t[80..96] == ROW_5
  {
    hide Sub, ByteAt;
    SubRow5();
    BytesOf5();
  }

  lemma BytesOf5()
    ensures ByteAt(80) == 0x50 && ByteAt(81) == 0x51 && ByteAt(82) == 0x52 && ByteAt(83) == 0x53
    ensures ByteAt(84) == 0x54 && ByteAt(85) == 0x55 && ByteAt(86) == 0x56 && ByteAt(87) == 0x57
    ensures ByteAt(88) == 0x58 && ByteAt(89) == 0x59 && ByteAt(90) == 0x5a && ByteAt(91) == 0x5b
    ensures ByteAt(92) == 0x5c && ByteAt(93) == 0x5d && ByteAt(94) == 0x5e && ByteAt(95) == 0x5f
  {}

  lemma RowIs6(t: seq<byte>)
    requires IsFSbox(t)
    ensures t[96..112] == ROW_6
  {
    hide Sub, ByteAt;
    SubRow6();
    BytesOf6();
  }

  lemma BytesOf6()
    ensures ByteAt(96) == 0x60 && ByteAt(97) == 0x61 && ByteAt(98) == 0x62 && ByteAt(99) == 0x63
    ensures ByteAt(100) == 0x64 && ByteAt(101) == 0x65 && ByteAt(102) == 0x66 && ByteAt(103) == 0x67
    ensures ByteAt(104) == 0x68 && ByteAt(105) == 0x69 && ByteAt(106) == 0x6a && ByteAt(107) == 0x6b
    ensures ByteAt(108) == 0x6c && ByteAt(109) == 0x6d && ByteAt(110) == 0x6e && ByteAt(111) == 0x6f
  {}

  lemma RowIs7(t: seq<byte>)
    requires IsFSbox(t)
    ensures t[112..128] == ROW_7
  {
    hide Sub, ByteAt;
    SubRow7();
    BytesOf7();
  }

  lemma BytesOf7()
    ensures ByteAt(112) == 0x70 && ByteAt(113) == 0x71 && ByteAt(114) == 0x72 && ByteAt(115) == 0x73
    ensures ByteAt(116) == 0x74 && ByteAt(117) == 0x75 && ByteAt(118) == 0x76 && ByteAt(119) == 0x77
    ensures ByteAt(120) == 0x78 && ByteAt(121) == 0x79 && ByteAt(122) == 0x7a && ByteAt(123) == 0x7b
    ensures ByteAt(124) == 0x7c && ByteAt(125) == 0x7d && ByteAt(126) == 0x7e && ByteAt(127) == 0x7f
  {}

  lemma RowIs8(t: seq<byte>)
    requires IsFSbox(t)
    ensures t[128..144] == ROW_8
  {
    hide Sub, ByteAt;
    SubRow8();
    BytesOf8();
  }

  lemma BytesOf8()
    ensures ByteAt(128) == 0x80 && ByteAt(129) == 0x81 && ByteAt(130) == 0x82 && ByteAt(131) == 0x83
    ensures ByteAt(132) == 0x84 && ByteAt(133) == 0x85 && ByteAt(134) == 0x86 && ByteAt(135) == 0x87
    ensures ByteAt(136) == 0x88 && ByteAt(137) == 0x89 && ByteAt(138) == 0x8a && ByteAt(139) == 0x8b
    ensures ByteAt(140) == 0x8c && ByteAt(141) == 0x8d && ByteAt(142) == 0x8e && ByteAt(143) == 0x8f
  {}

  lemma RowIs9(t: seq<byte>)
    requires IsFSbox(t)
    ensures t[144..160] == ROW_9
  {
    hide Sub, ByteAt;
    SubRow9();
    BytesOf9();
  }

  lemma BytesOf9()
    ensures ByteAt(144) == 0x90 && ByteAt(145) == 0x91 && ByteAt(146) == 0x92 && ByteAt(147) == 0x93
    ensures ByteAt(148) == 0x94 && ByteAt(149) == 0x95 && ByteAt(150) == 0x96 && ByteAt(151) == 0x97
    ensures ByteAt(152) == 0x98 && ByteAt(153) == 0x99 && ByteAt(154) == 0x9a && ByteAt(155) == 0x9b
    ensures ByteAt(156) == 0x9c && ByteAt(157) == 0x9d && ByteAt(158) == 0x9e && ByteAt(159) == 0x9f
  {}

  lemma RowIsA(t: seq<byte>)
    requires IsFSbox(t)
    ensures t[160..176] == ROW_A
  {
    hide Sub, ByteAt;
    SubRowA();
    BytesOfA();
  }

  lemma BytesOfA()
    ensures ByteAt(160) == 0xa0 && ByteAt(161) == 0xa1 && ByteAt(162) == 0xa2 && ByteAt(163) == 0xa3
    ensures ByteAt(164) == 0xa4 && ByteAt(165) == 0xa5 && ByteAt(166) == 0xa6 && ByteAt(167) == 0xa7
    ensures ByteAt(168) == 0xa8 && ByteAt(169) == 0xa9 && ByteAt(170) == 0xaa && ByteAt(171) == 0xab
    ensures ByteAt(172) == 0xac && ByteAt(173) == 0xad && ByteAt(174) == 0xae && ByteAt(175) == 0xaf
  {}

  lemma RowIsB(t: seq<byte>)
    requires IsFSbox(t)
    ensures t[176..192] == ROW_B
  {
    hide Sub, ByteAt;
    SubRowB();
    BytesOfB();
  }

  lemma BytesOfB()
    ensures ByteAt(176) == 0xb0 && ByteAt(177) == 0xb1 && ByteAt(178) == 0xb2 && ByteAt(179) == 0xb3
    ensures ByteAt(180) == 0xb4 && ByteAt(181) == 0xb5 && ByteAt(182) == 0xb6 && ByteAt(183) == 0xb7
    ensures ByteAt(184) == 0xb8 && ByteAt(185) == 0xb9 && ByteAt(186) == 0xba && ByteAt(187) == 0xbb
    ensures ByteAt(188) == 0xbc && ByteAt(189) == 0xbd && ByteAt(190) == 0xbe && ByteAt(191) == 0xbf
  {}

  lemma RowIsC(t: seq<byte>)
    requires IsFSbox(t)
    ensures t[192..208] == ROW_C
  {
    hide Sub, ByteAt;
    SubRowC();
    BytesOfC();
  }

  lemma BytesOfC()
    ensures ByteAt(192) == 0xc0 && ByteAt(193) == 0xc1 && ByteAt(194) == 0xc2 && ByteAt(195) == 0xc3
    ensures ByteAt(196) == 0xc4 && ByteAt(197) == 0xc5 && ByteAt(198) == 0xc6 && ByteAt(199) == 0xc7
    ensures ByteAt(200) == 0xc8 && ByteAt(201) == 0xc9 && ByteAt(202) == 0xca && ByteAt(203) == 0xcb
    ensures ByteAt(204) == 0xcc && ByteAt(205) == 0xcd && ByteAt(206) == 0xce && ByteAt(207) == 0xcf
  {}

  lemma RowIsD(t: seq<byte>)
    requires IsFSbox(t)
    ensures t[208..224] == ROW_D
  {
    hide Sub, ByteAt;
    SubRowD();
    BytesOfD();
  }

  lemma BytesOfD()
    ensures ByteAt(208) == 0xd0 && ByteAt(209) == 0xd1 && ByteAt(210) == 0xd2 && ByteAt(211) == 0xd3
    ensures ByteAt(212) == 0xd4 && ByteAt(213) == 0xd5 && ByteAt(214) == 0xd6 && ByteAt(215) == 0xd7
    ensures ByteAt(216) == 0xd8 && ByteAt(217) == 0xd9 && ByteAt(218) == 0xda && ByteAt(219) == 0xdb
    ensures ByteAt(220) == 0xdc && ByteAt(221) == 0xdd && ByteAt(222) == 0xde && ByteAt(223) == 0xdf
  {}

  lemma RowIsE(t: seq<byte>)
    requires IsFSbox(t)
    ensures t[224..240] == ROW_E
  {
    hide Sub, ByteAt;
    SubRowE();
    BytesOfE();
  }

  lemma BytesOfE()
    ensures ByteAt(224) == 0xe0 && ByteAt(225) == 0xe1 && ByteAt(226) == 0xe2 && ByteAt(227) == 0xe3
    ensures ByteAt(228) == 0xe4 && ByteAt(229) == 0xe5 && ByteAt(230) == 0xe6 && ByteAt(231) == 0xe7
    ensures ByteAt(232) == 0xe8 && ByteAt(233) == 0xe9 && ByteAt(234) == 0xea && ByteAt(235) == 0xeb
    ensures ByteAt(236) == 0xec && ByteAt(237) == 0xed && ByteAt(238) == 0xee && ByteAt(239) == 0xef
  {}

  lemma RowIsF(t: seq<byte>)
    requires IsFSbox(t)
    ensures t[240..256] == ROW_F
  {
    hide Sub, ByteAt;
    SubRowF();
    BytesOfF();
  }

  lemma BytesOfF()
    ensures ByteAt(240) == 0xf0 && ByteAt(241) == 0xf1 && ByteAt(242) == 0xf2 && ByteAt(243) == 0xf3
    ensures ByteAt(244) == 0xf4 && ByteAt(245) == 0xf5 && ByteAt(246) == 0xf6 && ByteAt(247) == 0xf7
    ensures ByteAt(248) == 0xf8 && ByteAt(249) == 0xf9 && ByteAt(250) == 0xfa && ByteAt(251) == 0xfb
    ensures ByteAt(252) == 0xfc && ByteAt(253) == 0xfd && ByteAt(254) == 0xfe && ByteAt(255) == 0xff
  {}

  const FSB: seq<byte> := ROW_0 + ROW_1 + ROW_2 + ROW_3 + ROW_4 + ROW_5 + ROW_6 + ROW_7
                          + (ROW_8 + ROW_9 + ROW_A + ROW_B + ROW_C + ROW_D + ROW_E + ROW_F)

  /** The S-box that is generated is the one that is shipped. */
  lemma GeneratedIsShipped(t: Tables)
    requires t.Valid()
    ensures t.fsb == FSB
  {
    hide IsFSbox;
    var s := t.fsb;
    SizeIs(s);
    RowIs0(s); RowIs1(s); RowIs2(s); RowIs3(s);
    RowIs4(s); RowIs5(s); RowIs6(s); RowIs7(s);
    RowIs8(s); RowIs9(s); RowIsA(s); RowIsB(s);
    RowIsC(s); RowIsD(s); RowIsE(s); RowIsF(s);
    Halves(s);
  }

  lemma SizeIs(s: seq<byte>)
    requires IsFSbox(s)
    ensures |s| == 256
  {}

  lemma Halves(s: seq<byte>)
    requires |s| == 256
    ensures s == s[0..16] + s[16..32] + s[32..48] + s[48..64] + s[64..80] + s[80..96] + s[96..112] + s[112..128]
                 + (s[128..144] + s[144..160] + s[160..176] + s[176..192] + s[192..208] + s[208..224] + s[224..240]
                    + s[240..256])
  {
    var a, b := s[..128], s[128..];
    assert a == s[0..16] + s[16..32] + s[32..48] + s[48..64] + s[64..80] + s[80..96] + s[96..112] + s[112..128];
    assert b == s[128..144] + s[144..160] + s[160..176] + s[176..192] + s[192..208] + s[208..224] + s[224..240]
                + s[240..256];
    assert s == a + b;
  }
}
