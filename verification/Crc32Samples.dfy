/** Known values of the CRC: its residue, and the check value of the digits 1 to 9. */
module Crc32Samples {
  import opened Words
  import opened Options
  import opened Crc32
  import opened Crc32Tables
  import opened Crc32Fast
  import opened Crc32Combine

  /** A word as four bytes, the lowest first. */
  function LittleBytes(w: word): seq<byte> { [Byte0(w), Byte1(w), Byte2(w), Byte3(w)] }

  lemma RegisterCons(c: word, b: byte, s: seq<byte>)
    ensures Register(c, [b] + s) == Register(Feed(c, b), s)
  {
    hide Feed;
    assert ([b] + s)[1..] == s;
  }

  lemma RegisterNone(c: word)
    ensures Register(c, []) == c
  {}

  lemma RegisterFourBytes(c: word, w: word)
    ensures Register(c, LittleBytes(w)) == Zeros(32, Xor(c, w))
  {
    hide Feed, Byte0, Byte1, Byte2, Byte3, Xor, Zeros, Register;
    FeedWord(c, w);
    var c1 := Feed(c, Byte0(w));
    var c2 := Feed(c1, Byte1(w));
    var c3 := Feed(c2, Byte2(w));
    RegisterCons(c, Byte0(w), [Byte1(w), Byte2(w), Byte3(w)]);
    RegisterCons(c1, Byte1(w), [Byte2(w), Byte3(w)]);
    RegisterCons(c2, Byte2(w), [Byte3(w)]);
    RegisterCons(c3, Byte3(w), []);
    RegisterNone(Feed(c3, Byte3(w)));
    assert [Byte3(w)] == [Byte3(w)] + [] && [Byte2(w), Byte3(w)] == [Byte2(w)] + [Byte3(w)];
    assert [Byte1(w), Byte2(w), Byte3(w)] == [Byte1(w)] + [Byte2(w), Byte3(w)];
    assert LittleBytes(w) == [Byte0(w)] + [Byte1(w), Byte2(w), Byte3(w)];
  }

  function EightSteps(c: word): word {
    BitStep(BitStep(BitStep(BitStep(BitStep(BitStep(BitStep(BitStep(c))))))))
  }

  lemma EightIs(c: word)
    ensures Zeros(8, c) == EightSteps(c)
  {
    hide BitStep, Zeros;
    var c2 := BitStep(BitStep(c));
    var c4 := BitStep(BitStep(c2));
    var c6 := BitStep(BitStep(c4));
    TwoSteps(6, c);
    TwoSteps(4, c2);
    TwoSteps(2, c4);
    TwoSteps(0, c6);
    TwoSteps(0, BitStep(BitStep(c6)));
  }

  lemma TwoSteps(n: nat, c: word)
    ensures Zeros(n + 2, c) == Zeros(n, BitStep(BitStep(c))) && Zeros(0, c) == c
  {
    hide BitStep;
    assert Zeros(n + 2, c) == Zeros(n + 1, BitStep(c));
  }

  /** Thirty-two zero bits through a register of ones. */
  lemma AllOnes()
    ensures Zeros(32, 0xffffffff) == 0xdebb20e3
  {
    hide Zeros;
    ZerosAdd(8, 24, 0xffffffff);
    EightIs(0xffffffff);
    ZerosAdd(8, 16, 0x2dfd1072);
    EightIs(0x2dfd1072);
    ZerosAdd(8, 8, 0xbe26ed00);
    EightIs(0xbe26ed00);
    EightIs(0x00be26ed);
  }

  /** Whatever has been summed, its CRC in four bytes behind it brings the checksum to the same value. */
  lemma Residue(crc: word, s: seq<byte>)
    ensures Crc(crc, s + LittleBytes(Crc(crc, s))) == 0x2144df1c
  {
    hide Zeros, Register, LittleBytes;
    var c := Register(Not(crc), s);
    RegisterConcat(Not(crc), s, LittleBytes(Not(c)));
    RegisterFourBytes(c, Not(c));
    OnesOf(c);
    AllOnes();
  }

  lemma OnesOf(c: word)
    ensures Xor(c, Not(c)) == 0xffffffff && Not(0xdebb20e3) == 0x2144df1c
  {}

  const DIGITS: seq<byte> := [0x31, 0x32, 0x33, 0x34, 0x35, 0x36, 0x37, 0x38, 0x39]

  lemma RegisterMore(c: word, s: seq<byte>, b: byte)
    ensures Register(c, s + [b]) == EightSteps(Xor(Register(c, s), Widen(b))) && Register(c, []) == c
  {
    hide Zeros, EightSteps, Register;
    RegisterConcat(c, s, [b]);
    RegisterCons(Register(c, s), b, []);
    RegisterNone(Feed(Register(c, s), b));
    assert [b] + [] == [b];
    EightIs(Xor(Register(c, s), Widen(b)));
    RegisterNone(c);
  }

  /** The registers on the way through the digits. */
  lemma DigitRegisters()
    ensures Register(0xffffffff, DIGITS[..1]) == 0x7c231048
    ensures Register(0xffffffff, DIGITS[..2]) == 0xb0acbb32
    ensures Register(0xffffffff, DIGITS[..3]) == 0x77b79c2d
    ensures Register(0xffffffff, DIGITS[..4]) == 0x641c1f5c
    ensures Register(0xffffffff, DIGITS[..5]) == 0x340ac5e3
    ensures Register(0xffffffff, DIGITS[..6]) == 0xf68d2c9e
    ensures Register(0xffffffff, DIGITS[..7]) == 0xaffc9660
    ensures Register(0xffffffff, DIGITS[..8]) == 0x651f2550
    ensures Register(0xffffffff, DIGITS[..9]) == 0x340bc6d9
  {
    hide Register;
    assert DIGITS[..0] == [];
    RegisterMore(0xffffffff, DIGITS[..0], 0x31);
    assert DIGITS[..0] + [0x31] == DIGITS[..1];
    RegisterMore(0xffffffff, DIGITS[..1], 0x32);
    assert DIGITS[..1] + [0x32] == DIGITS[..2];
    RegisterMore(0xffffffff, DIGITS[..2], 0x33);
    assert DIGITS[..2] + [0x33] == DIGITS[..3];
    RegisterMore(0xffffffff, DIGITS[..3], 0x34);
    assert DIGITS[..3] + [0x34] == DIGITS[..4];
    RegisterMore(0xffffffff, DIGITS[..4], 0x35);
    assert DIGITS[..4] + [0x35] == DIGITS[..5];
    RegisterMore(0xffffffff, DIGITS[..5], 0x36);
    assert DIGITS[..5] + [0x36] == DIGITS[..6];
    RegisterMore(0xffffffff, DIGITS[..6], 0x37);
    assert DIGITS[..6] + [0x37] == DIGITS[..7];
    RegisterMore(0xffffffff, DIGITS[..7], 0x38);
    assert DIGITS[..7] + [0x38] == DIGITS[..8];
    RegisterMore(0xffffffff, DIGITS[..8], 0x39);
    assert DIGITS[..8] + [0x39] == DIGITS[..9];
  }

  /** The check value of CRC-32, and the checksum of a single letter. */
  lemma KnownValues()
    ensures Crc(0, DIGITS) == 0xcbf43926 && Crc(0, [0x61]) == 0xe8b7be43
  {
    hide Register;
    DigitRegisters();
    assert DIGITS[..9] == DIGITS;
    RegisterMore(0xffffffff, [], 0x61);
    var none: seq<byte>, a: seq<byte> := [], [0x61];
    assert none + a == a;
    assert Register(0xffffffff, [0x61]) == 0x174841bc;
  }

  /** So every form of crc32 returns the check value. */
  method CheckValue(t: CrcTable, address: nat, byFour: bool, littleEndian: bool) returns (r: word)
    requires t.Valid()
    ensures r == 0xcbf43926
  {
    hide Crc;
    KnownValues();
    r := Crc32Of(t, 0, address, Some(DIGITS), byFour, littleEndian);
  }
}
