/** The CRC of RFC 1952, section 8, one bit at a time, and its linear algebra over GF(2). */
module Crc32 {
  import opened Words

  const POLY: word := 0xedb88320

  predicate Odd(c: word) { c & 1 == 1 }
  function Half(c: word): word { c >> 1 }

  /** One zero bit through the shift register. */
  function BitStep(c: word): word {
    if Odd(c) then Xor(POLY, Half(c)) else Half(c)
  }

  function Zeros(n: nat, c: word): word
    decreases n
  {
    if n == 0 then c else Zeros(n - 1, BitStep(c))
  }

  function Feed(c: word, b: byte): word {
    Zeros(8, Xor(c, Widen(b)))
  }

  function Register(c: word, bytes: seq<byte>): word
    decreases |bytes|
  {
    if bytes == [] then c else Register(Feed(c, bytes[0]), bytes[1..])
  }

  /** The checksum: the register is kept complemented between calls. */
  function Crc(crc: word, bytes: seq<byte>): word {
    Not(Register(Not(crc), bytes))
  }

  // ----- the zero-bit operator is linear

  lemma OddXor(x: word, y: word)
    ensures Odd(Xor(x, y)) <==> Odd(x) != Odd(y)
  {}

  lemma HalfXor(x: word, y: word)
    ensures Half(Xor(x, y)) == Xor(Half(x), Half(y))
  {}

  lemma BitStepXor(x: word, y: word)
    ensures BitStep(Xor(x, y)) == Xor(BitStep(x), BitStep(y))
  {
    hide Xor, Odd, Half;
    OddXor(x, y);
    HalfXor(x, y);
    var hx, hy := Half(x), Half(y);
    XorAssoc(POLY, hx, hy);
    XorComm(hx, Xor(POLY, hy));
    XorAssoc(POLY, hy, hx);
    XorComm(hx, hy);
    XorAssoc(POLY, hx, Xor(POLY, hy));
    XorSelf(POLY, Xor(hy, hx));
  }

  lemma {:induction false} ZerosXor(n: nat, x: word, y: word)
    ensures Zeros(n, Xor(x, y)) == Xor(Zeros(n, x), Zeros(n, y))
    decreases n
  {
    hide Xor, BitStep;
    if n > 0 {
      BitStepXor(x, y);
      ZerosXor(n - 1, BitStep(x), BitStep(y));
    }
  }

  lemma {:induction false} ZerosAdd(m: nat, n: nat, c: word)
    ensures Zeros(m + n, c) == Zeros(n, Zeros(m, c))
    decreases m
  {
    hide BitStep;
    if m > 0 {
      ZerosAdd(m - 1, n, BitStep(c));
    }
  }

  // ----- zero bits that leave a register whose low byte is clear only shift it

  function Halves(n: nat, c: word): word
    decreases n
  {
    if n == 0 then c else Halves(n - 1, Half(c))
  }

  function LowMask(n: nat): word {
    if n == 0 then 0 else (LowMask(n - 1) << 1) | 1
  }

  predicate LowClear(n: nat, c: word) { c & LowMask(n) == 0 }

  lemma LowClearHalf(n: nat, c: word)
    requires n > 0 && LowClear(n, c)
    ensures !Odd(c) && LowClear(n - 1, Half(c))
  {}

  lemma {:induction false} ZerosOfClear(n: nat, c: word)
    requires LowClear(n, c)
    ensures Zeros(n, c) == Halves(n, c)
    decreases n
  {
    hide LowClear, Odd, Half, Xor;
    if n > 0 {
      LowClearHalf(n, c);
      ZerosOfClear(n - 1, Half(c));
    }
  }

  lemma HalfEightTimes(c: word)
    ensures Half(Half(Half(Half(Half(Half(Half(Half(c)))))))) == Shr8(c)
  {}

  lemma EightHalves(c: word)
    ensures Halves(8, c) == Shr8(c)
  {
    hide Half, Shr8;
    HalfEightTimes(c);
    var d := Half(Half(Half(Half(c))));
    calc {
      Halves(8, c);
      Halves(6, Half(Half(c)));
      Halves(4, d);
      Halves(2, Half(Half(d)));
      Half(Half(Half(Half(d))));
    }
  }

  function High(c: word): word { c & 0xffffff00 }

  lemma SplitLow(c: word)
    ensures c == Xor(Widen(Byte0(c)), High(c))
  {}

  lemma HighClear(c: word)
    ensures LowClear(8, High(c)) && Shr8(High(c)) == Shr8(c)
  {
    assert LowMask(8) == 0xff;
  }

  lemma ZerosHigh(c: word)
    ensures Zeros(8, High(c)) == Shr8(c)
  {
    hide Zeros, High, LowClear, Halves, Shr8;
    HighClear(c);
    ZerosOfClear(8, High(c));
    EightHalves(High(c));
  }

  /** The low byte of a register can be taken through its zero bits on its own. */
  lemma SplitZeros(n: nat, c: word)
    ensures Zeros(8 + n, c) == Xor(Zeros(8 + n, Widen(Byte0(c))), Zeros(n, Shr8(c)))
  {
    hide Xor, Zeros, High, Byte0, Widen, Shr8;
    var low := Widen(Byte0(c));
    SplitLow(c);
    ZerosXor(8 + n, low, High(c));
    ZerosAdd(8, n, High(c));
    ZerosHigh(c);
  }

  /** Xoring a whole word into the register and running 32 zero bits feeds its four bytes. */
  lemma FeedWord(c: word, w: word)
    ensures Zeros(32, Xor(c, w)) == Feed(Feed(Feed(Feed(c, Byte0(w)), Byte1(w)), Byte2(w)), Byte3(w))
  {
    hide Xor, Zeros, Byte0, Byte1, Byte2, Byte3, Widen, Shr8;
    BytesOfShifts(w);
    PeelByte(24, c, w);
    var c1, w1 := Feed(c, Byte0(w)), Shr8(w);
    PeelByte(16, c1, w1);
    var c2, w2 := Feed(c1, Byte0(w1)), Shr8(w1);
    PeelByte(8, c2, w2);
    assert Zeros(8, Xor(Feed(c2, Byte0(w2)), Shr8(w2))) == Feed(Feed(c2, Byte0(w2)), Byte3(w));
  }

  lemma PeelByte(n: nat, c: word, w: word)
    ensures Zeros(8 + n, Xor(c, w)) == Zeros(n, Xor(Feed(c, Byte0(w)), Shr8(w)))
  {
    hide Xor, Zeros, High, Byte0, Widen, Shr8;
    var low := Widen(Byte0(w));
    calc {
      Zeros(8 + n, Xor(c, w));
      { SplitLow(w); XorAssoc(c, low, High(w)); }
      Zeros(8 + n, Xor(Xor(c, low), High(w)));
      { ZerosAdd(8, n, Xor(Xor(c, low), High(w))); }
      Zeros(n, Zeros(8, Xor(Xor(c, low), High(w))));
      { ZerosXor(8, Xor(c, low), High(w)); ZerosHigh(w); }
      Zeros(n, Xor(Feed(c, Byte0(w)), Shr8(w)));
    }
  }
}
