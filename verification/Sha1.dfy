/** SHA-1 as FIPS 180-1 defines it: sections 4 (padding), 5, 6 (constants) and 7 (compression). */
module Sha1 {
  import opened Octets
  import opened Words

  function Rotl1(x: word): word { (x << 1) | (x >> 31) }
  function Rotl5(x: word): word { (x << 5) | (x >> 27) }
  function Rotl30(x: word): word { (x << 30) | (x >> 2) }

  function Choose(b: word, c: word, d: word): word { (b & c) | (!b & d) }
  function Parity(b: word, c: word, d: word): word { (b ^ c) ^ d }
  function Majority(b: word, c: word, d: word): word { (b & c) | (b & d) | (c & d) }

  function Xor4(a: word, b: word, c: word, d: word): word { ((a ^ b) ^ c) ^ d }
  function Sum5(a: word, b: word, c: word, d: word, e: word): word { a + b + c + d + e }

  const K0: word := 0x5a827999
  const K1: word := 0x6ed9eba1
  const K2: word := 0x8f1bbcdc
  const K3: word := 0xca62c1d6

  function F(t: nat, b: word, c: word, d: word): word {
    if t < 20 then Choose(b, c, d) else if t < 40 then Parity(b, c, d)
    else if t < 60 then Majority(b, c, d) else Parity(b, c, d)
  }

  function K(t: nat): word {
    if t < 20 then K0 else if t < 40 then K1 else if t < 60 then K2 else K3
  }

  datatype Regs = Regs(a: word, b: word, c: word, d: word, e: word)

  const IV := Regs(0x67452301, 0xefcdab89, 0x98badcfe, 0x10325476, 0xc3d2e1f0)

  /** Word t of the schedule that grows from the 16 words m. */
  function Schedule(m: seq<word>, t: nat): word
    requires |m| == 16
    decreases t
  {
    if t < 16 then m[t]
    else Rotl1(Xor4(Schedule(m, t - 3), Schedule(m, t - 8), Schedule(m, t - 14), Schedule(m, t - 16)))
  }

  lemma ScheduleAt(m: seq<word>, t: nat)
    requires |m| == 16
    ensures Schedule(m, t) ==
      if t < 16 then m[t]
      else Rotl1(Xor4(Schedule(m, t - 3), Schedule(m, t - 8), Schedule(m, t - 14), Schedule(m, t - 16)))
  {
    hide Rotl1, Xor4;
  }

  /** One turn of the registers, with the round's function value f and constant k. */
  function Turn(f: word, k: word, w: word, r: Regs): Regs {
    Regs(Sum5(Rotl5(r.a), f, r.e, w, k), r.a, Rotl30(r.b), r.c, r.d)
  }

  function Step(t: nat, w: word, r: Regs): Regs {
    Turn(F(t, r.b, r.c, r.d), K(t), w, r)
  }

  function Rounds(m: seq<word>, t: nat, h: Regs): Regs
    requires |m| == 16
    decreases t
  {
    if t == 0 then h else Step(t - 1, Schedule(m, t - 1), Rounds(m, t - 1, h))
  }

  function AddRegs(h: Regs, r: Regs): Regs {
    Regs(h.a + r.a, h.b + r.b, h.c + r.c, h.d + r.d, h.e + r.e)
  }

  function BlockWords(b: seq<byte>): (m: seq<word>)
    requires |b| == 64
    ensures |m| == 16
  {
    seq(16, i requires 0 <= i < 16 => BigWord(b[4 * i], b[4 * i + 1], b[4 * i + 2], b[4 * i + 3]))
  }

  function Compress(h: Regs, b: seq<byte>): Regs
    requires |b| == 64
  {
    AddRegs(h, Rounds(BlockWords(b), 80, h))
  }

  /** Compresses the whole blocks of s. */
  function Fold(h: Regs, s: seq<byte>): Regs
    decreases |s|
  {
    if |s| < 64 then h else Fold(Compress(h, s[..64]), s[64..])
  }

  function Zeroes(n: nat): (z: seq<byte>)
    ensures |z| == n
  {
    seq(n, _ => 0)
  }

  /** The length in bits, modulo 2^64, most significant byte first. */
  function LengthBytes(bits: nat): (b: seq<byte>)
    ensures |b| == 8
  {
    [Octet(bits, 7), Octet(bits, 6), Octet(bits, 5), Octet(bits, 4),
     Octet(bits, 3), Octet(bits, 2), Octet(bits, 1), Octet(bits, 0)]
  }

  function PadZeroes(n: nat): nat { (119 - n % 64) % 64 }

  function Padded(msg: seq<byte>): seq<byte> {
    msg + [0x80] + Zeroes(PadZeroes(|msg|)) + LengthBytes(8 * |msg|)
  }

  function Hash(msg: seq<byte>): Regs {
    Fold(IV, Padded(msg))
  }

  // ----- folding block by block

  lemma {:induction false} FoldAppend(h: Regs, a: seq<byte>, b: seq<byte>)
    requires |a| % 64 == 0
    ensures Fold(h, a + b) == Fold(Fold(h, a), b)
    decreases |a|
  {
    hide Compress;
    if a == [] {
      assert a + b == b;
    } else {
      assert (a + b)[..64] == a[..64] && (a + b)[64..] == a[64..] + b;
      FoldAppend(Compress(h, a[..64]), a[64..], b);
    }
  }

  lemma FoldBlock(h: Regs, done: seq<byte>, block: seq<byte>)
    requires |done| % 64 == 0 && |block| == 64
    ensures Fold(h, done + block) == Compress(Fold(h, done), block)
  {
    hide Compress;
    FoldAppend(h, done, block);
    assert block[..64] == block;
  }

  lemma ZeroesNext(n: nat)
    ensures Zeroes(n) + [0] == Zeroes(n + 1) && Zeroes(0) == []
  {}

  /** How many zeroes follow the 0x80 byte when k bytes of a block are filled. */
  lemma PadCount(n: nat, k: nat)
    requires k < 64 && k <= n && (n - k) % 64 == 0
    ensures PadZeroes(n) == if k > 55 then 63 - k + 56 else 55 - k
  {}

  lemma ZeroesAdd(m: nat, n: nat)
    ensures Zeroes(m) + Zeroes(n) == Zeroes(m + n)
  {}

  // ----- the length bytes, from the two halves of the bit count

  lemma ShiftLow(high: nat, low: nat)
    ensures var n := high * 0x1_0000_0000 + low;
      && Shift8(n, 1) == high * 0x100_0000 + Shift8(low, 1) && Shift8(n, 2) == high * 0x1_0000 + Shift8(low, 2)
      && Shift8(n, 3) == high * 0x100 + Shift8(low, 3) && Shift8(n, 4) == high + Shift8(low, 4)
  {
    hide Shift8;
    var n := high * 0x1_0000_0000 + low;
    Shift8Next(n, 0); Shift8Next(n, 1); Shift8Next(n, 2); Shift8Next(n, 3);
    Shift8Next(low, 0); Shift8Next(low, 1); Shift8Next(low, 2); Shift8Next(low, 3);
    SplitByte(high * 0x100_0000, low);
    SplitByte(high * 0x1_0000, Shift8(low, 1));
    SplitByte(high * 0x100, Shift8(low, 2));
    SplitByte(high, Shift8(low, 3));
  }

  lemma OctetLow(high: nat, low: nat, k: nat)
    requires k < 4
    ensures Octet(high * 0x1_0000_0000 + low, k) == Octet(low, k)
  {
    hide Shift8, ByteAt;
    ShiftLow(high, low);
    Shift8Next(high * 0x1_0000_0000 + low, 0);
    Shift8Next(low, 0);
    SplitByte(high * 0x100_0000, Shift8(low, 0));
    SplitByte(high * 0x1_0000, Shift8(low, 1));
    SplitByte(high * 0x100, Shift8(low, 2));
    SplitByte(high, Shift8(low, 3));
  }

  lemma ShiftOutLow(low: nat)
    requires low < 0x1_0000_0000
    ensures Shift8(low, 4) == 0
  {
    hide Shift8;
    Shift8Next(low, 0);
    Shift8Next(low, 1);
    Shift8Next(low, 2);
    Shift8Next(low, 3);
  }

  lemma {:induction false} OctetHigh(high: nat, low: nat, k: nat)
    requires low < 0x1_0000_0000
    ensures Shift8(high * 0x1_0000_0000 + low, k + 4) == Shift8(high, k)
  {
    hide Shift8;
    if k == 0 {
      ShiftLow(high, low);
      ShiftOutLow(low);
      Shift8Next(high, 0);
    } else {
      OctetHigh(high, low, k - 1);
      Shift8Next(high * 0x1_0000_0000 + low, k + 3);
      Shift8Next(high, k - 1);
    }
  }

  lemma LengthHalves(high: nat, low: nat)
    requires low < 0x1_0000_0000
    ensures LengthBytes(high * 0x1_0000_0000 + low)
      == [Octet(high, 3), Octet(high, 2), Octet(high, 1), Octet(high, 0),
          Octet(low, 3), Octet(low, 2), Octet(low, 1), Octet(low, 0)]
  {
    hide Shift8, ByteAt;
    OctetHigh(high, low, 0);
    OctetHigh(high, low, 1);
    OctetHigh(high, low, 2);
    OctetHigh(high, low, 3);
    OctetLow(high, low, 0);
    OctetLow(high, low, 1);
    OctetLow(high, low, 2);
    OctetLow(high, low, 3);
  }

  /** A count kept modulo 2^64 has the same length bytes. */
  lemma LengthWraps(n: nat)
    ensures LengthBytes(n % 0x1_0000_0000_0000_0000) == LengthBytes(n)
  {
    hide Octet;
    var q, r := n / 0x1_0000_0000_0000_0000, n % 0x1_0000_0000_0000_0000;
    var high, low := r / 0x1_0000_0000, r % 0x1_0000_0000;
    LengthHalves(high, low);
    LengthHalves(q * 0x1_0000_0000 + high, low);
    OctetLow(q, high, 0);
    OctetLow(q, high, 1);
    OctetLow(q, high, 2);
    OctetLow(q, high, 3);
  }
}
