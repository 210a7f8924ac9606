/** The eight look-up tables, and the table-driven checksums, each against the bitwise one. */
module Crc32Tables {
  import opened Words
  import opened Crc32

  // ----- the polynomial, from its exponents below x^32

  const TERMS: seq<nat> := [0, 1, 2, 4, 5, 7, 8, 10, 11, 12, 16, 22, 23, 26]

  function Term(e: nat): word
    requires e < 32
  {
    1 << (31 - e)
  }

  function Pattern(n: nat): word
    requires n <= |TERMS|
  {
    if n == 0 then 0 else Pattern(n - 1) | Term(TERMS[n - 1])
  }

  lemma TermValues()
    ensures Term(0) == 0x80000000 && Term(1) == 0x40000000 && Term(2) == 0x20000000 && Term(4) == 0x08000000
    ensures Term(5) == 0x04000000 && Term(7) == 0x01000000 && Term(8) == 0x00800000 && Term(10) == 0x00200000
    ensures Term(11) == 0x00100000 && Term(12) == 0x00080000 && Term(16) == 0x8000
    ensures Term(22) == 0x200 && Term(23) == 0x100 && Term(26) == 0x20
  {}

  lemma PatternIsPoly()
    ensures Pattern(|TERMS|) == POLY
  {
    hide Term;
    TermValues();
    assert Pattern(4) == 0xe8000000;
    assert Pattern(8) == 0xeda00000;
    assert Pattern(12) == 0xedb88200;
  }

  // ----- byte reversal

  /** REV in the source. */
  function Rev(w: word): word {
    ((w >> 24) & 0xff) + ((w >> 8) & 0xff00) + ((w & 0xff00) << 8) + ((w & 0xff) << 24)
  }

  lemma RevTwice(x: word)
    ensures Rev(Rev(x)) == x
  {}

  lemma RevNot(x: word)
    ensures Rev(Not(x)) == Not(Rev(x))
  {
    assert Rev(0xffffffff) == 0xffffffff;
    hide Rev, Xor, Not;
    NotIsXor(x);
    NotIsXor(Rev(x));
    RevXor(x, 0xffffffff);
  }

  lemma RevShr8(x: word)
    ensures Rev(Shr8(x)) == Shl8(Rev(x))
  {
    hide Rev;
    RevShift(x);
  }

  lemma RevShift(x: word)
    ensures Rev(x >> 8) == Rev(x) << 8
  {}

  lemma RevXor(x: word, y: word)
    ensures Rev(Xor(x, y)) == Xor(Rev(x), Rev(y))
  {}

  lemma RevBytes(c: word)
    ensures var r := Rev(c);
      Byte0(r) == Byte3(c) && Byte1(r) == Byte2(c) && Byte2(r) == Byte1(c) && Byte3(r) == Byte0(c)
  {}

  lemma RevLittleWord(b0: byte, b1: byte, b2: byte, b3: byte)
    ensures BigWord(b0, b1, b2, b3) == Rev(LittleWord(b0, b1, b2, b3))
  {}

  // ----- what one table look-up and one four-table look-up compute

  /** Entry b of little-endian table k: byte b, then k zero bytes. */
  function Entry(k: nat, b: byte): word {
    Zeros(8 * (k + 1), Widen(b))
  }

  lemma LookupIsFeed(c: word, b: byte)
    ensures Feed(c, b) == Xor(Entry(0, Byte0(c) ^ b), Shr8(c))
  {
    hide Xor, Zeros, Byte0, Widen, Shr8;
    SplitZeros(0, Xor(c, Widen(b)));
    assert Zeros(0, Shr8(Xor(c, Widen(b)))) == Shr8(Xor(c, Widen(b))) by { ZerosNone(Shr8(Xor(c, Widen(b)))); }
    XorWiden(c, b);
  }

  lemma ZerosNone(c: word)
    ensures Zeros(0, c) == c
  {}

  lemma XorWiden(c: word, b: byte)
    ensures Byte0(Xor(c, Widen(b))) == Byte0(c) ^ b && Shr8(Xor(c, Widen(b))) == Shr8(c)
  {}

  function FourLookups(c: word): word {
    Xor(Xor(Xor(Entry(3, Byte0(c)), Entry(2, Byte1(c))), Entry(1, Byte2(c))), Entry(0, Byte3(c)))
  }

  lemma FourLookupsIsZeros(c: word)
    ensures FourLookups(c) == Zeros(32, c)
  {
    hide Xor, Zeros, Byte0, Byte1, Byte2, Byte3, Widen, Shr8;
    BytesOfShifts(c);
    var c1 := Shr8(c);
    var c2 := Shr8(c1);
    SplitZeros(24, c);
    SplitZeros(16, c1);
    SplitZeros(8, c2);
    var e3, e2, e1, e0 := Entry(3, Byte0(c)), Entry(2, Byte1(c)), Entry(1, Byte2(c)), Entry(0, Byte3(c));
    assert Zeros(32, c) == Xor(e3, Xor(e2, Xor(e1, e0)));
    XorAssoc(e3, e2, Xor(e1, e0));
    XorAssoc(Xor(e3, e2), e1, e0);
  }

  lemma {:induction false} RegisterFour(c: word, s: seq<byte>)
    requires |s| >= 4
    ensures Register(c, s) == Register(FourLookups(Xor(c, LittleWord(s[0], s[1], s[2], s[3]))), s[4..])
  {
    hide Xor, Zeros, Byte0, Byte1, Byte2, Byte3, LittleWord, Feed, FourLookups;
    var w := LittleWord(s[0], s[1], s[2], s[3]);
    FourLookupsIsZeros(Xor(c, w));
    FeedWord(c, w);
    LittleWordBytes(s[0], s[1], s[2], s[3]);
    var c1 := Feed(c, s[0]);
    var c2 := Feed(c1, s[1]);
    var c3 := Feed(c2, s[2]);
    calc {
      Register(c, s);
      Register(c1, s[1..]);
      { assert s[1..][1..] == s[2..]; }
      Register(c2, s[2..]);
      { assert s[2..][1..] == s[3..]; }
      Register(c3, s[3..]);
      { assert s[3..][1..] == s[4..]; }
      Register(Feed(c3, s[3]), s[4..]);
    }
  }

  // ----- the same, in the byte-reversed register

  lemma BigLookupIsFeed(c: word, b: byte)
    ensures Rev(Feed(c, b)) == Xor(Rev(Entry(0, Byte3(Rev(c)) ^ b)), Shl8(Rev(c)))
  {
    hide Xor, Zeros, Byte0, Byte3, Shr8, Shl8, Rev;
    LookupIsFeed(c, b);
    RevBytes(c);
    RevXor(Entry(0, Byte0(c) ^ b), Shr8(c));
    RevShr8(c);
  }

  function FourBigLookups(r: word): word {
    Xor(Xor(Xor(Rev(Entry(0, Byte0(r))), Rev(Entry(1, Byte1(r)))), Rev(Entry(2, Byte2(r)))), Rev(Entry(3, Byte3(r))))
  }

  lemma FourBigLookupsIsRev(c: word)
    ensures FourBigLookups(Rev(c)) == Rev(FourLookups(c))
  {
    hide Xor, Zeros, Byte0, Byte1, Byte2, Byte3, Rev, Entry;
    RevBytes(c);
    var e3, e2, e1, e0 := Entry(3, Byte0(c)), Entry(2, Byte1(c)), Entry(1, Byte2(c)), Entry(0, Byte3(c));
    RevXor(Xor(Xor(e3, e2), e1), e0);
    RevXor(Xor(e3, e2), e1);
    RevXor(e3, e2);
    XorReorder(Rev(e3), Rev(e2), Rev(e1), Rev(e0));
  }

  lemma XorReorder(a: word, b: word, c: word, d: word)
    ensures Xor(Xor(Xor(a, b), c), d) == Xor(Xor(Xor(d, c), b), a)
  {
    hide Xor;
    XorAssoc(Xor(a, b), c, d);
    XorComm(Xor(a, b), Xor(c, d));
    XorComm(c, d);
    XorComm(a, b);
    XorAssoc(Xor(d, c), b, a);
  }

  // ----- the tables

  /** What crc_table[k][b] must hold. */
  function Cell(k: nat, b: byte): word {
    if k < 4 then Entry(k, b) else Rev(Entry(k - 4, b))
  }

  class CrcTable {
    /** crc_table[TBLS][256] */
    const table: array2<word>

    ghost predicate Shape() { table.Length0 == 8 && table.Length1 == 256 }

    ghost predicate Filled(k: nat, n: nat)
      reads table
    {
      Shape() && k < 8 && n <= 256 && forall i | 0 <= i < n :: table[k, i] == Cell(k, i as byte)
    }

    ghost predicate Valid()
      reads table
    {
      forall k | 0 <= k < 8 :: Filled(k, 256)
    }

    lemma ValidAt(k: nat, b: byte)
      requires Valid() && k < 8
      ensures Shape() && table[k, b as int] == Cell(k, b)
    {
      hide Cell;
      ByteIndex(b);
      assert Filled(k, 256);
      assert table[k, b as int] == Cell(k, (b as int) as byte);
    }

    ghost predicate Columns(n: nat)
      reads table
    {
      Filled(0, 256) && forall k | 1 <= k < 8 :: Filled(k, n)
    }

    /** make_crc_table */
    constructor ()
      ensures Valid() && fresh(table)
    {
      table := new word[8, 256];
      new;
      FillFirst();
      hide Filled;
      for n := 0 to 256
        invariant Columns(n)
      {
        FillColumn(n);
      }
    }

    method FillFirst()
      requires Shape()
      modifies table
      ensures Filled(0, 256)
    {
      hide Entry;
      var poly := MakePoly();
      for n := 0 to 256
        invariant Filled(0, n)
      {
        table[0, n] := ByteCrc(poly, n);
      }
    }

    /** Writes the next cell of row k; the filled part of every row stays as it is. */
    method Put(k: nat, n: nat, w: word)
      requires Filled(k, n) && n < 256 && w == Cell(k, n as byte)
      modifies table
      ensures Filled(k, n + 1)
      ensures forall j, m | j != k && old(Filled(j, m)) :: Filled(j, m)
    {
      table[k, n] := w;
    }

    method FillColumn(n: nat)
      requires n < 256 && Columns(n)
      modifies table
      ensures Columns(n + 1)
    {
      hide Xor, Byte0, Widen, Shr8, Rev, Entry;
      var c := table[0, n];
      Put(4, n, Rev(c));
      for k := 1 to 4
        invariant Filled(0, 256)
        invariant forall j, m | 1 <= j < 8 && m == (if j < k || 4 <= j < k + 4 then n + 1 else n) :: Filled(j, m)
        invariant c == Entry(k - 1, n as byte)
      {
        ByteIndex(Byte0(c));
        NextEntry(k, n as byte);
        c := Xor(table[0, Byte0(c) as int], Shr8(c));
        Put(k, n, c);
        Put(k + 4, n, Rev(c));
      }
    }
  }

  method MakePoly() returns (poly: word)
    ensures poly == POLY
  {
    hide Term;
    poly := 0;
    for n := 0 to |TERMS|
      invariant poly == Pattern(n)
    {
      poly := poly | Term(TERMS[n]);
    }
    PatternIsPoly();
  }

  method ByteCrc(poly: word, n: nat) returns (c: word)
    requires poly == POLY && n < 256
    ensures c == Entry(0, n as byte)
  {
    hide Xor, Zeros, Odd, Half;
    c := Widen(n as byte);
    for k := 0 to 8
      invariant Zeros(8 - k, c) == Entry(0, n as byte)
    {
      ZerosStep(8 - k, c);
      c := if Odd(c) then Xor(poly, Half(c)) else Half(c);
    }
    ZerosNone(c);
  }

  lemma ZerosStep(n: nat, c: word)
    requires n > 0
    ensures Zeros(n, c) == Zeros(n - 1, BitStep(c))
  {}

  lemma NextEntry(k: nat, b: byte)
    requires k > 0
    ensures Entry(k, b) == Xor(Entry(0, Byte0(Entry(k - 1, b))), Shr8(Entry(k - 1, b)))
  {
    hide Xor, Zeros, Byte0, Widen, Shr8;
    ZerosAdd(8 * k, 8, Widen(b));
    SplitZeros(0, Entry(k - 1, b));
    ZerosNone(Shr8(Entry(k - 1, b)));
  }
}
