/** crc32(): the bytewise loop and the two word-at-a-time loops all compute the bitwise CRC. */
module Crc32Fast {
  import opened Words
  import opened Crc32
  import opened Options
  import opened Crc32Tables

  // ----- single steps, as the macros and loop bodies write them

  method Lookup(t: CrcTable, c: word, b: byte) returns (d: word)
    requires t.Valid()
    ensures d == Feed(c, b)
  {
    hide Xor, Zeros, Byte0, Shr8, Feed, Entry;
    t.ValidAt(0, Byte0(c) ^ b);
    d := Xor(t.table[0, (Byte0(c) ^ b) as int], Shr8(c));
    LookupIsFeed(c, b);
  }

  /** DOLIT4 after the xor */
  method LookupFour(t: CrcTable, c: word) returns (d: word)
    requires t.Valid()
    ensures d == FourLookups(c)
  {
    hide Xor, Byte0, Byte1, Byte2, Byte3, Entry;
    t.ValidAt(3, Byte0(c));
    t.ValidAt(2, Byte1(c));
    t.ValidAt(1, Byte2(c));
    t.ValidAt(0, Byte3(c));
    d := Xor(Xor(Xor(t.table[3, Byte0(c) as int], t.table[2, Byte1(c) as int]),
                 t.table[1, Byte2(c) as int]), t.table[0, Byte3(c) as int]);
  }

  method BigLookup(t: CrcTable, r: word, b: byte) returns (d: word)
    requires t.Valid()
    ensures d == Rev(Feed(Rev(r), b))
  {
    hide Xor, Zeros, Byte3, Shl8, Feed, Entry, Rev;
    t.ValidAt(4, Byte3(r) ^ b);
    d := Xor(t.table[4, (Byte3(r) ^ b) as int], Shl8(r));
    RevTwice(r);
    BigLookupIsFeed(Rev(r), b);
  }

  /** DOBIG4 after the xor */
  method BigLookupFour(t: CrcTable, r: word) returns (d: word)
    requires t.Valid()
    ensures d == Rev(FourLookups(Rev(r)))
  {
    hide Xor, Byte0, Byte1, Byte2, Byte3, Entry, Rev, FourLookups;
    t.ValidAt(4, Byte0(r));
    t.ValidAt(5, Byte1(r));
    t.ValidAt(6, Byte2(r));
    t.ValidAt(7, Byte3(r));
    d := Xor(Xor(Xor(t.table[4, Byte0(r) as int], t.table[5, Byte1(r) as int]),
                 t.table[6, Byte2(r) as int]), t.table[7, Byte3(r) as int]);
    RevTwice(r);
    FourBigLookupsIsRev(Rev(r));
  }

  /** DOLIT4 */
  method LittleFour(t: CrcTable, c: word, buf: seq<byte>, off: nat) returns (d: word)
    requires t.Valid() && off + 4 <= |buf|
    ensures Register(c, buf[off..]) == Register(d, buf[off + 4..])
  {
    hide Xor, LittleWord, Register, FourLookups;
    d := LookupFour(t, Xor(c, LittleWord(buf[off], buf[off + 1], buf[off + 2], buf[off + 3])));
    RegisterFour(c, buf[off..]);
    assert buf[off..][4..] == buf[off + 4..];
  }

  /** DOBIG4, with the pointer already advanced */
  method BigFour(t: CrcTable, r: word, buf: seq<byte>, off: nat) returns (d: word)
    requires t.Valid() && off + 4 <= |buf|
    ensures Register(Rev(r), buf[off..]) == Register(Rev(d), buf[off + 4..])
  {
    hide Xor, LittleWord, BigWord, Register, Rev, FourLookups;
    var w := BigWord(buf[off], buf[off + 1], buf[off + 2], buf[off + 3]);
    d := BigLookupFour(t, Xor(r, w));
    var v := LittleWord(buf[off], buf[off + 1], buf[off + 2], buf[off + 3]);
    RevLittleWord(buf[off], buf[off + 1], buf[off + 2], buf[off + 3]);
    RevXor(r, w);
    RevTwice(v);
    RevTwice(FourLookups(Xor(Rev(r), v)));
    RegisterFour(Rev(r), buf[off..]);
    assert buf[off..][4..] == buf[off + 4..];
  }

  lemma RegisterNext(c: word, buf: seq<byte>, off: nat)
    requires off < |buf|
    ensures Register(c, buf[off..]) == Register(Feed(c, buf[off]), buf[off + 1..])
  {
    hide Feed;
    assert buf[off..][1..] == buf[off + 1..];
  }

  lemma RegisterEnd(c: word, buf: seq<byte>)
    ensures Register(c, buf[|buf|..]) == c
  {
    hide Feed;
  }

  // ----- the loops

  /** The loop of crc32() without BYFOUR: groups of eight single-byte steps, then single bytes. */
  method Crc32Bytewise(t: CrcTable, crc: word, buf: seq<byte>) returns (r: word)
    requires t.Valid()
    ensures r == Crc(crc, buf)
  {
    hide Register, Not, Feed;
    var c := Not(crc);
    var off: nat, len: nat := 0, |buf|;
    assert buf[0..] == buf;
    while len >= 8
      invariant off + len == |buf|
      invariant Register(Not(crc), buf) == Register(c, buf[off..])
    {
      for k := 0 to 8
        invariant off + len == |buf| + k && off + 8 - k <= |buf|
        invariant Register(Not(crc), buf) == Register(c, buf[off..])
      {
        RegisterNext(c, buf, off);
        c := Lookup(t, c, buf[off]);
        off := off + 1;
      }
      len := len - 8;
    }
    while len > 0
      invariant off + len == |buf|
      invariant Register(Not(crc), buf) == Register(c, buf[off..])
    {
      RegisterNext(c, buf, off);
      c := Lookup(t, c, buf[off]);
      off, len := off + 1, len - 1;
    }
    RegisterEnd(c, buf);
    return Not(c);
  }

  /** crc32_little(); address is the numeric value of the buffer pointer. */
  method Crc32Little(t: CrcTable, crc: word, address: nat, buf: seq<byte>) returns (r: word)
    requires t.Valid()
    ensures r == Crc(crc, buf)
  {
    hide Register, Not, Feed;
    var c := Not(crc);
    var off: nat, len: nat := 0, |buf|;
    assert buf[0..] == buf;
    while len > 0 && (address + off) % 4 != 0
      invariant off + len == |buf|
      invariant Register(Not(crc), buf) == Register(c, buf[off..])
    {
      RegisterNext(c, buf, off);
      c := Lookup(t, c, buf[off]);
      off, len := off + 1, len - 1;
    }
    while len >= 32
      invariant off + len == |buf|
      invariant Register(Not(crc), buf) == Register(c, buf[off..])
    {
      for k := 0 to 8
        invariant off + len == |buf| + 4 * k && off + 4 * (8 - k) <= |buf|
        invariant Register(Not(crc), buf) == Register(c, buf[off..])
      {
        c := LittleFour(t, c, buf, off);
        off := off + 4;
      }
      len := len - 32;
    }
    while len >= 4
      invariant off + len == |buf|
      invariant Register(Not(crc), buf) == Register(c, buf[off..])
    {
      c := LittleFour(t, c, buf, off);
      off, len := off + 4, len - 4;
    }
    while len > 0
      invariant off + len == |buf|
      invariant Register(Not(crc), buf) == Register(c, buf[off..])
    {
      RegisterNext(c, buf, off);
      c := Lookup(t, c, buf[off]);
      off, len := off + 1, len - 1;
    }
    RegisterEnd(c, buf);
    return Not(c);
  }

  /** crc32_big(): the register and the tables are byte-reversed, and words are read after the
      pointer, which starts one word early, is incremented. */
  method Crc32Big(t: CrcTable, crc: word, address: nat, buf: seq<byte>) returns (r: word)
    requires t.Valid()
    ensures r == Crc(crc, buf)
  {
    hide Register, Not, Feed, Rev;
    var c := Not(Rev(crc));
    var off: nat, len: nat := 0, |buf|;
    assert buf[0..] == buf;
    RevNot(crc);
    RevTwice(Not(crc));
    while len > 0 && (address + off) % 4 != 0
      invariant off + len == |buf|
      invariant Register(Not(crc), buf) == Register(Rev(c), buf[off..])
    {
      RegisterNext(Rev(c), buf, off);
      RevTwice(Feed(Rev(c), buf[off]));
      c := BigLookup(t, c, buf[off]);
      off, len := off + 1, len - 1;
    }
    var off4: int := off;
    off4 := off4 - 4;
    while len >= 32
      invariant off4 + 4 + len == |buf| && off4 + 4 >= 0
      invariant Register(Not(crc), buf) == Register(Rev(c), buf[off4 + 4..])
    {
      for k := 0 to 8
        invariant off4 + 4 + len == |buf| + 4 * k && 0 <= off4 + 4 && off4 + 4 + 4 * (8 - k) <= |buf|
        invariant Register(Not(crc), buf) == Register(Rev(c), buf[off4 + 4..])
      {
        off4 := off4 + 4;
        c := BigFour(t, c, buf, off4);
      }
      len := len - 32;
    }
    while len >= 4
      invariant off4 + 4 + len == |buf| && off4 + 4 >= 0
      invariant Register(Not(crc), buf) == Register(Rev(c), buf[off4 + 4..])
    {
      off4 := off4 + 4;
      c := BigFour(t, c, buf, off4);
      len := len - 4;
    }
    off4 := off4 + 4;
    off := off4;
    while len > 0
      invariant off + len == |buf|
      invariant Register(Not(crc), buf) == Register(Rev(c), buf[off..])
    {
      RegisterNext(Rev(c), buf, off);
      RevTwice(Feed(Rev(c), buf[off]));
      c := BigLookup(t, c, buf[off]);
      off, len := off + 1, len - 1;
    }
    RegisterEnd(Rev(c), buf);
    RevNot(c);
    return Rev(Not(c));
  }

  /** crc32(): a null buffer asks for the initial value; otherwise the form the machine allows. */
  method Crc32Of(t: CrcTable, crc: word, address: nat, buf: Option<seq<byte>>, byFour: bool, littleEndian: bool)
    returns (r: word)
    requires t.Valid()
    ensures r == if buf.None? then 0 else Crc(crc, buf.value)
  {
    match buf
    case None => r := 0;
    case Some(bytes) =>
      if byFour {
        if littleEndian {
          r := Crc32Little(t, crc, address, bytes);
        } else {
          r := Crc32Big(t, crc, address, bytes);
        }
      } else {
        r := Crc32Bytewise(t, crc, bytes);
      }
  }
}
