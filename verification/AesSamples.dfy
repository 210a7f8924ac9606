/** The key expansions of appendix A of FIPS 197, the block of appendix B, and the first bytes of the CFB8 example
    of SP 800-38A. */
module AesSamples {
  import opened Words
  import opened Gf256
  import opened AesTables
  import opened AesCipher
  import opened AesKeySchedule
  import opened AesContext
  import opened AesSbox
  import opened CipherModes
  import opened AesModes

  /** Turning a word moves its first byte to its end. */
  lemma RotWordTurns(w: word)
    ensures WordBytes(RotWord(w)) == WordBytes(w)[1..] + WordBytes(w)[..1]
  {
    hide LittleWord, Byte0, Byte1, Byte2, Byte3;
    LittleWordBytes(Byte1(w), Byte2(w), Byte3(w), Byte0(w));
  }

  lemma RoundConstantValues()
    ensures Rcon(0) == 0x01 && Rcon(1) == 0x02 && Rcon(2) == 0x04 && Rcon(3) == 0x08 && Rcon(4) == 0x10
    ensures Rcon(5) == 0x20 && Rcon(6) == 0x40 && Rcon(7) == 0x80 && Rcon(8) == 0x1b && Rcon(9) == 0x36
  {
    RconNext(0); RconNext(1); RconNext(2); RconNext(3); RconNext(4);
    RconNext(5); RconNext(6); RconNext(7); RconNext(8);
    hide Rcon;
  }

  lemma RconNext(i: nat)
    ensures Rcon(0) == 1 && Rcon(i + 1) == XTime(Rcon(i))
  {
    hide XTime;
  }

  // ----- key expansion

  const KEY_128: seq<byte> := [
    0x2b, 0x7e, 0x15, 0x16, 0x28, 0xae, 0xd2, 0xa6, 0xab, 0xf7, 0x15, 0x88, 0x09, 0xcf, 0x4f, 0x3c]
  const HEAD_192: seq<byte> := [
    0x8e, 0x73, 0xb0, 0xf7, 0xda, 0x0e, 0x64, 0x52, 0xc8, 0x10, 0xf3, 0x2b, 0x80, 0x90, 0x79, 0xe5]
  const TAIL_192: seq<byte> := [0x62, 0xf8, 0xea, 0xd2, 0x52, 0x2c, 0x6b, 0x7b]
  const HEAD_256: seq<byte> := [
    0x60, 0x3d, 0xeb, 0x10, 0x15, 0xca, 0x71, 0xbe, 0x2b, 0x73, 0xae, 0xf0, 0x85, 0x7d, 0x77, 0x81]
  const TAIL_256: seq<byte> := [
    0x1f, 0x35, 0x2c, 0x07, 0x3b, 0x61, 0x08, 0xd7, 0x2d, 0x98, 0x10, 0xa3, 0x09, 0x14, 0xdf, 0xf4]
  const KEY_192: seq<byte> := HEAD_192 + TAIL_192
  const KEY_256: seq<byte> := HEAD_256 + TAIL_256

  /** Words nk * r to nk * r + 3 of the schedule. */
  ghost predicate Row(key: seq<byte>, nk: nat, r: nat, a: word, b: word, c: word, d: word)
    requires nk >= 4 && 4 * nk <= |key|
  {
    && KeyWord(key, nk, nk * r) == a && KeyWord(key, nk, nk * r + 1) == b
    && KeyWord(key, nk, nk * r + 2) == c && KeyWord(key, nk, nk * r + 3) == d
  }

  ghost predicate Begins(key: seq<byte>, i: nat, w: word)
    requires 4 * i + 4 <= |key|
  {
    LittleWord(key[4 * i], key[4 * i + 1], key[4 * i + 2], key[4 * i + 3]) == w
  }

  lemma JoinedHead(a: seq<byte>, b: seq<byte>, i: nat, w: word)
    requires 4 * i + 4 <= |a| && Begins(a, i, w)
    ensures Begins(a + b, i, w)
  {
    hide LittleWord;
  }

  lemma JoinedTail(a: seq<byte>, b: seq<byte>, i: nat, w: word)
    requires |a| == 16 && 4 * i + 4 <= |b| && Begins(b, i, w)
    ensures Begins(a + b, i + 4, w)
  {
    hide LittleWord;
  }

  lemma FirstWords(key: seq<byte>, nk: nat, i: nat)
    requires i < nk && 4 * nk <= |key|
    ensures KeyWord(key, nk, i) == LittleWord(key[4 * i], key[4 * i + 1], key[4 * i + 2], key[4 * i + 3])
  {
    hide LittleWord;
  }

  /** The next row, its first word taking in rc and s for the last word so far. */
  lemma NextRow(key: seq<byte>, nk: nat, r: nat, a: word, b: word, c: word, d: word, last: word, rc: byte, s: word)
    requires nk in {4, 6, 8} && 4 * nk <= |key| && Row(key, nk, r, a, b, c, d)
    requires KeyWord(key, nk, nk * r + nk - 1) == last && Rcon(r) == rc && SubWord(RotWord(last)) == s
    ensures var a1 := Xor(Xor(a, Widen(rc)), s); var b1 := Xor(b, a1); var c1 := Xor(c, b1);
      Row(key, nk, r + 1, a1, b1, c1, Xor(d, c1))
  {
    hide Xor, Widen, SubWord, RotWord, Rcon, KeyWord;
    RowStart(key, nk, r);
    RowNext(key, nk, r, 1);
    RowNext(key, nk, r, 2);
    RowNext(key, nk, r, 3);
    assert nk * (r + 1) == nk * r + nk;
  }

  lemma Cores1()
    ensures SubWord(RotWord(0x3c4fcf09)) == 0x01eb848a
    ensures SubWord(RotWord(0x05766c2a)) == 0xe56b3850
    ensures SubWord(RotWord(0x7ff65973)) == 0x8fd242cb
    ensures SubWord(RotWord(0x3b887a6d)) == 0x3ce2c4da
    ensures SubWord(RotWord(0x00ad0bdb)) == 0xb963952b
  {
    hide Sub;
    SubTable();
  }

  lemma Cores2()
    ensures SubWord(RotWord(0xbc15f911)) == 0x82655999
    ensures SubWord(RotWord(0xfd9300ca)) == 0x7454dc63
    ensures SubWord(RotWord(0x4fdca64e)) == 0x2f848624
    ensures SubWord(RotWord(0x2f298d7f)) == 0xd215a55d
    ensures SubWord(RotWord(0x6e005c57)) == 0x5b9f634a
  {
    hide Sub;
    SubTable();
  }

  lemma Row128From0(key: seq<byte>)
    requires key == KEY_128
    ensures Row(key, 4, 0, 0x16157e2b, 0xa6d2ae28, 0x8815f7ab, 0x3c4fcf09)
  {
    hide KeyWord;
    FirstWords(key, 4, 0);
    FirstWords(key, 4, 1);
    FirstWords(key, 4, 2);
    FirstWords(key, 4, 3);
  }

  lemma Row128From4(key: seq<byte>)
    requires key == KEY_128
    ensures Row(key, 4, 1, 0x17fefaa0, 0xb12c5488, 0x3939a323, 0x05766c2a)
  {
    hide Rcon, SubWord, RotWord, KeyWord;
    Row128From0(key);
    RoundConstantValues();
    Cores1();
    NextRow(key, 4, 0, 0x16157e2b, 0xa6d2ae28, 0x8815f7ab, 0x3c4fcf09,
            0x3c4fcf09, 0x01, 0x01eb848a);
  }

  lemma Row128From8(key: seq<byte>)
    requires key == KEY_128
    ensures Row(key, 4, 2, 0xf295c2f2, 0x43b9967a, 0x7a803559, 0x7ff65973)
  {
    hide Rcon, SubWord, RotWord, KeyWord;
    Row128From4(key);
    RoundConstantValues();
    Cores1();
    NextRow(key, 4, 1, 0x17fefaa0, 0xb12c5488, 0x3939a323, 0x05766c2a,
            0x05766c2a, 0x02, 0xe56b3850);
  }

  lemma Row128From12(key: seq<byte>)
    requires key == KEY_128
    ensures Row(key, 4, 3, 0x7d47803d, 0x3efe1647, 0x447e231e, 0x3b887a6d)
  {
    hide Rcon, SubWord, RotWord, KeyWord;
    Row128From8(key);
    RoundConstantValues();
    Cores1();
    NextRow(key, 4, 2, 0xf295c2f2, 0x43b9967a, 0x7a803559, 0x7ff65973,
            0x7ff65973, 0x04, 0x8fd242cb);
  }

  lemma Row128From16(key: seq<byte>)
    requires key == KEY_128
    ensures Row(key, 4, 4, 0x41a544ef, 0x7f5b52a8, 0x3b2571b6, 0x00ad0bdb)
  {
    hide Rcon, SubWord, RotWord, KeyWord;
    Row128From12(key);
    RoundConstantValues();
    Cores1();
    NextRow(key, 4, 3, 0x7d47803d, 0x3efe1647, 0x447e231e, 0x3b887a6d,
            0x3b887a6d, 0x08, 0x3ce2c4da);
  }

  lemma Row128From20(key: seq<byte>)
    requires key == KEY_128
    ensures Row(key, 4, 5, 0xf8c6d1d4, 0x879d837c, 0xbcb8f2ca, 0xbc15f911)
  {
    hide Rcon, SubWord, RotWord, KeyWord;
    Row128From16(key);
    RoundConstantValues();
    Cores1();
    NextRow(key, 4, 4, 0x41a544ef, 0x7f5b52a8, 0x3b2571b6, 0x00ad0bdb,
            0x00ad0bdb, 0x10, 0xb963952b);
  }

  lemma Row128From24(key: seq<byte>)
    requires key == KEY_128
    ensures Row(key, 4, 6, 0x7aa3886d, 0xfd3e0b11, 0x4186f9db, 0xfd9300ca)
  {
    hide Rcon, SubWord, RotWord, KeyWord;
    Row128From20(key);
    RoundConstantValues();
    Cores2();
    NextRow(key, 4, 5, 0xf8c6d1d4, 0x879d837c, 0xbcb8f2ca, 0xbc15f911,
            0xbc15f911, 0x20, 0x82655999);
  }

  lemma Row128From28(key: seq<byte>)
    requires key == KEY_128
    ensures Row(key, 4, 7, 0x0ef7544e, 0xf3c95f5f, 0xb24fa684, 0x4fdca64e)
  {
    hide Rcon, SubWord, RotWord, KeyWord;
    Row128From24(key);
    RoundConstantValues();
    Cores2();
    NextRow(key, 4, 6, 0x7aa3886d, 0xfd3e0b11, 0x4186f9db, 0xfd9300ca,
            0xfd9300ca, 0x40, 0x7454dc63);
  }

  lemma Row128From32(key: seq<byte>)
    requires key == KEY_128
    ensures Row(key, 4, 8, 0x2173d2ea, 0xd2ba8db5, 0x60f52b31, 0x2f298d7f)
  {
    hide Rcon, SubWord, RotWord, KeyWord;
    Row128From28(key);
    RoundConstantValues();
    Cores2();
    NextRow(key, 4, 7, 0x0ef7544e, 0xf3c95f5f, 0xb24fa684, 0x4fdca64e,
            0x4fdca64e, 0x80, 0x2f848624);
  }

  lemma Row128From36(key: seq<byte>)
    requires key == KEY_128
    ensures Row(key, 4, 9, 0xf36677ac, 0x21dcfa19, 0x4129d128, 0x6e005c57)
  {
    hide Rcon, SubWord, RotWord, KeyWord;
    Row128From32(key);
    RoundConstantValues();
    Cores2();
    NextRow(key, 4, 8, 0x2173d2ea, 0xd2ba8db5, 0x60f52b31, 0x2f298d7f,
            0x2f298d7f, 0x1b, 0xd215a55d);
  }

  lemma Row128From40(key: seq<byte>)
    requires key == KEY_128
    ensures Row(key, 4, 10, 0xa8f914d0, 0x8925eec9, 0xc80c3fe1, 0xa60c63b6)
  {
    hide Rcon, SubWord, RotWord, KeyWord;
    Row128From36(key);
    RoundConstantValues();
    Cores2();
    NextRow(key, 4, 9, 0xf36677ac, 0x21dcfa19, 0x4129d128, 0x6e005c57,
            0x6e005c57, 0x36, 0x5b9f634a);
  }

  lemma CoresLonger()
    ensures SubWord(RotWord(0x7b6b2c52)) == 0x00217f71
    ensures SubWord(RotWord(0xf4df1409)) == 0x01bf9efa
  {
    hide Sub;
    SubTable();
  }

  lemma Head192(b: seq<byte>)
    requires b == HEAD_192
    ensures Begins(b, 0, 0xf7b0738e) && Begins(b, 1, 0x52640eda)
    ensures Begins(b, 2, 0x2bf310c8) && Begins(b, 3, 0xe5799080)
  {}

  lemma Tail192(b: seq<byte>)
    requires b == TAIL_192
    ensures Begins(b, 0, 0xd2eaf862) && Begins(b, 1, 0x7b6b2c52)
  {}

  lemma Words192(key: seq<byte>)
    requires key == KEY_192
    ensures Begins(key, 0, 0xf7b0738e) && Begins(key, 1, 0x52640eda)
    ensures Begins(key, 2, 0x2bf310c8) && Begins(key, 3, 0xe5799080)
    ensures Begins(key, 4, 0xd2eaf862) && Begins(key, 5, 0x7b6b2c52)
  {
    hide Begins;
    Head192(HEAD_192);
    Tail192(TAIL_192);
    JoinedHead(HEAD_192, TAIL_192, 0, 0xf7b0738e);
    JoinedHead(HEAD_192, TAIL_192, 1, 0x52640eda);
    JoinedHead(HEAD_192, TAIL_192, 2, 0x2bf310c8);
    JoinedHead(HEAD_192, TAIL_192, 3, 0xe5799080);
    JoinedTail(HEAD_192, TAIL_192, 0, 0xd2eaf862);
    JoinedTail(HEAD_192, TAIL_192, 1, 0x7b6b2c52);
  }

  lemma MiddleCore()
    ensures SubWord(0xdefc6720) == 0x1db085b7
  {
    hide Sub;
    SubTable();
  }

  lemma Expand192(key: seq<byte>)
    requires |key| == 24
    requires Begins(key, 0, 0xf7b0738e) && Begins(key, 1, 0x52640eda)
    requires Begins(key, 2, 0x2bf310c8) && Begins(key, 3, 0xe5799080)
    requires Begins(key, 4, 0xd2eaf862) && Begins(key, 5, 0x7b6b2c52)
    ensures Row(key, 6, 1, 0xf7910cfe, 0xa5f50224, 0x8e0612ec, 0x6b7f826c)
    ensures KeyWord(key, 6, 10) == 0xb9957a0e && KeyWord(key, 6, 11) == 0xc2fe565c
  {
    hide Rcon, SubWord, RotWord, KeyWord, LittleWord;
    FirstWords(key, 6, 0);
    FirstWords(key, 6, 1);
    FirstWords(key, 6, 2);
    FirstWords(key, 6, 3);
    FirstWords(key, 6, 4);
    FirstWords(key, 6, 5);
    RoundConstantValues();
    CoresLonger();
    NextRow(key, 6, 0, 0xf7b0738e, 0x52640eda, 0x2bf310c8, 0xe5799080,
            0x7b6b2c52, 0x01, 0x00217f71);
    RowNext(key, 6, 0, 4);
    RowNext(key, 6, 0, 5);
  }

  /** Section A.2: the words after the key are fe0c91f7, 2402f5a5, ec12068e, 6c827f6b, 0e7a95b9, 5c56fec2. */
  lemma Expands192(key: seq<byte>)
    requires key == KEY_192
    ensures Row(key, 6, 1, 0xf7910cfe, 0xa5f50224, 0x8e0612ec, 0x6b7f826c)
    ensures KeyWord(key, 6, 10) == 0xb9957a0e && KeyWord(key, 6, 11) == 0xc2fe565c
  {
    hide KeyWord, Row, Begins;
    Words192(key);
    Expand192(key);
  }

  lemma Head256(b: seq<byte>)
    requires b == HEAD_256
    ensures Begins(b, 0, 0x10eb3d60) && Begins(b, 1, 0xbe71ca15)
    ensures Begins(b, 2, 0xf0ae732b) && Begins(b, 3, 0x81777d85)
  {}

  lemma Tail256(b: seq<byte>)
    requires b == TAIL_256
    ensures Begins(b, 0, 0x072c351f) && Begins(b, 1, 0xd708613b)
    ensures Begins(b, 2, 0xa310982d) && Begins(b, 3, 0xf4df1409)
  {}

  lemma Words256(key: seq<byte>)
    requires key == KEY_256
    ensures Begins(key, 0, 0x10eb3d60) && Begins(key, 1, 0xbe71ca15)
    ensures Begins(key, 2, 0xf0ae732b) && Begins(key, 3, 0x81777d85)
    ensures Begins(key, 4, 0x072c351f) && Begins(key, 5, 0xd708613b)
    ensures Begins(key, 6, 0xa310982d) && Begins(key, 7, 0xf4df1409)
  {
    hide Begins;
    Head256(HEAD_256);
    Tail256(TAIL_256);
    JoinedHead(HEAD_256, TAIL_256, 0, 0x10eb3d60);
    JoinedHead(HEAD_256, TAIL_256, 1, 0xbe71ca15);
    JoinedHead(HEAD_256, TAIL_256, 2, 0xf0ae732b);
    JoinedHead(HEAD_256, TAIL_256, 3, 0x81777d85);
    JoinedTail(HEAD_256, TAIL_256, 0, 0x072c351f);
    JoinedTail(HEAD_256, TAIL_256, 1, 0xd708613b);
    JoinedTail(HEAD_256, TAIL_256, 2, 0xa310982d);
    JoinedTail(HEAD_256, TAIL_256, 3, 0xf4df1409);
  }

  lemma Expand256(key: seq<byte>)
    requires |key| == 32
    requires Begins(key, 0, 0x10eb3d60) && Begins(key, 1, 0xbe71ca15)
    requires Begins(key, 2, 0xf0ae732b) && Begins(key, 3, 0x81777d85)
    requires Begins(key, 4, 0x072c351f) && Begins(key, 5, 0xd708613b)
    requires Begins(key, 6, 0xa310982d) && Begins(key, 7, 0xf4df1409)
    ensures Row(key, 8, 1, 0x1154a39b, 0xaf25698e, 0x5f8b1aa5, 0xdefc6720)
    ensures KeyWord(key, 8, 12) == 0x1a9cb0a8 && KeyWord(key, 8, 13) == 0xcd94d193
    ensures KeyWord(key, 8, 14) == 0x6e8449be && KeyWord(key, 8, 15) == 0x9a5b5db7
  {
    hide Rcon, SubWord, RotWord, KeyWord, LittleWord;
    FirstWords(key, 8, 0);
    FirstWords(key, 8, 1);
    FirstWords(key, 8, 2);
    FirstWords(key, 8, 3);
    FirstWords(key, 8, 4);
    FirstWords(key, 8, 5);
    FirstWords(key, 8, 6);
    FirstWords(key, 8, 7);
    RoundConstantValues();
    CoresLonger();
    NextRow(key, 8, 0, 0x10eb3d60, 0xbe71ca15, 0xf0ae732b, 0x81777d85,
            0xf4df1409, 0x01, 0x01bf9efa);
    MiddleCore();
    RowMiddle(key, 0);
    RowNext(key, 8, 0, 5);
    RowNext(key, 8, 0, 6);
    RowNext(key, 8, 0, 7);
  }

  /** Section A.3: 9ba35411, 8e6925af, a51a8b5f, 2067fcde, and a8b09c1a by the extra substitution. */
  lemma Expands256(key: seq<byte>)
    requires key == KEY_256
    ensures Row(key, 8, 1, 0x1154a39b, 0xaf25698e, 0x5f8b1aa5, 0xdefc6720)
    ensures KeyWord(key, 8, 12) == 0x1a9cb0a8 && KeyWord(key, 8, 13) == 0xcd94d193
    ensures KeyWord(key, 8, 14) == 0x6e8449be && KeyWord(key, 8, 15) == 0x9a5b5db7
  {
    hide KeyWord, Row, Begins;
    Words256(key);
    Expand256(key);
  }

  lemma RoundKeyIs(key: seq<byte>, r: nat, a: word, b: word, c: word, d: word)
    requires 16 <= |key| && r <= 10 && Row(key, 4, r, a, b, c, d)
    ensures EncKeys(key, 128)[r] == State(a, b, c, d)
  {
    hide KeyWord;
  }

  /** Section A.1: all the round keys of the 128-bit key, word 4 being a0fafe17. */
  lemma RoundKeys128(key: seq<byte>, keys: seq<State>)
    requires key == KEY_128 && keys == EncKeys(key, 128)
    ensures keys[0] == State(0x16157e2b, 0xa6d2ae28, 0x8815f7ab, 0x3c4fcf09)
    ensures keys[1] == State(0x17fefaa0, 0xb12c5488, 0x3939a323, 0x05766c2a)
    ensures keys[2] == State(0xf295c2f2, 0x43b9967a, 0x7a803559, 0x7ff65973)
    ensures keys[3] == State(0x7d47803d, 0x3efe1647, 0x447e231e, 0x3b887a6d)
    ensures keys[4] == State(0x41a544ef, 0x7f5b52a8, 0x3b2571b6, 0x00ad0bdb)
    ensures keys[5] == State(0xf8c6d1d4, 0x879d837c, 0xbcb8f2ca, 0xbc15f911)
    ensures keys[6] == State(0x7aa3886d, 0xfd3e0b11, 0x4186f9db, 0xfd9300ca)
    ensures keys[7] == State(0x0ef7544e, 0xf3c95f5f, 0xb24fa684, 0x4fdca64e)
    ensures keys[8] == State(0x2173d2ea, 0xd2ba8db5, 0x60f52b31, 0x2f298d7f)
    ensures keys[9] == State(0xf36677ac, 0x21dcfa19, 0x4129d128, 0x6e005c57)
    ensures keys[10] == State(0xa8f914d0, 0x8925eec9, 0xc80c3fe1, 0xa60c63b6)
  {
    hide KeyWord, EncKeys, Row;
    Row128From0(key); RoundKeyIs(key, 0, 0x16157e2b, 0xa6d2ae28, 0x8815f7ab, 0x3c4fcf09);
    Row128From4(key); RoundKeyIs(key, 1, 0x17fefaa0, 0xb12c5488, 0x3939a323, 0x05766c2a);
    Row128From8(key); RoundKeyIs(key, 2, 0xf295c2f2, 0x43b9967a, 0x7a803559, 0x7ff65973);
    Row128From12(key); RoundKeyIs(key, 3, 0x7d47803d, 0x3efe1647, 0x447e231e, 0x3b887a6d);
    Row128From16(key); RoundKeyIs(key, 4, 0x41a544ef, 0x7f5b52a8, 0x3b2571b6, 0x00ad0bdb);
    Row128From20(key); RoundKeyIs(key, 5, 0xf8c6d1d4, 0x879d837c, 0xbcb8f2ca, 0xbc15f911);
    Row128From24(key); RoundKeyIs(key, 6, 0x7aa3886d, 0xfd3e0b11, 0x4186f9db, 0xfd9300ca);
    Row128From28(key); RoundKeyIs(key, 7, 0x0ef7544e, 0xf3c95f5f, 0xb24fa684, 0x4fdca64e);
    Row128From32(key); RoundKeyIs(key, 8, 0x2173d2ea, 0xd2ba8db5, 0x60f52b31, 0x2f298d7f);
    Row128From36(key); RoundKeyIs(key, 9, 0xf36677ac, 0x21dcfa19, 0x4129d128, 0x6e005c57);
    Row128From40(key); RoundKeyIs(key, 10, 0xa8f914d0, 0x8925eec9, 0xc80c3fe1, 0xa60c63b6);
  }

  // ----- the cipher on literals

  function MixByte(a: byte, b: byte, c: byte, d: byte): byte { Add(Add(XTime(a), Add(XTime(b), b)), Add(c, d)) }

  function Mixed(w: word): word {
    var a, b, c, d := Byte0(w), Byte1(w), Byte2(w), Byte3(w);
    LittleWord(MixByte(a, b, c, d), MixByte(b, c, d, a), MixByte(c, d, a, b), MixByte(d, a, b, c))
  }

  lemma Reordered(p: byte, q: byte, c: byte, d: byte)
    ensures Add(Add(d, p), Add(q, c)) == Add(Add(p, q), Add(c, d))
    ensures Add(Add(c, d), Add(p, q)) == Add(Add(p, q), Add(c, d))
    ensures Add(Add(q, c), Add(d, p)) == Add(Add(p, q), Add(c, d))
  {}

  lemma DotIs(a: byte, b: byte, c: byte, d: byte)
    ensures Dot(2, 3, 1, 1, a, b, c, d) == MixByte(a, b, c, d)
    ensures Dot(1, 2, 3, 1, d, a, b, c) == MixByte(a, b, c, d)
    ensures Dot(1, 1, 2, 3, c, d, a, b) == MixByte(a, b, c, d)
    ensures Dot(3, 1, 1, 2, b, c, d, a) == MixByte(a, b, c, d)
  {
    hide Mul, Add, XTime;
    MulSmall(a); MulSmall(b); MulSmall(c); MulSmall(d);
    Reordered(XTime(a), Add(XTime(b), b), c, d);
  }

  lemma MixIs(w: word)
    ensures MixColumn(w) == Mixed(w)
  {
    hide Dot, MixByte, Byte0, Byte1, Byte2, Byte3, LittleWord;
    var a, b, c, d := Byte0(w), Byte1(w), Byte2(w), Byte3(w);
    DotIs(a, b, c, d); DotIs(b, c, d, a); DotIs(c, d, a, b); DotIs(d, a, b, c);
  }

  function RoundAfterSub(s: State, k: State): State {
    var u := ShiftRows(s);
    State(Xor(k.x0, Mixed(u.x0)), Xor(k.x1, Mixed(u.x1)), Xor(k.x2, Mixed(u.x2)), Xor(k.x3, Mixed(u.x3)))
  }

  /** One more round on known words. */
  lemma OneRound(keys: seq<State>, r: nat, input: State, s: State, sub: State)
    requires r + 1 < |keys| && AfterRounds(keys, r, input) == s && SubBytes(s) == sub
    ensures AfterRounds(keys, r + 1, input) == RoundAfterSub(sub, keys[r + 1])
  {
    hide MixColumn, Mixed, SubWord, ShiftRows, Xor;
    var u := ShiftRows(sub);
    MixIs(u.x0); MixIs(u.x1); MixIs(u.x2); MixIs(u.x3);
  }

  lemma FirstRound(keys: seq<State>, input: State)
    requires |keys| > 0
    ensures AfterRounds(keys, 0, input) == AddRoundKey(input, keys[0])
  {
    hide AddRoundKey, Round;
  }

  // ----- the block of appendix B

  const APPENDIX: seq<byte> := [
    0x32, 0x43, 0xf6, 0xa8, 0x88, 0x5a, 0x30, 0x8d, 0x31, 0x31, 0x98, 0xa2, 0xe0, 0x37, 0x07, 0x34]

  lemma AppendixSubs0()
    ensures SubBytes(State(0xbee33d19, 0x2be2f4a0, 0x2a8dc69a, 0x0848f8e9))
         == State(0xae1127d4, 0xf198bfe0, 0xe55db4b8, 0x3052411e)
    ensures SubBytes(State(0xf27f9ca4, 0x2b359f68, 0x43ea5b6b, 0x49506a02))
         == State(0x89d2de49, 0xf196db45, 0x1a87397f, 0x3b530277)
    ensures SubBytes(State(0x035f8faa, 0xefe3dd61, 0xd24ad282, 0x9a463268))
         == State(0x7bcf73ac, 0xdf11c1ef, 0xb5d6b513, 0xb85a2345)
  {
    hide Sub;
    SubTable();
  }

  lemma AppendixSubs3()
    ensures SubBytes(State(0xee4e6c48, 0x0d9d1d67, 0x38b1e34d, 0xe7585fd6))
         == State(0x282f5052, 0xd75ea485, 0x07c811e3, 0x946acff6)
    ensures SubBytes(State(0xe87f92e0, 0xc06363c8, 0x5035b1d9, 0x01beb885))
         == State(0x9bd24fe1, 0xbafbfbe8, 0x5396c835, 0x7cae6c97)
    ensures SubBytes(State(0x556f00f1, 0xef4c92c1, 0x328bc87c, 0x0cd5b55d))
         == State(0xfca863a1, 0xdf294f78, 0x233de810, 0xfe03d54c)
  {
    hide Sub;
    SubTable();
  }

  lemma AppendixSubs6()
    ensures SubBytes(State(0x172e0e26, 0x7db7413d, 0xa97264e8, 0x258bd2fd))
         == State(0xf031abf7, 0xffa98327, 0xd340439b, 0x3f3db554)
    ensures SubBytes(State(0xb142415a, 0x1fdc4919, 0x6519e0a3, 0x0c048c7a))
         == State(0xc82c83be, 0xc0863bd4, 0x4dd4e10a, 0xfef264da)
    ensures SubBytes(State(0xf05c83ea, 0x2d334504, 0xad985d65, 0xc5b09685))
         == State(0x8c4aec87, 0xd8c36ef2, 0x95464c4d, 0xa6e79097)
    ensures SubBytes(State(0x1ef240eb, 0x84382e59, 0xe713a18b, 0xd242c31b))
         == State(0x728909e9, 0x5f0731cb, 0x947d323d, 0xb52c2eaf)
  {
    hide Sub;
    SubTable();
  }

  lemma AppendixLoad()
    ensures LoadState(APPENDIX) == State(0xa8f64332, 0x8d305a88, 0xa2983131, 0x340737e0)
    ensures AddRoundKey(State(0xa8f64332, 0x8d305a88, 0xa2983131, 0x340737e0),
                        State(0x16157e2b, 0xa6d2ae28, 0x8815f7ab, 0x3c4fcf09))
         == State(0xbee33d19, 0x2be2f4a0, 0x2a8dc69a, 0x0848f8e9)
  {}

  lemma AppendixRounds0()
    ensures RoundAfterSub(State(0xae1127d4, 0xf198bfe0, 0xe55db4b8, 0x3052411e),
                          State(0x17fefaa0, 0xb12c5488, 0x3939a323, 0x05766c2a))
         == State(0xf27f9ca4, 0x2b359f68, 0x43ea5b6b, 0x49506a02)
    ensures RoundAfterSub(State(0x89d2de49, 0xf196db45, 0x1a87397f, 0x3b530277),
                          State(0xf295c2f2, 0x43b9967a, 0x7a803559, 0x7ff65973))
         == State(0x035f8faa, 0xefe3dd61, 0xd24ad282, 0x9a463268)
    ensures RoundAfterSub(State(0x7bcf73ac, 0xdf11c1ef, 0xb5d6b513, 0xb85a2345),
                          State(0x7d47803d, 0x3efe1647, 0x447e231e, 0x3b887a6d))
         == State(0xee4e6c48, 0x0d9d1d67, 0x38b1e34d, 0xe7585fd6)
  {}

  lemma AppendixRounds3()
    ensures RoundAfterSub(State(0x282f5052, 0xd75ea485, 0x07c811e3, 0x946acff6),
                          State(0x41a544ef, 0x7f5b52a8, 0x3b2571b6, 0x00ad0bdb))
         == State(0xe87f92e0, 0xc06363c8, 0x5035b1d9, 0x01beb885)
    ensures RoundAfterSub(State(0x9bd24fe1, 0xbafbfbe8, 0x5396c835, 0x7cae6c97),
                          State(0xf8c6d1d4, 0x879d837c, 0xbcb8f2ca, 0xbc15f911))
         == State(0x556f00f1, 0xef4c92c1, 0x328bc87c, 0x0cd5b55d)
    ensures RoundAfterSub(State(0xfca863a1, 0xdf294f78, 0x233de810, 0xfe03d54c),
                          State(0x7aa3886d, 0xfd3e0b11, 0x4186f9db, 0xfd9300ca))
         == State(0x172e0e26, 0x7db7413d, 0xa97264e8, 0x258bd2fd)
  {}

  lemma AppendixRounds6()
    ensures RoundAfterSub(State(0xf031abf7, 0xffa98327, 0xd340439b, 0x3f3db554),
                          State(0x0ef7544e, 0xf3c95f5f, 0xb24fa684, 0x4fdca64e))
         == State(0xb142415a, 0x1fdc4919, 0x6519e0a3, 0x0c048c7a)
    ensures RoundAfterSub(State(0xc82c83be, 0xc0863bd4, 0x4dd4e10a, 0xfef264da),
                          State(0x2173d2ea, 0xd2ba8db5, 0x60f52b31, 0x2f298d7f))
         == State(0xf05c83ea, 0x2d334504, 0xad985d65, 0xc5b09685)
    ensures RoundAfterSub(State(0x8c4aec87, 0xd8c36ef2, 0x95464c4d, 0xa6e79097),
                          State(0xf36677ac, 0x21dcfa19, 0x4129d128, 0x6e005c57))
         == State(0x1ef240eb, 0x84382e59, 0xe713a18b, 0xd242c31b)
  {}

  lemma AppendixFinal()
    ensures AddRoundKey(ShiftRows(State(0x728909e9, 0x5f0731cb, 0x947d323d, 0xb52c2eaf)),
                        State(0xa8f914d0, 0x8925eec9, 0xc80c3fe1, 0xa60c63b6))
         == State(0x1d842539, 0xfb09dc02, 0x978511dc, 0x320b6a19)
    ensures StoreState(State(0x1d842539, 0xfb09dc02, 0x978511dc, 0x320b6a19))
         == [0x39, 0x25, 0x84, 0x1d, 0x02, 0xdc, 0x09, 0xfb, 0xdc, 0x11, 0x85, 0x97, 0x19, 0x6a, 0x0b, 0x32]
  {}

  lemma AppendixAfter9(keys: seq<State>, input: State)
    requires keys == EncKeys(KEY_128, 128) && input == State(0xa8f64332, 0x8d305a88, 0xa2983131, 0x340737e0)
    ensures AfterRounds(keys, 9, input) == State(0x1ef240eb, 0x84382e59, 0xe713a18b, 0xd242c31b)
  {
    hide AfterRounds, RoundAfterSub, AddRoundKey, SubBytes, EncKeys;
    RoundKeys128(KEY_128, keys);
    AppendixLoad();
    AppendixSubs0(); AppendixSubs3(); AppendixSubs6();
    AppendixRounds0(); AppendixRounds3(); AppendixRounds6();
    FirstRound(keys, input);
    OneRound(keys, 0, input, State(0xbee33d19, 0x2be2f4a0, 0x2a8dc69a, 0x0848f8e9),
             State(0xae1127d4, 0xf198bfe0, 0xe55db4b8, 0x3052411e));
    OneRound(keys, 1, input, State(0xf27f9ca4, 0x2b359f68, 0x43ea5b6b, 0x49506a02),
             State(0x89d2de49, 0xf196db45, 0x1a87397f, 0x3b530277));
    OneRound(keys, 2, input, State(0x035f8faa, 0xefe3dd61, 0xd24ad282, 0x9a463268),
             State(0x7bcf73ac, 0xdf11c1ef, 0xb5d6b513, 0xb85a2345));
    OneRound(keys, 3, input, State(0xee4e6c48, 0x0d9d1d67, 0x38b1e34d, 0xe7585fd6),
             State(0x282f5052, 0xd75ea485, 0x07c811e3, 0x946acff6));
    OneRound(keys, 4, input, State(0xe87f92e0, 0xc06363c8, 0x5035b1d9, 0x01beb885),
             State(0x9bd24fe1, 0xbafbfbe8, 0x5396c835, 0x7cae6c97));
    OneRound(keys, 5, input, State(0x556f00f1, 0xef4c92c1, 0x328bc87c, 0x0cd5b55d),
             State(0xfca863a1, 0xdf294f78, 0x233de810, 0xfe03d54c));
    OneRound(keys, 6, input, State(0x172e0e26, 0x7db7413d, 0xa97264e8, 0x258bd2fd),
             State(0xf031abf7, 0xffa98327, 0xd340439b, 0x3f3db554));
    OneRound(keys, 7, input, State(0xb142415a, 0x1fdc4919, 0x6519e0a3, 0x0c048c7a),
             State(0xc82c83be, 0xc0863bd4, 0x4dd4e10a, 0xfef264da));
    OneRound(keys, 8, input, State(0xf05c83ea, 0x2d334504, 0xad985d65, 0xc5b09685),
             State(0x8c4aec87, 0xd8c36ef2, 0x95464c4d, 0xa6e79097));
  }

  /** Appendix B: 3243f6a8885a308d313198a2e0370734 becomes 3925841d02dc09fbdc118597196a0b32. */
  lemma AppendixBlock()
    ensures EncryptBlock(EncKeys(KEY_128, 128), APPENDIX)
         == [0x39, 0x25, 0x84, 0x1d, 0x02, 0xdc, 0x09, 0xfb, 0xdc, 0x11, 0x85, 0x97, 0x19, 0x6a, 0x0b, 0x32]
  {
    hide AfterRounds, AddRoundKey, SubBytes, ShiftRows, EncKeys, LoadState, StoreState;
    RoundKeys128(KEY_128, EncKeys(KEY_128, 128));
    AppendixLoad();
    AppendixAfter9(EncKeys(KEY_128, 128), LoadState(APPENDIX));
    AppendixSubs6();
    AppendixFinal();
  }

  // ----- the initialization vector of SP 800-38A, appendix F

  const VECTOR: seq<byte> := [
    0x00, 0x01, 0x02, 0x03, 0x04, 0x05, 0x06, 0x07, 0x08, 0x09, 0x0a, 0x0b, 0x0c, 0x0d, 0x0e, 0x0f]

  lemma VectorSubs0()
    ensures SubBytes(State(0x15177f2b, 0xa1d4ab2c, 0x831ffea3, 0x3341c205))
         == State(0x59f0d2f1, 0x32486271, 0xecc0bb0a, 0xc383256b)
    ensures SubBytes(State(0x20a857fc, 0xa8108f66, 0x96bbda9a, 0xe1708c35))
         == State(0xb7c25bb0, 0xc2ca7333, 0x90ea57b8, 0xf8516496)
    ensures SubBytes(State(0x4b8a490e, 0x65bd4f03, 0x909eda9e, 0x741facf3))
         == State(0xb37e3bab, 0x4d7a847b, 0x600b570b, 0x92c0910d)
  {
    hide Sub;
    SubTable();
  }

  lemma VectorSubs3()
    ensures SubBytes(State(0x2bd3b77e, 0x59872b3b, 0x2ccfde93, 0xadeaef20))
         == State(0xf166a9f3, 0xcb17f1e2, 0x718a1ddc, 0x9587dfb7)
    ensures SubBytes(State(0x050c5e05, 0x21b9e926, 0x70ac69c2, 0x9e0ebd28))
         == State(0x6bfe586b, 0xfd561ef7, 0x5191f925, 0x0bab7a34)
    ensures SubBytes(State(0xdc9725ba, 0x01631059, 0xb61cc70d, 0x4c26d696))
         == State(0x86883ff4, 0x7cfbcacb, 0x4e9cc6d7, 0x29f7f690)
  {
    hide Sub;
    SubTable();
  }

  lemma VectorSubs6()
    ensures SubBytes(State(0x79c5656e, 0x9d57d3bc, 0xa528269b, 0x0e03b605))
         == State(0xb6a64d9f, 0x5e5b6665, 0x0634f714, 0xab7b4e6b)
    ensures SubBytes(State(0xab80f05e, 0xa76cf45a, 0xdaa08186, 0xe846bc12))
         == State(0x62cd8c58, 0x5c50bfbe, 0x57e00c44, 0x9b5a65c9)
    ensures SubBytes(State(0xbbf94ffb, 0x991aa7fe, 0xbcb1b587, 0x1d35e07e))
         == State(0xea99840f, 0xeea25cbb, 0x65c8d517, 0xa496e1f3)
    ensures SubBytes(State(0x2549273a, 0x7ba0bb6c, 0xc7df4149, 0x8c8724fa))
         == State(0x3f3bcc80, 0x21e0ea50, 0xc69e833b, 0x6417362d)
  {
    hide Sub;
    SubTable();
  }

  lemma VectorLoad()
    ensures LoadState(VECTOR) == State(0x03020100, 0x07060504, 0x0b0a0908, 0x0f0e0d0c)
    ensures AddRoundKey(State(0x03020100, 0x07060504, 0x0b0a0908, 0x0f0e0d0c),
                        State(0x16157e2b, 0xa6d2ae28, 0x8815f7ab, 0x3c4fcf09))
         == State(0x15177f2b, 0xa1d4ab2c, 0x831ffea3, 0x3341c205)
  {}

  lemma VectorRounds0()
    ensures RoundAfterSub(State(0x59f0d2f1, 0x32486271, 0xecc0bb0a, 0xc383256b),
                          State(0x17fefaa0, 0xb12c5488, 0x3939a323, 0x05766c2a))
         == State(0x20a857fc, 0xa8108f66, 0x96bbda9a, 0xe1708c35)
    ensures RoundAfterSub(State(0xb7c25bb0, 0xc2ca7333, 0x90ea57b8, 0xf8516496),
                          State(0xf295c2f2, 0x43b9967a, 0x7a803559, 0x7ff65973))
         == State(0x4b8a490e, 0x65bd4f03, 0x909eda9e, 0x741facf3)
    ensures RoundAfterSub(State(0xb37e3bab, 0x4d7a847b, 0x600b570b, 0x92c0910d),
                          State(0x7d47803d, 0x3efe1647, 0x447e231e, 0x3b887a6d))
         == State(0x2bd3b77e, 0x59872b3b, 0x2ccfde93, 0xadeaef20)
  {}

  lemma VectorRounds3()
    ensures RoundAfterSub(State(0xf166a9f3, 0xcb17f1e2, 0x718a1ddc, 0x9587dfb7),
                          State(0x41a544ef, 0x7f5b52a8, 0x3b2571b6, 0x00ad0bdb))
         == State(0x050c5e05, 0x21b9e926, 0x70ac69c2, 0x9e0ebd28)
    ensures RoundAfterSub(State(0x6bfe586b, 0xfd561ef7, 0x5191f925, 0x0bab7a34),
                          State(0xf8c6d1d4, 0x879d837c, 0xbcb8f2ca, 0xbc15f911))
         == State(0xdc9725ba, 0x01631059, 0xb61cc70d, 0x4c26d696)
    ensures RoundAfterSub(State(0x86883ff4, 0x7cfbcacb, 0x4e9cc6d7, 0x29f7f690),
                          State(0x7aa3886d, 0xfd3e0b11, 0x4186f9db, 0xfd9300ca))
         == State(0x79c5656e, 0x9d57d3bc, 0xa528269b, 0x0e03b605)
  {}

  lemma VectorRounds6()
    ensures RoundAfterSub(State(0xb6a64d9f, 0x5e5b6665, 0x0634f714, 0xab7b4e6b),
                          State(0x0ef7544e, 0xf3c95f5f, 0xb24fa684, 0x4fdca64e))
         == State(0xab80f05e, 0xa76cf45a, 0xdaa08186, 0xe846bc12)
    ensures RoundAfterSub(State(0x62cd8c58, 0x5c50bfbe, 0x57e00c44, 0x9b5a65c9),
                          State(0x2173d2ea, 0xd2ba8db5, 0x60f52b31, 0x2f298d7f))
         == State(0xbbf94ffb, 0x991aa7fe, 0xbcb1b587, 0x1d35e07e)
    ensures RoundAfterSub(State(0xea99840f, 0xeea25cbb, 0x65c8d517, 0xa496e1f3),
                          State(0xf36677ac, 0x21dcfa19, 0x4129d128, 0x6e005c57))
         == State(0x2549273a, 0x7ba0bb6c, 0xc7df4149, 0x8c8724fa)
  {}

  lemma VectorFinal()
    ensures AddRoundKey(ShiftRows(State(0x3f3bcc80, 0x21e0ea50, 0xc69e833b, 0x6417362d)),
                        State(0xa8f914d0, 0x8925eec9, 0xc80c3fe1, 0xa60c63b6))
         == State(0xcc67fe50, 0xb6326d99, 0xe93709da, 0x60ecaf9b)
    ensures StoreState(State(0xcc67fe50, 0xb6326d99, 0xe93709da, 0x60ecaf9b))
         == [0x50, 0xfe, 0x67, 0xcc, 0x99, 0x6d, 0x32, 0xb6, 0xda, 0x09, 0x37, 0xe9, 0x9b, 0xaf, 0xec, 0x60]
  {}

  lemma VectorAfter9(keys: seq<State>, input: State)
    requires keys == EncKeys(KEY_128, 128) && input == State(0x03020100, 0x07060504, 0x0b0a0908, 0x0f0e0d0c)
    ensures AfterRounds(keys, 9, input) == State(0x2549273a, 0x7ba0bb6c, 0xc7df4149, 0x8c8724fa)
  {
    hide AfterRounds, RoundAfterSub, AddRoundKey, SubBytes, EncKeys;
    RoundKeys128(KEY_128, keys);
    VectorLoad();
    VectorSubs0(); VectorSubs3(); VectorSubs6();
    VectorRounds0(); VectorRounds3(); VectorRounds6();
    FirstRound(keys, input);
    OneRound(keys, 0, input, State(0x15177f2b, 0xa1d4ab2c, 0x831ffea3, 0x3341c205),
             State(0x59f0d2f1, 0x32486271, 0xecc0bb0a, 0xc383256b));
    OneRound(keys, 1, input, State(0x20a857fc, 0xa8108f66, 0x96bbda9a, 0xe1708c35),
             State(0xb7c25bb0, 0xc2ca7333, 0x90ea57b8, 0xf8516496));
    OneRound(keys, 2, input, State(0x4b8a490e, 0x65bd4f03, 0x909eda9e, 0x741facf3),
             State(0xb37e3bab, 0x4d7a847b, 0x600b570b, 0x92c0910d));
    OneRound(keys, 3, input, State(0x2bd3b77e, 0x59872b3b, 0x2ccfde93, 0xadeaef20),
             State(0xf166a9f3, 0xcb17f1e2, 0x718a1ddc, 0x9587dfb7));
    OneRound(keys, 4, input, State(0x050c5e05, 0x21b9e926, 0x70ac69c2, 0x9e0ebd28),
             State(0x6bfe586b, 0xfd561ef7, 0x5191f925, 0x0bab7a34));
    OneRound(keys, 5, input, State(0xdc9725ba, 0x01631059, 0xb61cc70d, 0x4c26d696),
             State(0x86883ff4, 0x7cfbcacb, 0x4e9cc6d7, 0x29f7f690));
    OneRound(keys, 6, input, State(0x79c5656e, 0x9d57d3bc, 0xa528269b, 0x0e03b605),
             State(0xb6a64d9f, 0x5e5b6665, 0x0634f714, 0xab7b4e6b));
    OneRound(keys, 7, input, State(0xab80f05e, 0xa76cf45a, 0xdaa08186, 0xe846bc12),
             State(0x62cd8c58, 0x5c50bfbe, 0x57e00c44, 0x9b5a65c9));
    OneRound(keys, 8, input, State(0xbbf94ffb, 0x991aa7fe, 0xbcb1b587, 0x1d35e07e),
             State(0xea99840f, 0xeea25cbb, 0x65c8d517, 0xa496e1f3));
  }

  /** The initialization vector encrypted: 50fe67cc996d32b6da0937e99bafec60. */
  lemma VectorBlock()
    ensures EncryptBlock(EncKeys(KEY_128, 128), VECTOR)
         == [0x50, 0xfe, 0x67, 0xcc, 0x99, 0x6d, 0x32, 0xb6, 0xda, 0x09, 0x37, 0xe9, 0x9b, 0xaf, 0xec, 0x60]
  {
    hide AfterRounds, AddRoundKey, SubBytes, ShiftRows, EncKeys, LoadState, StoreState;
    RoundKeys128(KEY_128, EncKeys(KEY_128, 128));
    VectorLoad();
    VectorAfter9(EncKeys(KEY_128, 128), LoadState(VECTOR));
    VectorSubs6();
    VectorFinal();
  }

  // ----- CFB8

  /** Section F.3.7 of SP 800-38A: the first byte of the CFB8 example, 6b, becomes 3b. */
  lemma Cfb8Example()
    ensures Cfb8Encrypt(EcbFn(EncKeys(KEY_128, 128), AES_ENCRYPT), VECTOR, [0x6b]) == [0x3b]
  {
    hide EncryptBlock, EncKeys;
    var E := EcbFn(EncKeys(KEY_128, 128), AES_ENCRYPT);
    VectorBlock();
    assert E(VECTOR)[0] == 0x50;
    assert Cfb8Byte(E, VECTOR, 0x6b) == 0x3b;
  }
}
