/** The key expansion of FIPS 197, section 5.2, on little-endian words. */
module AesKeySchedule {
  import opened Words
  import opened AesTables
  import opened AesCipher
  import opened AesRounds

  function RotWord(w: word): word { LittleWord(Byte1(w), Byte2(w), Byte3(w), Byte0(w)) }

  /** What the previous word contributes to word c of row r + 1. */
  ghost function Mixed(temp: word, nk: nat, r: nat, c: nat): word {
    if c == 0 then Xor(SubWord(RotWord(temp)), Widen(Rcon(r)))
    else if nk > 6 && c == 4 then SubWord(temp)
    else temp
  }

  /** Word i of the schedule for a key of nk words. */
  ghost function KeyWord(key: seq<byte>, nk: nat, i: nat): word
    requires nk > 0 && 4 * nk <= |key|
    decreases i
  {
    if i < nk then LittleWord(key[4 * i], key[4 * i + 1], key[4 * i + 2], key[4 * i + 3])
    else
      Xor(KeyWord(key, nk, i - nk), Mixed(KeyWord(key, nk, i - 1), nk, i / nk - 1, i % nk))
  }

  lemma KeyWordAt(key: seq<byte>, nk: nat, i: nat, r: nat, c: nat)
    requires nk in {4, 6, 8} && 4 * nk <= |key| && c < nk && i == nk * r + nk + c
    ensures KeyWord(key, nk, i) == Xor(KeyWord(key, nk, i - nk), Mixed(KeyWord(key, nk, i - 1), nk, r, c))
  {
    hide Xor, SubWord, RotWord, Widen, Rcon;
    RowIndex(nk, r, c);
  }

  lemma RowStart(key: seq<byte>, nk: nat, r: nat)
    requires nk in {4, 6, 8} && 4 * nk <= |key|
    ensures KeyWord(key, nk, nk * r + nk)
         == Xor(Xor(KeyWord(key, nk, nk * r), Widen(Rcon(r))), SubWord(RotWord(KeyWord(key, nk, nk * r + nk - 1))))
  {
    hide Xor, SubWord, RotWord, Widen, Rcon, KeyWord;
    KeyWordAt(key, nk, nk * r + nk, r, 0);
    var first, rc := KeyWord(key, nk, nk * r), Widen(Rcon(r));
    var core := SubWord(RotWord(KeyWord(key, nk, nk * r + nk - 1)));
    XorComm(core, rc);
    XorAssoc(first, rc, core);
  }

  lemma RowIndex(nk: nat, r: nat, c: nat)
    requires nk in {4, 6, 8} && c < nk
    ensures (nk * r + nk + c) % nk == c && (nk * r + nk + c) / nk - 1 == r
  {
    if nk == 4 {} else if nk == 6 {} else {}
  }

  lemma RowNext(key: seq<byte>, nk: nat, r: nat, c: nat)
    requires nk in {4, 6, 8} && 4 * nk <= |key| && 0 < c < nk && !(nk > 6 && c == 4)
    ensures KeyWord(key, nk, nk * r + nk + c)
      == Xor(KeyWord(key, nk, nk * r + c), KeyWord(key, nk, nk * r + nk + c - 1))
  {
    hide Xor, SubWord, RotWord, Widen, Rcon, KeyWord;
    KeyWordAt(key, nk, nk * r + nk + c, r, c);
  }

  lemma RowMiddle(key: seq<byte>, r: nat)
    requires 32 <= |key|
    ensures KeyWord(key, 8, 8 * r + 12) == Xor(KeyWord(key, 8, 8 * r + 4), SubWord(KeyWord(key, 8, 8 * r + 11)))
  {
    hide Xor, SubWord, RotWord, Widen, Rcon, KeyWord;
    KeyWordAt(key, 8, 8 * r + 12, r, 4);
  }

  /** The FSb terms of a row start. */
  method Core(t: Tables, w: word) returns (v: word)
    requires t.Valid()
    ensures v == SubWord(RotWord(w))
  {
    hide Tables.Valid, LittleWord, Byte0, Byte1, Byte2, Byte3, Sub;
    v := SubColumn(t, Byte1(w), Byte2(w), Byte3(w), Byte0(w));
    LittleWordBytes(Byte1(w), Byte2(w), Byte3(w), Byte0(w));
  }

  method SubOfWord(t: Tables, w: word) returns (v: word)
    requires t.Valid()
    ensures v == SubWord(w)
  {
    hide Tables.Valid, LittleWord, Byte0, Byte1, Byte2, Byte3, Sub;
    v := SubColumn(t, Byte0(w), Byte1(w), Byte2(w), Byte3(w));
  }
}
