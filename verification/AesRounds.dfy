/** The table look-ups of AES_FROUND and AES_RROUND are the rounds of the cipher. */
module AesRounds {
  import opened Words
  import opened Gf256
  import opened AesTables
  import opened AesCipher

  // ----- table look-ups against the column functions

  lemma MixByTables(b0: byte, b1: byte, b2: byte, b3: byte)
    ensures Xor(Xor(Mix(0, b0), Mix(1, b1)), Xor(Mix(2, b2), Mix(3, b3))) == MixColumn(LittleWord(b0, b1, b2, b3))
  {
    hide Xor, Byte0, Byte1, Byte2, Byte3, LittleWord, Mul, Add, Mix, Rotl8;
    LittleWordBytes(b0, b1, b2, b3);
    MixColumnOf(0, b0);
    MixColumnOf(1, b1);
    MixColumnOf(2, b2);
    MixColumnOf(3, b3);
    SumOfColumns(
      Mul(2, b0), Mul(1, b0), Mul(1, b0), Mul(3, b0), Mul(3, b1), Mul(2, b1), Mul(1, b1), Mul(1, b1),
      Mul(1, b2), Mul(3, b2), Mul(2, b2), Mul(1, b2), Mul(1, b3), Mul(1, b3), Mul(3, b3), Mul(2, b3));
  }

  lemma SumOfColumns(
      a0: byte, a1: byte, a2: byte, a3: byte, b0: byte, b1: byte, b2: byte, b3: byte,
      c0: byte, c1: byte, c2: byte, c3: byte, d0: byte, d1: byte, d2: byte, d3: byte)
    ensures Xor(Xor(LittleWord(a0, a1, a2, a3), LittleWord(b0, b1, b2, b3)),
                Xor(LittleWord(c0, c1, c2, c3), LittleWord(d0, d1, d2, d3)))
         == LittleWord(Add(Add(a0, b0), Add(c0, d0)), Add(Add(a1, b1), Add(c1, d1)),
                       Add(Add(a2, b2), Add(c2, d2)), Add(Add(a3, b3), Add(c3, d3)))
  {
    hide Xor, LittleWord, Add;
    LittleWordXor(a0, a1, a2, a3, b0, b1, b2, b3);
    LittleWordXor(c0, c1, c2, c3, d0, d1, d2, d3);
    LittleWordXor(Add(a0, b0), Add(a1, b1), Add(a2, b2), Add(a3, b3),
                  Add(c0, d0), Add(c1, d1), Add(c2, d2), Add(c3, d3));
  }

  lemma RotateColumn(a0: byte, a1: byte, a2: byte, a3: byte)
    ensures Rotl8(LittleWord(a0, a1, a2, a3)) == LittleWord(a3, a0, a1, a2)
  {}

  lemma MixColumnOf(k: nat, s: byte)
    requires k < 4
    ensures Mix(k, s) == match k
      case 0 => LittleWord(Mul(2, s), Mul(1, s), Mul(1, s), Mul(3, s))
      case 1 => LittleWord(Mul(3, s), Mul(2, s), Mul(1, s), Mul(1, s))
      case 2 => LittleWord(Mul(1, s), Mul(3, s), Mul(2, s), Mul(1, s))
      case _ => LittleWord(Mul(1, s), Mul(1, s), Mul(3, s), Mul(2, s))
  {
    hide LittleWord, Mul, Add, Mix, Rotl8, XTime;
    MixSteps(s);
    MulSmall(s);
    var e, m, t := Mul(2, s), Mul(1, s), Mul(3, s);
    RotateColumn(e, m, m, t);
    RotateColumn(t, e, m, m);
    RotateColumn(m, t, e, m);
  }

  lemma InvMixByTables(b0: byte, b1: byte, b2: byte, b3: byte)
    ensures Xor(Xor(InvMix(0, b0), InvMix(1, b1)), Xor(InvMix(2, b2), InvMix(3, b3)))
      == InvMixColumn(LittleWord(b0, b1, b2, b3))
  {
    hide Xor, Byte0, Byte1, Byte2, Byte3, LittleWord, Mul, Add, InvMix, Rotl8;
    LittleWordBytes(b0, b1, b2, b3);
    InvMixColumnOf(0, b0);
    InvMixColumnOf(1, b1);
    InvMixColumnOf(2, b2);
    InvMixColumnOf(3, b3);
    SumOfColumns(
      Mul(14, b0), Mul(9, b0), Mul(13, b0), Mul(11, b0), Mul(11, b1), Mul(14, b1), Mul(9, b1), Mul(13, b1),
      Mul(13, b2), Mul(11, b2), Mul(14, b2), Mul(9, b2), Mul(9, b3), Mul(13, b3), Mul(11, b3), Mul(14, b3));
  }

  lemma InvMixColumnOf(k: nat, s: byte)
    requires k < 4
    ensures InvMix(k, s) == match k
      case 0 => LittleWord(Mul(14, s), Mul(9, s), Mul(13, s), Mul(11, s))
      case 1 => LittleWord(Mul(11, s), Mul(14, s), Mul(9, s), Mul(13, s))
      case 2 => LittleWord(Mul(13, s), Mul(11, s), Mul(14, s), Mul(9, s))
      case _ => LittleWord(Mul(9, s), Mul(13, s), Mul(11, s), Mul(14, s))
  {
    hide LittleWord, Mul, InvMix, Rotl8;
    InvMixSteps(s);
    var e, n, d, b := Mul(14, s), Mul(9, s), Mul(13, s), Mul(11, s);
    RotateColumn(e, n, d, b);
    RotateColumn(b, e, n, d);
    RotateColumn(d, b, e, n);
  }

  lemma XorChain(k: word, a: word, b: word, c: word, d: word)
    ensures Xor(Xor(Xor(Xor(k, a), b), c), d) == Xor(k, Xor(Xor(a, b), Xor(c, d)))
  {
    hide Xor;
    XorAssoc(k, a, b);
    XorAssoc(Xor(k, Xor(a, b)), c, d);
    XorAssoc(k, Xor(a, b), Xor(c, d));
  }

  // ----- one output column of AES_FROUND, AES_RROUND and the final rounds

  ghost function FColumn(k: word, y0: word, y1: word, y2: word, y3: word): word {
    Xor(k, MixColumn(LittleWord(Sub(Byte0(y0)), Sub(Byte1(y1)), Sub(Byte2(y2)), Sub(Byte3(y3)))))
  }

  ghost function RColumn(k: word, y0: word, y1: word, y2: word, y3: word): word {
    Xor(k, InvMixColumn(LittleWord(InvSub(Byte0(y0)), InvSub(Byte1(y1)), InvSub(Byte2(y2)), InvSub(Byte3(y3)))))
  }

  method FSb(t: Tables, b: byte) returns (v: byte)
    requires t.Valid()
    ensures v == Sub(b)
  {
    hide Index, ByteAt, Sub, IsForward, IsReverse, IsRSbox;
    ByteAtIndex(b);
    v := t.fsb[Index(b)];
  }

  method RSb(t: Tables, b: byte) returns (v: byte)
    requires t.Valid()
    ensures v == InvSub(b)
  {
    hide Index, ByteAt, InvSub, IsForward, IsReverse, IsFSbox;
    ByteAtIndex(b);
    v := t.rsb[Index(b)];
  }

  lemma ForwardAt(t: seq<word>, k: nat, b: byte)
    requires IsForward(t, k)
    ensures |t| == 256 && t[Index(b)] == Mix(k, Sub(b))
  {
    hide Index, ByteAt, Sub, Mix;
    ByteAtIndex(b);
  }

  lemma ReverseAt(t: seq<word>, k: nat, b: byte)
    requires IsReverse(t, k)
    ensures |t| == 256 && t[Index(b)] == InvMix(k, InvSub(b))
  {
    hide Index, ByteAt, InvSub, InvMix;
    ByteAtIndex(b);
  }

  method FLookups(t: Tables, k: word, y0: word, y1: word, y2: word, y3: word) returns (x: word)
    requires t.Valid()
    ensures x == FColumn(k, y0, y1, y2, y3)
  {
    hide IsForward, IsReverse, IsFSbox, IsRSbox, Index, Sub, Mix, Xor, Byte0, Byte1, Byte2, Byte3, LittleWord,
         MixColumn;
    var b0, b1, b2, b3 := Byte0(y0), Byte1(y1), Byte2(y2), Byte3(y3);
    ForwardAt(t.ft0, 0, b0);
    ForwardAt(t.ft1, 1, b1);
    ForwardAt(t.ft2, 2, b2);
    ForwardAt(t.ft3, 3, b3);
    x := Xor(Xor(Xor(Xor(k, t.ft0[Index(b0)]), t.ft1[Index(b1)]), t.ft2[Index(b2)]), t.ft3[Index(b3)]);
    XorChain(k, Mix(0, Sub(b0)), Mix(1, Sub(b1)), Mix(2, Sub(b2)), Mix(3, Sub(b3)));
    MixByTables(Sub(b0), Sub(b1), Sub(b2), Sub(b3));
  }

  method RLookups(t: Tables, k: word, y0: word, y1: word, y2: word, y3: word) returns (x: word)
    requires t.Valid()
    ensures x == RColumn(k, y0, y1, y2, y3)
  {
    hide IsForward, IsReverse, IsFSbox, IsRSbox, Index, InvSub, InvMix, Xor, Byte0, Byte1, Byte2, Byte3, LittleWord,
         InvMixColumn;
    var b0, b1, b2, b3 := Byte0(y0), Byte1(y1), Byte2(y2), Byte3(y3);
    ReverseAt(t.rt0, 0, b0);
    ReverseAt(t.rt1, 1, b1);
    ReverseAt(t.rt2, 2, b2);
    ReverseAt(t.rt3, 3, b3);
    x := Xor(Xor(Xor(Xor(k, t.rt0[Index(b0)]), t.rt1[Index(b1)]), t.rt2[Index(b2)]), t.rt3[Index(b3)]);
    XorChain(k, InvMix(0, InvSub(b0)), InvMix(1, InvSub(b1)), InvMix(2, InvSub(b2)), InvMix(3, InvSub(b3)));
    InvMixByTables(InvSub(b0), InvSub(b1), InvSub(b2), InvSub(b3));
  }

  method SubColumn(t: Tables, b0: byte, b1: byte, b2: byte, b3: byte) returns (w: word)
    requires t.Valid()
    ensures w == LittleWord(Sub(b0), Sub(b1), Sub(b2), Sub(b3))
  {
    hide Tables.Valid, Sub, LittleWord;
    var s0 := FSb(t, b0);
    var s1 := FSb(t, b1);
    var s2 := FSb(t, b2);
    var s3 := FSb(t, b3);
    w := LittleWord(s0, s1, s2, s3);
  }

  method InvSubColumn(t: Tables, b0: byte, b1: byte, b2: byte, b3: byte) returns (w: word)
    requires t.Valid()
    ensures w == LittleWord(InvSub(b0), InvSub(b1), InvSub(b2), InvSub(b3))
  {
    hide Tables.Valid, InvSub, LittleWord;
    var s0 := RSb(t, b0);
    var s1 := RSb(t, b1);
    var s2 := RSb(t, b2);
    var s3 := RSb(t, b3);
    w := LittleWord(s0, s1, s2, s3);
  }

  // ----- whole rounds

  function KeyAt(w: seq<word>, at: nat): State
    requires at + 4 <= |w|
  {
    State(w[at], w[at + 1], w[at + 2], w[at + 3])
  }

  /** AES_FROUND */
  method FRound(t: Tables, k: State, y: State) returns (x: State)
    requires t.Valid()
    ensures x == Round(y, k)
  {
    hide Tables.Valid, FColumn, Round;
    var x0 := FLookups(t, k.x0, y.x0, y.x1, y.x2, y.x3);
    var x1 := FLookups(t, k.x1, y.x1, y.x2, y.x3, y.x0);
    var x2 := FLookups(t, k.x2, y.x2, y.x3, y.x0, y.x1);
    var x3 := FLookups(t, k.x3, y.x3, y.x0, y.x1, y.x2);
    x := State(x0, x1, x2, x3);
    RoundColumns(y, k);
  }

  lemma RoundColumns(y: State, k: State)
    ensures Round(y, k)
         == State(FColumn(k.x0, y.x0, y.x1, y.x2, y.x3), FColumn(k.x1, y.x1, y.x2, y.x3, y.x0),
                  FColumn(k.x2, y.x2, y.x3, y.x0, y.x1), FColumn(k.x3, y.x3, y.x0, y.x1, y.x2))
  {
    hide Sub, Xor, Byte0, Byte1, Byte2, Byte3, LittleWord, MixColumn;
    SubbedBytes(y.x0);
    SubbedBytes(y.x1);
    SubbedBytes(y.x2);
    SubbedBytes(y.x3);
  }

  lemma SubbedBytes(w: word)
    ensures Byte0(SubWord(w)) == Sub(Byte0(w)) && Byte1(SubWord(w)) == Sub(Byte1(w))
    ensures Byte2(SubWord(w)) == Sub(Byte2(w)) && Byte3(SubWord(w)) == Sub(Byte3(w))
  {
    hide Sub, Byte0, Byte1, Byte2, Byte3, LittleWord;
    LittleWordBytes(Sub(Byte0(w)), Sub(Byte1(w)), Sub(Byte2(w)), Sub(Byte3(w)));
  }

  method FFinal(t: Tables, k: State, y: State) returns (x: State)
    requires t.Valid()
    ensures x == FinalRound(y, k)
  {
    hide Tables.Valid, FinalRound, Sub, LittleWord, Xor, Byte0, Byte1, Byte2, Byte3;
    var s0 := SubColumn(t, Byte0(y.x0), Byte1(y.x1), Byte2(y.x2), Byte3(y.x3));
    var s1 := SubColumn(t, Byte0(y.x1), Byte1(y.x2), Byte2(y.x3), Byte3(y.x0));
    var s2 := SubColumn(t, Byte0(y.x2), Byte1(y.x3), Byte2(y.x0), Byte3(y.x1));
    var s3 := SubColumn(t, Byte0(y.x3), Byte1(y.x0), Byte2(y.x1), Byte3(y.x2));
    x := State(Xor(k.x0, s0), Xor(k.x1, s1), Xor(k.x2, s2), Xor(k.x3, s3));
    FinalColumns(y, k);
  }

  lemma FinalColumns(y: State, k: State)
    ensures FinalRound(y, k)
         == State(Xor(k.x0, LittleWord(Sub(Byte0(y.x0)), Sub(Byte1(y.x1)), Sub(Byte2(y.x2)), Sub(Byte3(y.x3)))),
                  Xor(k.x1, LittleWord(Sub(Byte0(y.x1)), Sub(Byte1(y.x2)), Sub(Byte2(y.x3)), Sub(Byte3(y.x0)))),
                  Xor(k.x2, LittleWord(Sub(Byte0(y.x2)), Sub(Byte1(y.x3)), Sub(Byte2(y.x0)), Sub(Byte3(y.x1)))),
                  Xor(k.x3, LittleWord(Sub(Byte0(y.x3)), Sub(Byte1(y.x0)), Sub(Byte2(y.x1)), Sub(Byte3(y.x2)))))
  {
    hide Sub, Xor, Byte0, Byte1, Byte2, Byte3, LittleWord;
    SubbedBytes(y.x0);
    SubbedBytes(y.x1);
    SubbedBytes(y.x2);
    SubbedBytes(y.x3);
  }

  /** AES_RROUND */
  method RRound(t: Tables, k: State, y: State) returns (x: State)
    requires t.Valid()
    ensures x == InvRound(y, k)
  {
    hide Tables.Valid, RColumn, InvRound;
    var x0 := RLookups(t, k.x0, y.x0, y.x3, y.x2, y.x1);
    var x1 := RLookups(t, k.x1, y.x1, y.x0, y.x3, y.x2);
    var x2 := RLookups(t, k.x2, y.x2, y.x1, y.x0, y.x3);
    var x3 := RLookups(t, k.x3, y.x3, y.x2, y.x1, y.x0);
    x := State(x0, x1, x2, x3);
    InvRoundColumns(y, k);
  }

  lemma InvRoundColumns(y: State, k: State)
    ensures InvRound(y, k)
         == State(RColumn(k.x0, y.x0, y.x3, y.x2, y.x1), RColumn(k.x1, y.x1, y.x0, y.x3, y.x2),
                  RColumn(k.x2, y.x2, y.x1, y.x0, y.x3), RColumn(k.x3, y.x3, y.x2, y.x1, y.x0))
  {
    hide InvSub, Xor, Byte0, Byte1, Byte2, Byte3, LittleWord, InvMixColumn;
    InvSubWordBytes(y.x0);
    InvSubWordBytes(y.x1);
    InvSubWordBytes(y.x2);
    InvSubWordBytes(y.x3);
  }

  method RFinal(t: Tables, k: State, y: State) returns (x: State)
    requires t.Valid()
    ensures x == InvFinalRound(y, k)
  {
    hide Tables.Valid, InvFinalRound, InvSub, LittleWord, Xor, Byte0, Byte1, Byte2, Byte3;
    var s0 := InvSubColumn(t, Byte0(y.x0), Byte1(y.x3), Byte2(y.x2), Byte3(y.x1));
    var s1 := InvSubColumn(t, Byte0(y.x1), Byte1(y.x0), Byte2(y.x3), Byte3(y.x2));
    var s2 := InvSubColumn(t, Byte0(y.x2), Byte1(y.x1), Byte2(y.x0), Byte3(y.x3));
    var s3 := InvSubColumn(t, Byte0(y.x3), Byte1(y.x2), Byte2(y.x1), Byte3(y.x0));
    x := State(Xor(k.x0, s0), Xor(k.x1, s1), Xor(k.x2, s2), Xor(k.x3, s3));
    InvFinalColumns(y, k);
  }

  lemma InvFinalColumns(y: State, k: State)
    ensures InvFinalRound(y, k)
         == State(Xor(k.x0, LittleWord(InvSub(Byte0(y.x0)), InvSub(Byte1(y.x3)), InvSub(Byte2(y.x2)),
                                       InvSub(Byte3(y.x1)))),
                  Xor(k.x1, LittleWord(InvSub(Byte0(y.x1)), InvSub(Byte1(y.x0)), InvSub(Byte2(y.x3)),
                                       InvSub(Byte3(y.x2)))),
                  Xor(k.x2, LittleWord(InvSub(Byte0(y.x2)), InvSub(Byte1(y.x1)), InvSub(Byte2(y.x0)),
                                       InvSub(Byte3(y.x3)))),
                  Xor(k.x3, LittleWord(InvSub(Byte0(y.x3)), InvSub(Byte1(y.x2)), InvSub(Byte2(y.x1)),
                                       InvSub(Byte3(y.x0)))))
  {
    hide InvSub, Xor, Byte0, Byte1, Byte2, Byte3, LittleWord;
    InvSubWordBytes(y.x0);
    InvSubWordBytes(y.x1);
    InvSubWordBytes(y.x2);
    InvSubWordBytes(y.x3);
  }

  /** The inverse mixing of a round-key word in aes_setkey_dec: RT undoes the S-box that FSb applies. */
  method InvMixLookups(t: Tables, w: word) returns (x: word)
    requires t.Valid()
    ensures x == InvMixColumn(w)
  {
    hide IsForward, IsReverse, IsFSbox, IsRSbox, Index, Sub, InvSub, InvMix, Xor, Byte0, Byte1, Byte2, Byte3,
         LittleWord, InvMixColumn;
    var b0, b1, b2, b3 := Byte0(w), Byte1(w), Byte2(w), Byte3(w);
    var s0 := FSb(t, b0);
    var s1 := FSb(t, b1);
    var s2 := FSb(t, b2);
    var s3 := FSb(t, b3);
    ReverseAt(t.rt0, 0, s0);
    ReverseAt(t.rt1, 1, s1);
    ReverseAt(t.rt2, 2, s2);
    ReverseAt(t.rt3, 3, s3);
    x := Xor(Xor(Xor(t.rt0[Index(s0)], t.rt1[Index(s1)]), t.rt2[Index(s2)]), t.rt3[Index(s3)]);
    SubInverse(b0);
    SubInverse(b1);
    SubInverse(b2);
    SubInverse(b3);
    XorAssoc(Xor(InvMix(0, b0), InvMix(1, b1)), InvMix(2, b2), InvMix(3, b3));
    InvMixByTables(b0, b1, b2, b3);
    WordOfBytes(w);
  }
}
