/** aes_gen_tables: the S-boxes of FIPS 197 and the tables that fuse them with the column mixing. */
module AesTables {
  import opened Words
  import opened Gf256

  // ----- the S-box of section 5.1.1 and its inverse of section 5.3.2

  function Rotl1(y: byte): byte { (y << 1) | (y >> 7) }

  /** The affine map, by the source's four rotations. */
  function Affine(x: byte): byte {
    var y1 := Rotl1(x);
    var y2 := Rotl1(y1);
    var y3 := Rotl1(y2);
    x ^ y1 ^ y2 ^ y3 ^ Rotl1(y3) ^ 0x63
  }

  function InvAffine(y: byte): byte {
    var y1 := Rotl1(y);
    var y3 := Rotl1(Rotl1(y1));
    y1 ^ y3 ^ Rotl1(Rotl1(Rotl1(y3))) ^ 0x05
  }

  lemma AffineInverse(x: byte)
    ensures InvAffine(Affine(x)) == x
  {}
  lemma AffineInverse2(x: byte)
    ensures Affine(InvAffine(x)) == x
  {}

  ghost function Sub(x: byte): byte { Affine(Inverse(x)) }
  ghost function InvSub(y: byte): byte { Inverse(InvAffine(y)) }

  lemma SubInverse(x: byte)
    ensures InvSub(Sub(x)) == x && Sub(InvSub(x)) == x
  {
    hide Affine, InvAffine, Inverse;
    AffineInverse(Inverse(x));
    AffineInverse2(x);
    InverseLaws(x);
    InverseLaws(InvAffine(x));
  }

  // ----- one byte's share of a mixed column (sections 5.1.3 and 5.3.3); row 0 is the low byte

  function Rotl8(w: word): word { (w << 8) | (w >> 24) }

  /** Row 0 byte s times column (2, 1, 1, 3); each further row rotates the column. */
  function Mix(k: nat, s: byte): word {
    if k == 0 then LittleWord(XTime(s), s, s, Add(XTime(s), s)) else Rotl8(Mix(k - 1, s))
  }

  /** The same for the inverse column (14, 9, 13, 11). */
  function InvMix(k: nat, s: byte): word {
    if k == 0 then LittleWord(Mul(0x0e, s), Mul(0x09, s), Mul(0x0d, s), Mul(0x0b, s)) else Rotl8(InvMix(k - 1, s))
  }

  /** Rcon of section 5.2, counted from 0. */
  function Rcon(i: nat): byte {
    if i == 0 then 1 else XTime(Rcon(i - 1))
  }

  // ----- the tables

  ghost predicate IsPow(pow: array<byte>)
    reads pow
  {
    pow.Length == 256 && forall i | 0 <= i < 256 :: pow[i] == Pow(i)
  }

  ghost predicate IsLog(log: array<nat>)
    reads log
  {
    log.Length == 256 && forall i | 1 <= i < 256 :: log[Index(Pow(i))] == i
  }

  lemma LogAt(log: array<nat>, x: byte)
    requires IsLog(log) && x != 0
    ensures log[Index(x)] == Log(x)
  {
    hide Index, Pow;
  }

  method PowLog() returns (pow: array<byte>, log: array<nat>)
    ensures fresh(pow) && fresh(log) && IsPow(pow) && IsLog(log)
  {
    hide Pow, Times3, Index;
    pow := new byte[256];
    log := new nat[256];
    var x: byte := 1;
    PowZero();
    for i := 0 to 256
      invariant x == Pow(i)
      invariant forall j | 0 <= j < i :: pow[j] == Pow(j)
      invariant forall j | 1 <= j < i :: log[Index(Pow(j))] == j
    {
      pow[i] := x;
      forall j | 1 <= j < i
        ensures Index(Pow(j)) != Index(x)
      {
        PowInjective(j, i);
        ByteAtIndex(Pow(j));
        ByteAtIndex(x);
      }
      log[Index(x)] := i;
      PowNext(i);
      x := Times3(x);
    }
  }

  lemma PowNext(i: nat)
    ensures Pow(i + 1) == Times3(Pow(i))
  {}

  /** MUL in the source. */
  method MulByTable(pow: array<byte>, log: array<nat>, x: byte, y: byte) returns (z: byte)
    requires IsPow(pow) && IsLog(log)
    ensures z == Mul(x, y)
  {
    hide Pow, Mul, Index;
    if x != 0 && y != 0 {
      LogAt(log, x);
      LogAt(log, y);
      z := pow[(log[Index(x)] + log[Index(y)]) % 255];
      MulByLogs(x, y);
    } else {
      z := 0;
      MulZeros(x, y);
    }
  }

  ghost predicate IsFSb(t: array<byte>)
    reads t
  {
    t.Length == 256 && forall i | 0 <= i < 256 :: t[i] == Sub(ByteAt(i))
  }

  ghost predicate IsRSb(t: array<byte>)
    reads t
  {
    t.Length == 256 && forall i | 0 <= i < 256 :: t[i] == InvSub(ByteAt(i))
  }

  method SBoxes(pow: array<byte>, log: array<nat>) returns (fsb: array<byte>, rsb: array<byte>)
    requires IsPow(pow) && IsLog(log)
    ensures fresh(fsb) && fresh(rsb) && fsb != rsb && IsFSb(fsb) && IsRSb(rsb)
  {
    hide Pow, Affine, Sub, InvSub, Index, ByteAt;
    fsb := new byte[256];
    rsb := new byte[256];
    SubZero();
    fsb[0x00] := 0x63;
    rsb[0x63] := 0x00;
    for i := 1 to 256
      invariant forall j | 0 <= j < i :: fsb[j] == Sub(ByteAt(j))
      invariant forall j | 0 <= j < i :: rsb[Index(Sub(ByteAt(j)))] == ByteAt(j)
    {
      var x := SBoxEntry(pow, log, i);
      fsb[i] := x;
      forall j | 0 <= j < i
        ensures Index(Sub(ByteAt(j))) != Index(x)
      {
        SubDistinct(j, i);
      }
      rsb[Index(x)] := ByteAt(i);
    }
    forall k | 0 <= k < 256
      ensures rsb[k] == InvSub(ByteAt(k))
    {
      SubHits(k);
    }
  }

  method SBoxEntry(pow: array<byte>, log: array<nat>, i: nat) returns (x: byte)
    requires IsPow(pow) && IsLog(log) && 0 < i < 256
    ensures x == Sub(ByteAt(i))
  {
    hide Pow, Affine, Sub, Index, ByteAt;
    var b := ByteAt(i);
    NonZeroByte(i);
    LogAt(log, b);
    IndexByteAt(i);
    x := pow[255 - log[i]];
    SubOfPow(b);
    x := Affine(x);
  }

  lemma SubDistinct(j: nat, i: nat)
    requires j < i < 256
    ensures Index(Sub(ByteAt(j))) != Index(Sub(ByteAt(i)))
  {
    hide Sub, InvSub, Index, ByteAt;
    ByteAtIndex(Sub(ByteAt(j)));
    ByteAtIndex(Sub(ByteAt(i)));
    SubInverse(ByteAt(j));
    SubInverse(ByteAt(i));
    IndexByteAt(j);
    IndexByteAt(i);
  }

  lemma SubHits(k: nat)
    requires k < 256
    ensures var j := Index(InvSub(ByteAt(k)));
      Index(Sub(ByteAt(j))) == k && ByteAt(j) == InvSub(ByteAt(k))
  {
    hide Sub, InvSub, Index, ByteAt;
    SubInverse(ByteAt(k));
    ByteAtIndex(InvSub(ByteAt(k)));
    IndexByteAt(k);
  }

  lemma NonZeroByte(i: nat)
    requires 0 < i < 256
    ensures ByteAt(i) != 0
  {
    IndexByteAt(i);
    hide ByteAt;
  }

  lemma SubZero()
    ensures Sub(ByteAt(0)) == 0x63 && ByteAt(0) == 0 && Index(0x63) == 0x63
  {
    AffineZero();
    hide Affine;
  }

  lemma AffineZero()
    ensures Affine(0) == 0x63
  {}

  lemma SubOfPow(x: byte)
    requires x != 0
    ensures Sub(x) == Affine(Pow(255 - Log(x)))
  {
    hide Affine, Pow;
  }

  /** The first n entries of FT0, FT1, FT2 or FT3. */
  ghost predicate IsFT(t: array<word>, k: nat, n: nat)
    reads t
    ensures IsFT(t, k, n) ==> t.Length == 256
  {
    t.Length == 256 && n <= 256 && forall i | 0 <= i < n :: t[i] == Mix(k, Sub(ByteAt(i)))
  }

  ghost predicate IsRT(t: array<word>, k: nat, n: nat)
    reads t
    ensures IsRT(t, k, n) ==> t.Length == 256
  {
    t.Length == 256 && n <= 256 && forall i | 0 <= i < n :: t[i] == InvMix(k, InvSub(ByteAt(i)))
  }

  method PutFT(t: array<word>, k: nat, i: nat, w: word)
    requires IsFT(t, k, i) && i < 256 && w == Mix(k, Sub(ByteAt(i)))
    modifies t
    ensures IsFT(t, k, i + 1) && t[i] == w
  {
    hide Mix, Sub, ByteAt;
    t[i] := w;
  }

  method PutRT(t: array<word>, k: nat, i: nat, w: word)
    requires IsRT(t, k, i) && i < 256 && w == InvMix(k, InvSub(ByteAt(i)))
    modifies t
    ensures IsRT(t, k, i + 1) && t[i] == w
  {
    hide InvMix, InvSub, ByteAt;
    t[i] := w;
  }

  ghost predicate IsFSbox(t: seq<byte>) {
    |t| == 256 && forall i | 0 <= i < 256 :: t[i] == Sub(ByteAt(i))
  }

  ghost predicate IsRSbox(t: seq<byte>) {
    |t| == 256 && forall i | 0 <= i < 256 :: t[i] == InvSub(ByteAt(i))
  }

  ghost predicate IsForward(t: seq<word>, k: nat) {
    |t| == 256 && forall i | 0 <= i < 256 :: t[i] == Mix(k, Sub(ByteAt(i)))
  }

  ghost predicate IsReverse(t: seq<word>, k: nat) {
    |t| == 256 && forall i | 0 <= i < 256 :: t[i] == InvMix(k, InvSub(ByteAt(i)))
  }

  /** The static tables; nothing writes them after aes_gen_tables. */
  datatype Tables = Tables(
    fsb: seq<byte>, rsb: seq<byte>,
    ft0: seq<word>, ft1: seq<word>, ft2: seq<word>, ft3: seq<word>,
    rt0: seq<word>, rt1: seq<word>, rt2: seq<word>, rt3: seq<word>,
    rcon: seq<word>)
  {
    ghost predicate Valid() {
      && IsFSbox(fsb) && IsRSbox(rsb)
      && IsForward(ft0, 0) && IsForward(ft1, 1) && IsForward(ft2, 2) && IsForward(ft3, 3)
      && IsReverse(rt0, 0) && IsReverse(rt1, 1) && IsReverse(rt2, 2) && IsReverse(rt3, 3)
      && |rcon| == 10 && forall i | 0 <= i < 10 :: rcon[i] == Widen(Rcon(i))
    }
  }

  /** aes_gen_tables */
  method GenTables() returns (t: Tables)
    ensures t.Valid()
  {
    hide Mix, InvMix, Sub, InvSub, ByteAt, Rcon, IsPow, IsLog;
    var pow, log := PowLog();
    var fsb, rsb := SBoxes(pow, log);
    var rcon := RoundConstants();
    var ft0, ft1, ft2, ft3 := ForwardTables(fsb);
    var rt0, rt1, rt2, rt3 := ReverseTables(pow, log, rsb);
    t := Tables(fsb[..], rsb[..], ft0[..], ft1[..], ft2[..], ft3[..], rt0[..], rt1[..], rt2[..], rt3[..], rcon[..]);
  }

  method RoundConstants() returns (rcon: array<word>)
    ensures fresh(rcon) && rcon.Length == 10 && forall i | 0 <= i < 10 :: rcon[i] == Widen(Rcon(i))
  {
    hide XTime, Widen;
    rcon := new word[10];
    var x: byte := 1;
    for i := 0 to 10
      invariant x == Rcon(i)
      invariant forall j | 0 <= j < i :: rcon[j] == Widen(Rcon(j))
    {
      rcon[i] := Widen(x);
      x := XTime(x);
    }
  }

  method ForwardTables(fsb: array<byte>)
    returns (ft0: array<word>, ft1: array<word>, ft2: array<word>, ft3: array<word>)
    requires IsFSb(fsb)
    ensures fresh(ft0) && fresh(ft1) && fresh(ft2) && fresh(ft3)
    ensures IsFT(ft0, 0, 256) && IsFT(ft1, 1, 256) && IsFT(ft2, 2, 256) && IsFT(ft3, 3, 256)
  {
    ft0 := new word[256];
    ft1 := new word[256];
    ft2 := new word[256];
    ft3 := new word[256];
    hide Mix, Sub, ByteAt, Rotl8, XTime, Add, LittleWord;
    assert IsFT(ft0, 0, 0) && IsFT(ft1, 1, 0) && IsFT(ft2, 2, 0) && IsFT(ft3, 3, 0);
    hide IsFT;
    for i := 0 to 256
      invariant IsFT(ft0, 0, i) && IsFT(ft1, 1, i) && IsFT(ft2, 2, i) && IsFT(ft3, 3, i)
    {
      var x := fsb[i];
      var y := XTime(x);
      var z := Add(y, x);
      MixSteps(x);
      PutFT(ft0, 0, i, LittleWord(y, x, x, z));
      PutFT(ft1, 1, i, Rotl8(ft0[i]));
      PutFT(ft2, 2, i, Rotl8(ft1[i]));
      PutFT(ft3, 3, i, Rotl8(ft2[i]));
    }
  }

  lemma MixSteps(s: byte)
    ensures Mix(0, s) == LittleWord(XTime(s), s, s, Add(XTime(s), s))
    ensures Mix(1, s) == Rotl8(Mix(0, s)) && Mix(2, s) == Rotl8(Mix(1, s)) && Mix(3, s) == Rotl8(Mix(2, s))
  {
    hide Rotl8, XTime, Add, LittleWord;
  }

  method InverseColumn(pow: array<byte>, log: array<nat>, x: byte) returns (w: word)
    requires IsPow(pow) && IsLog(log)
    ensures w == InvMix(0, x)
  {
    hide Mul, LittleWord, IsPow, IsLog;
    var e := MulByTable(pow, log, 0x0e, x);
    var n := MulByTable(pow, log, 0x09, x);
    var d := MulByTable(pow, log, 0x0d, x);
    var b := MulByTable(pow, log, 0x0b, x);
    w := LittleWord(e, n, d, b);
  }

  method ReverseTables(pow: array<byte>, log: array<nat>, rsb: array<byte>)
    returns (rt0: array<word>, rt1: array<word>, rt2: array<word>, rt3: array<word>)
    requires IsPow(pow) && IsLog(log) && IsRSb(rsb)
    ensures fresh(rt0) && fresh(rt1) && fresh(rt2) && fresh(rt3)
    ensures IsRT(rt0, 0, 256) && IsRT(rt1, 1, 256) && IsRT(rt2, 2, 256) && IsRT(rt3, 3, 256)
  {
    rt0 := new word[256];
    rt1 := new word[256];
    rt2 := new word[256];
    rt3 := new word[256];
    assert IsRT(rt0, 0, 0) && IsRT(rt1, 1, 0) && IsRT(rt2, 2, 0) && IsRT(rt3, 3, 0);
    hide *;
    for i := 0 to 256
      invariant IsRT(rt0, 0, i) && IsRT(rt1, 1, i) && IsRT(rt2, 2, i) && IsRT(rt3, 3, i)
    {
      ReverseRow(pow, log, rsb, rt0, rt1, rt2, rt3, i);
    }
  }

  method ReverseRow(pow: array<byte>, log: array<nat>, rsb: array<byte>,
                    rt0: array<word>, rt1: array<word>, rt2: array<word>, rt3: array<word>, i: nat)
    requires IsPow(pow) && IsLog(log) && IsRSb(rsb) && i < 256
    requires rt0 != rt1 && rt0 != rt2 && rt0 != rt3 && rt1 != rt2 && rt1 != rt3 && rt2 != rt3
    requires IsRT(rt0, 0, i) && IsRT(rt1, 1, i) && IsRT(rt2, 2, i) && IsRT(rt3, 3, i)
    modifies rt0, rt1, rt2, rt3
    ensures IsRT(rt0, 0, i + 1) && IsRT(rt1, 1, i + 1) && IsRT(rt2, 2, i + 1) && IsRT(rt3, 3, i + 1)
  {
    hide InvMix, InvSub, ByteAt, Rotl8, IsRT, IsPow, IsLog;
    InvMixSteps(rsb[i]);
    var column := InverseColumn(pow, log, rsb[i]);
    PutRT(rt0, 0, i, column);
    PutRT(rt1, 1, i, Rotl8(rt0[i]));
    PutRT(rt2, 2, i, Rotl8(rt1[i]));
    PutRT(rt3, 3, i, Rotl8(rt2[i]));
  }

  lemma InvMixSteps(s: byte)
    ensures InvMix(0, s) == LittleWord(Mul(0x0e, s), Mul(0x09, s), Mul(0x0d, s), Mul(0x0b, s))
    ensures InvMix(1, s) == Rotl8(InvMix(0, s)) && InvMix(2, s) == Rotl8(InvMix(1, s))
    ensures InvMix(3, s) == Rotl8(InvMix(2, s))
  {
    hide Rotl8, Mul, LittleWord;
  }
}
