/** crc32_combine_(): a CRC is carried over n zero bytes by repeated squaring of GF(2) matrices. */
module Crc32Combine {
  import opened Words
  import opened Crc32

  const GF2_DIM: nat := 32

  /** The unit vectors the columns of a matrix stand for. */
  function Unit(k: nat): word {
    if k == 0 then 1 else Double(Unit(k - 1))
  }

  function Double(c: word): word { c << 1 }

  /** The matrix of the operator "n zero bits". */
  ghost predicate Operator(mat: seq<word>, n: nat) {
    |mat| == GF2_DIM && forall k | 0 <= k < GF2_DIM :: mat[k] == Zeros(n, Unit(k))
  }

  // ----- gf2_matrix_times

  function Lift(k: nat, v: word): word
    decreases k
  {
    if k == 0 then v else Lift(k - 1, Double(v))
  }

  function Lower(k: nat, v: word): word
    decreases k
  {
    if k == 0 then v else Lower(k - 1, Half(v))
  }

  lemma DoubleXor(x: word, y: word)
    ensures Double(Xor(x, y)) == Xor(Double(x), Double(y))
  {}

  lemma {:induction false} LiftXor(k: nat, x: word, y: word)
    ensures Lift(k, Xor(x, y)) == Xor(Lift(k, x), Lift(k, y))
    decreases k
  {
    hide Xor, Double;
    if k > 0 {
      DoubleXor(x, y);
      LiftXor(k - 1, Double(x), Double(y));
    }
  }

  lemma {:induction false} LiftDouble(k: nat, v: word)
    ensures Lift(k, Double(v)) == Double(Lift(k, v))
    decreases k
  {
    hide Double;
    if k > 0 {
      LiftDouble(k - 1, Double(v));
    }
  }

  lemma {:induction false} LiftOne(k: nat)
    ensures Lift(k, 1) == Unit(k)
  {
    hide Double;
    if k > 0 {
      LiftOne(k - 1);
      LiftDouble(k - 1, 1);
    }
  }

  lemma HalfParts(v: word)
    ensures v == Xor(if Odd(v) then 1 else 0, Double(Half(v)))
  {}

  lemma {:induction false} LiftZero(k: nat)
    ensures Lift(k, 0) == 0
  {
    if k > 0 {
      LiftZero(k - 1);
    }
  }

  lemma {:induction false} ZerosZero(n: nat)
    ensures Zeros(n, 0) == 0
    decreases n
  {
    if n > 0 {
      ZerosZero(n - 1);
    }
  }

  lemma LowerAll(v: word)
    ensures Lower(32, v) == 0
  {
    hide Half, Shr8;
    HalfEightTimes(v);
    LowerEight(v, 24);
    LowerEight(Shr8(v), 16);
    LowerEight(Shr8(Shr8(v)), 8);
    LowerEight(Shr8(Shr8(Shr8(v))), 0);
    ShiftedOut(v);
  }

  lemma ShiftedOut(v: word)
    ensures Shr8(Shr8(Shr8(Shr8(v)))) == 0
  {}

  lemma LowerEight(v: word, n: nat)
    ensures Lower(8 + n, v) == Lower(n, Shr8(v))
  {
    hide Half, Shr8;
    HalfEightTimes(v);
    var d := Half(Half(Half(Half(v))));
    calc {
      Lower(8 + n, v);
      Lower(6 + n, Half(Half(v)));
      Lower(4 + n, d);
      Lower(2 + n, Half(Half(d)));
      Lower(n, Half(Half(Half(Half(d)))));
    }
  }

  /** One turn of the loop: the low bit of v goes through column k. */
  lemma TimesStep(n: nat, k: nat, v: word)
    ensures Zeros(n, Lift(k, v)) == Xor(if Odd(v) then Zeros(n, Unit(k)) else 0, Zeros(n, Lift(k + 1, Half(v))))
  {
    hide Xor, Double, Half, Odd, Zeros;
    HalfParts(v);
    var low: word := if Odd(v) then 1 else 0;
    LiftXor(k, low, Double(Half(v)));
    ZerosXor(n, Lift(k, low), Lift(k, Double(Half(v))));
    LiftOne(k);
    LiftZero(k);
    ZerosZero(n);
  }

  method MatrixTimes(mat: array<word>, v: word, ghost n: nat) returns (sum: word)
    requires Operator(mat[..], n)
    ensures sum == Zeros(n, v)
  {
    hide Xor, Double, Half, Odd, Zeros;
    sum := 0;
    var vec, i := v, 0;
    XorZero(Zeros(n, v));
    LowerAll(v);
    while vec != 0
      invariant 0 <= i <= 32
      invariant Xor(sum, Zeros(n, Lift(i, vec))) == Zeros(n, v)
      invariant Lower(32 - i, vec) == 0
      decreases 32 - i
    {
      TimesStep(n, i, vec);
      var rest := Zeros(n, Lift(i + 1, Half(vec)));
      if Odd(vec) {
        XorAssoc(sum, mat[i], rest);
        sum := Xor(sum, mat[i]);
      } else {
        XorZero(rest);
      }
      vec, i := Half(vec), i + 1;
    }
    LiftZero(i);
    ZerosZero(n);
    XorZero(sum);
  }

  // ----- gf2_matrix_square

  method MatrixSquare(square: array<word>, mat: array<word>, ghost n: nat)
    requires square != mat && square.Length == GF2_DIM && Operator(mat[..], n)
    modifies square
    ensures Operator(square[..], 2 * n)
  {
    hide Zeros, Unit;
    for k := 0 to GF2_DIM
      invariant forall j | 0 <= j < k :: square[j] == Zeros(2 * n, Unit(j))
      invariant Operator(mat[..], n)
    {
      square[k] := MatrixTimes(mat, mat[k], n);
      ZerosAdd(n, n, Unit(k));
      assert mat[..][k] == Zeros(n, Unit(k));
    }
  }

  // ----- crc32_combine_

  /** The answer: crc1 carried over 8 zero bits for each byte of the second block. */
  function Combined(crc1: word, crc2: word, len2: int): word {
    if len2 <= 0 then crc1 else Xor(Zeros(8 * len2, crc1), crc2)
  }

  method OneZeroBit(odd: array<word>)
    requires odd.Length == GF2_DIM
    modifies odd
    ensures Operator(odd[..], 1)
  {
    hide Unit, Zeros, Double;
    odd[0] := 0xedb88320;
    var row: word := 1;
    UnitStep(0);
    UnitNext(0);
    for n := 1 to GF2_DIM
      invariant row == Unit(n - 1)
      invariant forall j | 0 <= j < n :: odd[j] == Zeros(1, Unit(j))
    {
      UnitStep(n);
      UnitNext(n - 1);
      odd[n] := row;
      row := Double(row);
    }
  }

  lemma UnitStep(k: nat)
    requires k < GF2_DIM
    ensures Zeros(1, Unit(k)) == if k == 0 then POLY else Unit(k - 1)
    ensures Unit(k + 1) == Double(Unit(k))
  {
    hide Xor, Double, Half, Odd, Unit, TopClear;
    UnitNext(k);
    ZerosOne(Unit(k));
    if k == 0 {
      BitStepOfOne();
    } else {
      UnitNext(k - 1);
      UnitTopClear(k - 1);
      HalfDouble(32 - k, Unit(k - 1));
    }
  }

  lemma UnitNext(k: nat)
    ensures Unit(0) == 1 && Unit(k + 1) == Double(Unit(k))
  {}

  lemma ZerosOne(c: word)
    ensures Zeros(1, c) == BitStep(c)
  {
    hide BitStep;
  }

  lemma BitStepOfOne()
    ensures BitStep(1) == POLY
  {}

  /** The top j bits. */
  function TopMask(j: nat): word {
    if j == 0 then 0 else (TopMask(j - 1) >> 1) | 0x80000000
  }

  predicate TopClear(j: nat, u: word) { u & TopMask(j) == 0 }

  lemma HalfDouble(j: nat, u: word)
    requires j > 0 && TopClear(j, u)
    ensures Half(Double(u)) == u && !Odd(Double(u)) && TopClear(j - 1, Double(u))
  {}

  lemma OneTopClear()
    ensures TopClear(31, 1)
  {
    assert TopMask(8) == 0xff000000;
    assert TopMask(16) == 0xffff0000;
    assert TopMask(24) == 0xffffff00;
    assert TopMask(31) == 0xfffffffe;
  }

  lemma {:induction false} UnitTopClear(k: nat)
    requires k < 32
    ensures TopClear(31 - k, Unit(k))
  {
    hide TopClear, Double;
    if k == 0 {
      OneTopClear();
    } else {
      UnitTopClear(k - 1);
      HalfDouble(32 - k, Unit(k - 1));
    }
  }

  method Crc32CombineOf(crc1: word, crc2: word, len2: int) returns (crc: word)
    ensures crc == Combined(crc1, crc2, len2)
  {
    hide Xor, Zeros, Operator;
    if len2 <= 0 {
      return crc1;
    }
    var even := new word[GF2_DIM];
    var odd := new word[GF2_DIM];
    OneZeroBit(odd);
    MatrixSquare(even, odd, 1);
    MatrixSquare(odd, even, 2);
    crc := crc1;
    var len := len2;
    ghost var q: nat := 4;
    while true
      invariant len > 0 && Operator(odd[..], q)
      invariant Zeros(2 * q * len, crc) == Zeros(8 * len2, crc1)
      decreases len
    {
      MatrixSquare(even, odd, q);
      HalveLength(2 * q, len, crc);
      if len % 2 == 1 {
        crc := MatrixTimes(even, crc, 2 * q);
      }
      len := len / 2;
      if len == 0 {
        break;
      }
      MatrixSquare(odd, even, 2 * q);
      HalveLength(4 * q, len, crc);
      if len % 2 == 1 {
        crc := MatrixTimes(odd, crc, 4 * q);
      }
      len := len / 2;
      q := 4 * q;
      if len == 0 {
        break;
      }
    }
    crc := Xor(crc, crc2);
  }

  /** Moving the lowest bit of the length into the checksum. */
  lemma HalveLength(q: nat, len: nat, crc: word)
    ensures Zeros(q * len, crc) == Zeros(2 * q * (len / 2), if len % 2 == 1 then Zeros(q, crc) else crc)
  {
    hide Zeros;
    if len % 2 == 1 {
      assert q * len == q + 2 * q * (len / 2);
      ZerosAdd(q, 2 * q * (len / 2), crc);
    } else {
      assert q * len == 2 * q * (len / 2);
    }
  }

  // ----- the law the source promises

  lemma {:induction false} RegisterXor(c: word, d: word, bytes: seq<byte>)
    ensures Register(Xor(c, d), bytes) == Xor(Zeros(8 * |bytes|, c), Register(d, bytes))
    decreases |bytes|
  {
    hide Xor, Zeros, Widen;
    if bytes == [] {
      ZerosEmpty(c);
    } else {
      var b, rest := bytes[0], bytes[1..];
      calc {
        Feed(Xor(c, d), b);
        { XorAssoc(c, d, Widen(b)); }
        Zeros(8, Xor(c, Xor(d, Widen(b))));
        { ZerosXor(8, c, Xor(d, Widen(b))); }
        Xor(Zeros(8, c), Feed(d, b));
      }
      RegisterXor(Zeros(8, c), Feed(d, b), rest);
      ZerosAdd(8, 8 * |rest|, c);
    }
  }

  lemma ZerosEmpty(c: word)
    ensures Zeros(0, c) == c
  {}

  lemma {:induction false} RegisterConcat(c: word, a: seq<byte>, b: seq<byte>)
    ensures Register(c, a + b) == Register(Register(c, a), b)
    decreases |a|
  {
    hide Feed;
    if a == [] {
      assert a + b == b;
    } else {
      assert (a + b)[1..] == a[1..] + b;
      RegisterConcat(Feed(c, a[0]), a[1..], b);
    }
  }

  /** Combining the checksum of a first block with the checksum of a second block on its own. */
  lemma CombineExtends(crc: word, bytes: seq<byte>)
    ensures Combined(crc, Crc(0, bytes), |bytes|) == Crc(crc, bytes)
  {
    hide Xor, Not, Zeros, Register;
    var ones := 0xffffffff;
    NotIsXor(crc);
    NotIsXor(0);
    XorZero(ones);
    RegisterXor(crc, ones, bytes);
    var z, r := Zeros(8 * |bytes|, crc), Register(ones, bytes);
    NotIsXor(Xor(z, r));
    NotIsXor(r);
    XorAssoc(z, r, ones);
    if bytes == [] {
      ZerosEmpty(crc);
      RegisterEmpty(ones);
      RegisterEmpty(Not(crc));
    }
  }

  lemma RegisterEmpty(c: word)
    ensures Register(c, []) == c
  {}

  lemma CombineConcat(crc: word, a: seq<byte>, b: seq<byte>)
    ensures Combined(Crc(crc, a), Crc(0, b), |b|) == Crc(crc, a + b)
  {
    hide Not, Register, Combined;
    CombineExtends(Crc(crc, a), b);
    NotIsXor(Register(Not(crc), a));
    RegisterConcat(Not(crc), a, b);
  }
}
