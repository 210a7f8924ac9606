/** Arithmetic in GF(2^8) (section 4.2 of FIPS 197) and the discrete logarithm to base 3 behind the AES tables. */
module Gf256 {
  import opened Words

  function Add(x: byte, y: byte): byte { x ^ y }

  predicate TopBit(x: byte) { x & 0x80 != 0 }
  function Shl(x: byte): byte { x << 1 }

  /** Multiplication by x, XTIME in the source. */
  function XTime(x: byte): byte {
    Add(Shl(x), if TopBit(x) then 0x1b else 0)
  }

  predicate LowBit(y: byte) { y & 1 == 1 }
  function Rest(y: byte): byte { y >> 1 }

  function MulBits(n: nat, x: byte, y: byte): byte
    decreases n
  {
    if n == 0 then 0
    else Add(if LowBit(y) then x else 0, MulBits(n - 1, XTime(x), Rest(y)))
  }

  function Mul(x: byte, y: byte): byte { MulBits(8, x, y) }

  function Times3(x: byte): byte { Add(x, XTime(x)) }

  /** Powers of the generator 3. */
  function Pow(n: nat): byte {
    if n == 0 then 1 else Times3(Pow(n - 1))
  }

  lemma AddLaws(x: byte, y: byte, z: byte)
    ensures Add(x, y) == Add(y, x) && Add(Add(x, y), z) == Add(x, Add(y, z))
    ensures Add(x, 0) == x && Add(0, x) == x && Add(x, x) == 0
  {}

  lemma AddSwap(a: byte, b: byte, c: byte, d: byte)
    ensures Add(Add(a, b), Add(c, d)) == Add(Add(a, c), Add(b, d))
  {
    hide Add;
    AddLaws(a, b, Add(c, d));
    AddLaws(b, c, d);
    AddLaws(c, b, d);
    AddLaws(a, c, Add(b, d));
  }

  lemma XTimeAdd(x: byte, y: byte)
    ensures XTime(Add(x, y)) == Add(XTime(x), XTime(y))
  {
    hide Add, Shl, TopBit;
    ShlAdd(x, y);
    TopBitAdd(x, y);
    var px: byte, py: byte := if TopBit(x) then 0x1b else 0, if TopBit(y) then 0x1b else 0;
    AddSwap(Shl(x), Shl(y), px, py);
    AddLaws(0x1b, 0, 0);
    AddLaws(0, 0, 0);
  }

  lemma ShlAdd(x: byte, y: byte)
    ensures Shl(Add(x, y)) == Add(Shl(x), Shl(y))
  {}

  lemma TopBitAdd(x: byte, y: byte)
    ensures TopBit(Add(x, y)) <==> TopBit(x) != TopBit(y)
  {}

  lemma XTimeZero()
    ensures XTime(0) == 0
  {}

  lemma {:induction false} MulXTime(n: nat, x: byte, y: byte)
    ensures MulBits(n, XTime(x), y) == XTime(MulBits(n, x, y))
    decreases n
  {
    hide Add, XTime, LowBit, Rest;
    XTimeZero();
    if n > 0 {
      MulXTime(n - 1, XTime(x), Rest(y));
      XTimeAdd(if LowBit(y) then x else 0, MulBits(n - 1, XTime(x), Rest(y)));
    }
  }

  lemma {:induction false} MulAddLeft(n: nat, x: byte, z: byte, y: byte)
    ensures MulBits(n, Add(x, z), y) == Add(MulBits(n, x, y), MulBits(n, z, y))
    decreases n
  {
    hide Add, XTime, LowBit, Rest;
    if n == 0 {
      AddLaws(0, 0, 0);
    } else {
      XTimeAdd(x, z);
      var x', z', y' := XTime(x), XTime(z), Rest(y);
      MulAddLeft(n - 1, x', z', y');
      var px: byte, pz: byte := if LowBit(y) then x else 0, if LowBit(y) then z else 0;
      AddSwap(px, pz, MulBits(n - 1, x', y'), MulBits(n - 1, z', y'));
      AddLaws(0, 0, 0);
    }
  }

  lemma MulTimes3(x: byte, y: byte)
    ensures Mul(Times3(x), y) == Times3(Mul(x, y))
  {
    hide Add, XTime, MulBits;
    MulAddLeft(8, x, XTime(x), y);
    MulXTime(8, x, y);
  }

  lemma MulOne(y: byte)
    ensures Mul(1, y) == y
  {
    PowersOfX();
    SumOfBits(y);
    hide Add, XTime, LowBit, Rest;
    var y1 := Rest(y);
    var y2 := Rest(y1);
    var y3 := Rest(y2);
    var y4 := Rest(y3);
    var y5 := Rest(y4);
    var y6 := Rest(y5);
    calc {
      MulBits(8, 1, y);
      Add(Bit(y, 1), Add(Bit(y1, 2), MulBits(6, 4, y2)));
      Add(Bit(y, 1), Add(Bit(y1, 2), Add(Bit(y2, 4), Add(Bit(y3, 8), MulBits(4, 16, y4)))));
      Add(Bit(y, 1), Add(Bit(y1, 2), Add(Bit(y2, 4), Add(Bit(y3, 8),
        Add(Bit(y4, 16), Add(Bit(y5, 32), MulBits(2, 64, y6)))))));
    }
  }

  function Bit(y: byte, value: byte): byte {
    if LowBit(y) then value else 0
  }

  lemma PowersOfX()
    ensures XTime(1) == 2 && XTime(2) == 4 && XTime(4) == 8 && XTime(8) == 16
    ensures XTime(16) == 32 && XTime(32) == 64 && XTime(64) == 128
  {}

  lemma SumOfBits(y: byte)
    ensures var y2 := Rest(Rest(y)); var y4 := Rest(Rest(y2)); var y6 := Rest(Rest(y4));
      y == Add(Bit(y, 1), Add(Bit(Rest(y), 2), Add(Bit(y2, 4), Add(Bit(Rest(y2), 8),
           Add(Bit(y4, 16), Add(Bit(Rest(y4), 32), Add(Bit(y6, 64), Add(Bit(Rest(y6), 128), 0))))))))
  {}

  lemma {:induction false} PowAdd(m: nat, n: nat)
    ensures Mul(Pow(m), Pow(n)) == Pow(m + n)
  {
    hide Mul, Times3;
    if m == 0 {
      MulOne(Pow(n));
    } else {
      PowAdd(m - 1, n);
      MulTimes3(Pow(m - 1), Pow(n));
    }
  }

  // ----- 3 has order 255

  lemma SmallPowers()
    ensures Pow(1) == 0x03 && Pow(2) == 0x05 && Pow(3) == 0x0f && Pow(5) == 0x33
  {}

  lemma PowValues()
    ensures Pow(1) != 1 && Pow(3) != 1 && Pow(5) != 1 && Pow(15) != 1 && Pow(17) != 1 && Pow(51) != 1 && Pow(85) != 1
    ensures Pow(255) == 1
  {
    SmallPowers();
    Products();
    hide Mul, Pow;
    PowAdd(5, 5);
    PowAdd(10, 5);
    PowAdd(15, 2);
    PowAdd(17, 17);
    PowAdd(34, 17);
    PowAdd(51, 34);
    PowAdd(85, 85);
    PowAdd(170, 85);
  }

  lemma Products()
    ensures Mul(0x33, 0x33) == 0x72 && Mul(0x72, 0x33) == 0x35 && Mul(0x35, 0x05) == 0xe1
    ensures Mul(0xe1, 0xe1) == 0x5c && Mul(0x5c, 0xe1) == 0x0c && Mul(0x0c, 0x5c) == 0xbd
    ensures Mul(0xbd, 0xbd) == 0xbc && Mul(0xbc, 0xbd) == 0x01
    {}

  lemma DivisorsOf255(r: nat, q: nat)
    requires r * q == 255 && r < 255
    ensures r in {1, 3, 5, 15, 17, 51, 85}
  {
    if q > 15 && r > 15 {
      ProductAtLeast(r, q);
    } else if q <= 15 {
      assert q in {0, 1, 2, 3, 4, 5, 6, 7, 8, 9, 10, 11, 12, 13, 14, 15};
    } else {
      assert r in {0, 1, 2, 3, 4, 5, 6, 7, 8, 9, 10, 11, 12, 13, 14, 15};
    }
  }

  lemma ProductAtLeast(r: nat, q: nat)
    requires r >= 16 && q >= 16
    ensures r * q >= 256
  {}

  lemma {:induction false} PowMultiple(d: nat, q: nat)
    requires Pow(d) == 1
    ensures Pow(d * q) == 1
  {
    hide Mul, Times3;
    if q == 0 {
      PowZero();
    } else {
      PowMultiple(d, q - 1);
      assert d * q == d + d * (q - 1);
      PowAdd(d, d * (q - 1));
      MulOne(1);
    }
  }

  lemma PowZero()
    ensures Pow(0) == 1
  {}

  /** Euclid's algorithm on 255 and a period d finds a period that divides 255. */
  lemma {:induction false} NoShortPeriod(d: nat)
    requires 0 < d < 255
    ensures Pow(d) != 1
    decreases d
  {
    hide Pow, Mul;
    if Pow(d) == 1 {
      PowValues();
      var q, r := 255 / d, 255 % d;
      if r == 0 {
        DivisorsOf255(d, q);
      } else {
        PowMultiple(d, q);
        PowAdd(d * q, r);
        MulOne(Pow(r));
        NoShortPeriod(r);
      }
    }
  }

  // ----- so the powers run through every non-zero byte exactly once

  lemma {:induction false} MulZero(n: nat, x: byte)
    ensures MulBits(n, x, 0) == 0
    decreases n
  {
    if n > 0 {
      MulZero(n - 1, XTime(x));
    }
  }

  lemma PowNonZero(i: nat)
    requires i <= 255
    ensures Pow(i) != 0
  {
    hide Pow, MulBits;
    PowAdd(255 - i, i);
    PowValues();
    MulZero(8, Pow(255 - i));
  }

  lemma PowInjective(i: nat, j: nat)
    requires i < j <= i + 254 && j <= 255
    ensures Pow(i) != Pow(j)
  {
    hide Pow, Mul;
    PowValues();
    PowAdd(255 - i, i);
    PowAdd(255 - i, j);
    PowAdd(255, j - i);
    MulOne(Pow(j - i));
    NoShortPeriod(j - i);
  }

  ghost function Powers(n: nat): set<int> {
    set k | 1 <= k <= n :: Pow(k) as int
  }

  lemma {:induction false} CountPowers(n: nat)
    requires n <= 255
    ensures |Powers(n)| == n
  {
    hide Pow;
    if n == 0 {
      assert Powers(0) == {};
    } else {
      CountPowers(n - 1);
      assert Powers(n) == Powers(n - 1) + {Pow(n) as int};
      if Pow(n) as int in Powers(n - 1) {
        var k :| 1 <= k <= n - 1 && Pow(k) as int == Pow(n) as int;
        ByteIndex(Pow(k));
        ByteIndex(Pow(n));
        PowInjective(k, n);
      }
    }
  }

  ghost function UpTo(n: nat): (s: set<int>)
    ensures |s| == n && forall i :: i in s <==> 1 <= i <= n
  {
    if n == 0 then {} else UpTo(n - 1) + {n}
  }

  lemma SubsetOfSameSize<T>(a: set<T>, b: set<T>)
    requires a <= b && |a| == |b|
    ensures a == b
  {
    assert b == a + (b - a);
  }

  lemma LogExists(x: byte)
    requires x != 0
    ensures exists k :: 1 <= k <= 255 && Pow(k) == x
  {
    hide Pow;
    var all := UpTo(255);
    forall v | v in Powers(255)
      ensures v in all
    {
      var k :| 1 <= k <= 255 && Pow(k) as int == v;
      PowNonZero(k);
      ByteIndex(Pow(k));
    }
    CountPowers(255);
    SubsetOfSameSize(Powers(255), all);
    ByteIndex(x);
    assert x as int in all;
    var k :| 1 <= k <= 255 && Pow(k) as int == x as int;
    ByteIndex(Pow(k));
  }

  ghost function Log(x: byte): (k: nat)
    requires x != 0
    ensures 1 <= k <= 255 && Pow(k) == x
  {
    LogExists(x);
    var k :| 1 <= k <= 255 && Pow(k) == x;
    k
  }

  lemma LogOfPow(i: nat)
    requires 1 <= i <= 255
    ensures Pow(i) != 0 && Log(Pow(i)) == i
  {
    hide Pow, Mul;
    PowNonZero(i);
    var k := Log(Pow(i));
    if k < i {
      PowInjective(k, i);
    } else if i < k {
      PowInjective(i, k);
    }
  }

  /** The multiplicative inverse, with 0 sent to 0. */
  ghost function Inverse(x: byte): byte {
    if x == 0 then 0 else Pow(255 - Log(x))
  }

  lemma InverseLaws(x: byte)
    ensures x != 0 ==> Mul(x, Inverse(x)) == 1
    ensures Inverse(Inverse(x)) == x
  {
    hide Pow, Mul;
    if x != 0 {
      var k := Log(x);
      PowAdd(k, 255 - k);
      PowValues();
      PowNonZero(255 - k);
      PowZeroIsFull();
      LogOfPow(255);
      if k < 255 {
        LogOfPow(255 - k);
      }
    }
  }

  lemma PowZeroIsFull()
    ensures Pow(0) == 1 == Pow(255)
  {
    PowZero();
    hide Pow;
    PowValues();
  }

  /** Table multiplication, MUL in the source. */
  lemma MulByLogs(x: byte, y: byte)
    requires x != 0 && y != 0
    ensures Mul(x, y) == Pow((Log(x) + Log(y)) % 255)
  {
    hide Pow, Mul;
    var n := Log(x) + Log(y);
    PowAdd(Log(x), Log(y));
    PowReduce(n);
  }

  lemma {:induction false} PowReduce(n: nat)
    ensures Pow(n) == Pow(n % 255)
  {
    hide Pow, Mul;
    if n >= 255 {
      PowReduce(n - 255);
      PowAdd(255, n - 255);
      PowValues();
      MulOne(Pow(n - 255));
    }
  }

  // ----- the field laws the ciphers use

  lemma {:induction false} ZeroTimes(n: nat, y: byte)
    ensures MulBits(n, 0, y) == 0
    decreases n
  {
    hide XTime, Rest;
    XTimeZero();
    if n > 0 {
      ZeroTimes(n - 1, Rest(y));
    }
  }

  lemma MulZeros(x: byte, y: byte)
    ensures Mul(x, 0) == 0 && Mul(0, y) == 0
  {
    hide MulBits;
    MulZero(8, x);
    ZeroTimes(8, y);
  }

  lemma MulComm(x: byte, y: byte)
    ensures Mul(x, y) == Mul(y, x)
  {
    hide Mul, Pow;
    if x == 0 || y == 0 {
      MulZeros(x, y);
      MulZeros(y, x);
    } else {
      PowAdd(Log(x), Log(y));
      PowAdd(Log(y), Log(x));
    }
  }

  lemma MulAssoc(x: byte, y: byte, z: byte)
    ensures Mul(Mul(x, y), z) == Mul(x, Mul(y, z))
  {
    hide Mul, Pow;
    if x == 0 || y == 0 || z == 0 {
      MulZeros(x, y);
      MulZeros(x, z);
      MulZeros(y, z);
      MulZeros(Mul(x, y), Mul(y, z));
    } else {
      var i, j, k := Log(x), Log(y), Log(z);
      PowAdd(i, j);
      PowAdd(j, k);
      PowAdd(i + j, k);
      PowAdd(i, j + k);
    }
  }

  lemma MulAdd(x: byte, z: byte, y: byte)
    ensures Mul(Add(x, z), y) == Add(Mul(x, y), Mul(z, y))
    ensures Mul(y, Add(x, z)) == Add(Mul(y, x), Mul(y, z))
  {
    hide Add, MulBits;
    MulAddLeft(8, x, z, y);
    MulComm(Add(x, z), y);
    MulComm(x, y);
    MulComm(z, y);
  }

  lemma MulSmall(s: byte)
    ensures Mul(1, s) == s && Mul(2, s) == XTime(s) && Mul(3, s) == Add(XTime(s), s)
  {
    hide XTime, Add;
    MulOne(s);
    assert XTime(1) == 2 by { PowersOfX(); }
    MulXTime(8, 1, s);
    assert Add(2, 1) == 3 by { TwoAndOne(); }
    MulAdd(2, 1, s);
  }

  lemma TwoAndOne()
    ensures Add(2, 1) == 3
  {}
}
