/** adler32.c in 32-bit unsigned arithmetic: that no sum wraps is checked at every operation on u32. */
module Adler32Code {
  import opened Words
  import opened Options
  import opened Adler32

  newtype u32 = x: int | 0 <= x < 0x1_0000_0000

  const BASE32: u32 := 65521

  /** The two 16-bit halves of a checksum. */
  function Halves(adler: u32): Sums { Sums(adler as int % 65536, adler as int / 65536) }

  /** x is what is left of a number after taking away k times BASE. */
  predicate Left(from: u32, a: u32, k: nat) { from as int == a as int + BASE * k }

  lemma LeftIsMod(from: u32, a: u32, k: nat)
    requires Left(from, a, k) && a < BASE32
    ensures a as int == from as int % BASE
  {
    ModWitness(from as int, a as int, k);
  }

  /** if (a >= (BASE << i)) a -= (BASE << i), with m = 1 << i */
  method TakeAway(a: u32, m: u32, ghost from: u32, ghost k: nat) returns (r: u32, ghost k1: nat)
    requires 1 <= m <= 65536 && Left(from, a, k) && a as int < 2 * BASE * m as int
    ensures Left(from, r, k1) && r as int < BASE * m as int
  {
    r, k1 := a, k;
    if r >= BASE32 * m {
      r := r - BASE32 * m;
      k1 := k + m as int;
    }
  }

  /** MOD under NO_DIVIDE */
  method ModChain(from: u32) returns (a: u32)
    ensures a as int == from as int % BASE
  {
    hide Left;
    StartLeft(from);
    ghost var k;
    a, k := TakeAway(from, 0x10000, from, 0);
    a, k := TakeAway(a, 0x8000, from, k);
    a, k := TakeAway(a, 0x4000, from, k);
    a, k := TakeAway(a, 0x2000, from, k);
    a, k := TakeAway(a, 0x1000, from, k);
    a, k := TakeAway(a, 0x800, from, k);
    a, k := TakeAway(a, 0x400, from, k);
    a, k := TakeAway(a, 0x200, from, k);
    a, k := TakeAway(a, 0x100, from, k);
    a, k := TakeAway(a, 0x80, from, k);
    a, k := TakeAway(a, 0x40, from, k);
    a, k := TakeAway(a, 0x20, from, k);
    a, k := TakeAway(a, 0x10, from, k);
    a, k := TakeAway(a, 8, from, k);
    a, k := TakeAway(a, 4, from, k);
    a, k := TakeAway(a, 2, from, k);
    a, k := TakeAway(a, 1, from, k);
    LeftIsMod(from, a, k);
  }

  lemma StartLeft(from: u32)
    ensures Left(from, from, 0)
  {}

  /** MOD4 under NO_DIVIDE: enough for numbers below 32 * BASE */
  method Mod4Chain(from: u32) returns (a: u32)
    requires from as int < 32 * BASE
    ensures a as int == from as int % BASE
  {
    hide Left;
    StartLeft(from);
    ghost var k;
    a, k := TakeAway(from, 0x10, from, 0);
    a, k := TakeAway(a, 8, from, k);
    a, k := TakeAway(a, 4, from, k);
    a, k := TakeAway(a, 2, from, k);
    a, k := TakeAway(a, 1, from, k);
    LeftIsMod(from, a, k);
  }

  method ModBase(a: u32, noDivide: bool) returns (r: u32)
    ensures r as int == a as int % BASE
  {
    if noDivide {
      r := ModChain(a);
    } else {
      r := a % BASE32;
    }
  }

  method Mod4Base(a: u32, noDivide: bool) returns (r: u32)
    requires a as int < 32 * BASE
    ensures r as int == a as int % BASE
  {
    if noDivide {
      r := Mod4Chain(a);
    } else {
      r := a % BASE32;
    }
  }

  function Pair(adler: u32, sum2: u32): Sums { Sums(adler as int, sum2 as int) }

  lemma RawNext(start: Sums, s: seq<byte>, i: nat)
    requires i < |s|
    ensures Raw(start, s[..i + 1]) == Next(Raw(start, s[..i]), Index(s[i]))
  {
    assert s[..i + 1][..i] == s[..i];
  }

  /** The plain summing loop over buf[from..to], which is also what the DO16 macros unroll to. */
  method AddBytes(adler0: u32, sum20: u32, buf: seq<byte>, from: nat, to: nat) returns (adler: u32, sum2: u32)
    requires from <= to <= |buf| && to - from <= NMAX && adler0 < 65536 && sum20 < 65536
    ensures Pair(adler, sum2) == Raw(Pair(adler0, sum20), buf[from..to])
  {
    hide Index, Raw, Next;
    ghost var start, s := Pair(adler0, sum20), buf[from..to];
    adler, sum2 := adler0, sum20;
    RawNone(start, s[..0]);
    for i := 0 to to - from
      invariant Pair(adler, sum2) == Raw(start, s[..i])
    {
      RawNext(start, s, i);
      BlockFits(start, s[..i + 1]);
      NextIs(Raw(start, s[..i]), Index(buf[from + i]));
      adler := adler + Index(buf[from + i]) as u32;
      sum2 := sum2 + adler;
    }
    assert s[..to - from] == s;
  }

  lemma RawNone(start: Sums, s: seq<byte>)
    requires s == []
    ensures Raw(start, s) == start
  {}

  lemma NextIs(s: Sums, v: nat)
    ensures Next(s, v).a == s.a + v && Next(s, v).b == s.b + (s.a + v)
  {}

  /** The checksum packed into 32 bits. */
  method Pack(adler: u32, sum2: u32) returns (r: u32)
    requires adler < 65536 && sum2 < 65536
    ensures Halves(r) == Pair(adler, sum2)
  {
    r := adler + sum2 * 65536;
  }

  /** len == 1: one conditional subtraction for each sum, which is enough for the first one and for a sum of sums below
      twice BASE. */
  method OneByte(adler0: u32, sum20: u32, b: byte) returns (r: u32)
    requires adler0 < 65536 && sum20 < 65536
    ensures var x := Adler(Pair(adler0, sum20), [b]);
      Halves(r).a == x.a && Halves(r).b % BASE == x.b && (Halves(r).b == x.b <==> sum20 as int + x.a < 2 * BASE)
  {
    OneAdler(Pair(adler0, sum20), b);
    hide Index;
    var adler := adler0 + Index(b) as u32;
    if adler >= BASE32 {
      adler := adler - BASE32;
    }
    var sum2 := sum20 + adler;
    if sum2 >= BASE32 {
      sum2 := sum2 - BASE32;
    }
    r := Pack(adler, sum2);
  }

  lemma OneAdler(start: Sums, b: byte)
    ensures Adler(start, [b]) == NextMod(start, Index(b))
  {
    assert [b][..0] == [];
  }

  /** len < 16: one conditional subtraction, and MOD4 for the sum of sums. */
  method Short(adler0: u32, sum20: u32, buf: seq<byte>, noDivide: bool) returns (r: u32)
    requires adler0 < 65536 && sum20 < 65536 && |buf| < 16
    ensures Halves(r) == Mod(Raw(Pair(adler0, sum20), buf))
  {
    hide Raw;
    ghost var start := Pair(adler0, sum20);
    var adler, sum2 := AddBytes(adler0, sum20, buf, 0, |buf|);
    assert buf[0..|buf|] == buf;
    ShortBound(start, buf);
    if adler >= BASE32 {
      adler := adler - BASE32;
    }
    sum2 := Mod4Base(sum2, noDivide);
    r := Pack(adler, sum2);
  }

  lemma ShortBound(start: Sums, s: seq<byte>)
    requires start.a < 65536 && start.b < 65536 && |s| < 16
    ensures Raw(start, s).a < 2 * BASE && Raw(start, s).b < 32 * BASE
  {
    hide Raw;
    RawBound(start, s);
    TriMono(|s|, 15);
    TriIs(15);
  }

  /** One block and its two reductions. */
  method Block(adler0: u32, sum20: u32, buf: seq<byte>, from: nat, to: nat, noDivide: bool)
    returns (adler: u32, sum2: u32)
    requires from <= to <= |buf| && to - from <= NMAX && adler0 < 65536 && sum20 < 65536
    ensures Reduced(Pair(adler, sum2)) && Pair(adler, sum2) == Mod(Raw(Pair(adler0, sum20), buf[from..to]))
  {
    hide Raw;
    adler, sum2 := AddBytes(adler0, sum20, buf, from, to);
    adler := ModBase(adler, noDivide);
    sum2 := ModBase(sum2, noDivide);
  }

  /** Once block by block, with reductions in between. */
  lemma BlockAppend(start: Sums, x: Sums, s: seq<byte>, t: seq<byte>)
    requires Mod(x) == Mod(Raw(start, s))
    ensures Mod(Raw(x, t)) == Mod(Raw(start, s + t))
  {
    hide Raw, Mod;
    RawAppend(start, s, t);
    RawOfMod(x, t);
    RawOfMod(Raw(start, s), t);
  }

  /** len >= 16: blocks of NMAX bytes, then the rest. */
  method Long(adler0: u32, sum20: u32, buf: seq<byte>, noDivide: bool) returns (r: u32)
    requires adler0 < 65536 && sum20 < 65536 && buf != []
    ensures Halves(r) == Mod(Raw(Pair(adler0, sum20), buf))
  {
    hide Raw, Mod;
    ghost var start := Pair(adler0, sum20);
    var adler, sum2, at := adler0, sum20, 0;
    RawNone(start, buf[..0]);
    while |buf| - at >= NMAX
      invariant at <= |buf| && adler < 65536 && sum2 < 65536 && Mod(Pair(adler, sum2)) == Mod(Raw(start, buf[..at]))
      invariant at > 0 ==> Reduced(Pair(adler, sum2))
    {
      BlockAppend(start, Pair(adler, sum2), buf[..at], buf[at..at + NMAX]);
      assert buf[..at] + buf[at..at + NMAX] == buf[..at + NMAX];
      adler, sum2 := Block(adler, sum2, buf, at, at + NMAX, noDivide);
      ModOfReduced(Pair(adler, sum2));
      at := at + NMAX;
    }
    if at < |buf| {
      BlockAppend(start, Pair(adler, sum2), buf[..at], buf[at..|buf|]);
      assert buf[..at] + buf[at..|buf|] == buf;
      adler, sum2 := Block(adler, sum2, buf, at, |buf|, noDivide);
    } else {
      assert buf[..at] == buf;
      ModOfReduced(Pair(adler, sum2));
    }
    r := Pack(adler, sum2);
  }

  /** When adler32 returns the checksum of the definition. */
  predicate Exact(start: Sums, s: seq<byte>) {
    if s == [] then Reduced(start) else |s| == 1 ==> start.b + (start.a + Index(s[0])) % BASE < 2 * BASE
  }

  /** adler32, for any starting value; buf is None for a null pointer, for which the length is not looked at unless
      it is 1. */
  method Checksum(adler0: u32, buf: Option<seq<byte>>, noDivide: bool) returns (r: u32)
    ensures buf.None? ==> r == 1
    ensures buf.Some? ==> Mod(Halves(r)) == Mod(Adler(Halves(adler0), buf.value))
    ensures buf.Some? ==> (Halves(r) == Adler(Halves(adler0), buf.value) <==> Exact(Halves(adler0), buf.value))
  {
    hide Adler, Raw, Index;
    var sum2 := adler0 / 65536;
    var adler := adler0 % 65536;
    if buf.None? {
      return 1;
    }
    var s := buf.value;
    ghost var start := Pair(adler, sum2);
    ModTwice(Raw(start, s));
    if |s| == 1 {
      assert s == [s[0]];
      r := OneByte(adler, sum2, s[0]);
      OneAdler(start, s[0]);
      OneMod(start, s[0], Halves(r));
    } else if |s| < 16 {
      r := Short(adler, sum2, s, noDivide);
      if s == [] {
        RawNone(start, s);
        AdlerNone(start, s);
        ModIsReduced(start);
      } else {
        AdlerIsRaw(start, s);
      }
    } else {
      r := Long(adler, sum2, s, noDivide);
      AdlerIsRaw(start, s);
    }
  }

  lemma OneMod(start: Sums, b: byte, r: Sums)
    requires var x := NextMod(start, Index(b)); r.a == x.a && r.b % BASE == x.b
    ensures Mod(r) == Mod(NextMod(start, Index(b)))
  {}

  lemma ModIsReduced(s: Sums)
    ensures Mod(s) == s <==> Reduced(s)
  {}

  lemma AdlerNone(start: Sums, s: seq<byte>)
    requires s == []
    ensures Adler(start, s) == start
  {}

  /** Two conditional subtractions reduce a sum below 3 * BASE. */
  method FoldThree(a: u32) returns (r: u32)
    requires a as int < 3 * BASE
    ensures r as int == a as int % BASE
  {
    r := a;
    if r >= BASE32 {
      r := r - BASE32;
    }
    if r >= BASE32 {
      r := r - BASE32;
    }
  }

  /** And one of twice BASE and one of BASE a sum below 4 * BASE. */
  method FoldFour(a: u32) returns (r: u32)
    requires a as int < 4 * BASE
    ensures r as int == a as int % BASE
  {
    r := a;
    if r >= BASE32 * 2 {
      r := r - BASE32 * 2;
    }
    if r >= BASE32 {
      r := r - BASE32;
    }
  }

  /** adler32_combine_: conditional subtractions alone reduce both sums. */
  method CombineChecksums(adler1: u32, adler2: u32, len2: nat, noDivide: bool) returns (r: u32)
    requires Reduced(Halves(adler1)) && Reduced(Halves(adler2))
    ensures Halves(r) == Combine(Halves(adler1), Halves(adler2), len2)
  {
    var rem := (len2 % BASE) as u32;
    var low1, high1 := adler1 % 65536, adler1 / 65536;
    var low2, high2 := adler2 % 65536, adler2 / 65536;
    ProductFits(rem as int, low1 as int);
    var product := ModBase(rem * low1, noDivide);
    var sum1 := FoldThree(low1 + low2 + BASE32 - 1);
    var sum2 := FoldFour(product + (high1 + high2 + BASE32 - rem));
    r := Pack(sum1, sum2);
  }

  lemma ProductFits(rem: nat, sum1: nat)
    requires rem < BASE && sum1 < BASE
    ensures rem * sum1 < LIMIT32
  {
    MulMono(rem, BASE, sum1);
  }

  lemma MulMono(x: nat, y: nat, z: nat)
    requires x <= y
    ensures x * z <= y * z
  {}

  /** The checksums of two buffers, combined, are the checksum of their concatenation. */
  method CombineLaw(adler0: u32, s: seq<byte>, t: seq<byte>, noDivide: bool) returns (r: u32)
    requires Reduced(Halves(adler0))
    ensures Halves(r) == Adler(Halves(adler0), s + t)
  {
    hide Adler, Combine;
    var x := Checksum(adler0, Some(s), noDivide);
    var y := Checksum(1, Some(t), noDivide);
    AdlerReduced(Halves(adler0), s);
    AdlerReduced(Sums(1, 0), t);
    r := CombineChecksums(x, y, |t|, noDivide);
    AdlerOfConcat(Halves(adler0), s, t);
  }

  lemma AdlerReduced(start: Sums, s: seq<byte>)
    requires Reduced(start)
    ensures Reduced(Adler(start, s))
  {
    AdlerIsRaw(start, s);
    hide Adler, Raw;
  }
}
