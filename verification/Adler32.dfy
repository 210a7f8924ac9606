/** The Adler-32 checksum: section 2.2 of RFC 1950 (byte by byte, modulo 65521 each time), and the sums behind it. */
module Adler32 {
  import opened Words

  const BASE: nat := 65521

  datatype Sums = Sums(a: nat, b: nat)

  predicate Reduced(s: Sums) { s.a < BASE && s.b < BASE }

  function Mod(s: Sums): Sums { Sums(s.a % BASE, s.b % BASE) }

  function Next(s: Sums, v: nat): Sums { Sums(s.a + v, s.b + (s.a + v)) }

  function NextMod(s: Sums, v: nat): Sums {
    var a := (s.a + v) % BASE;
    Sums(a, (s.b + a) % BASE)
  }

  /** The definition: both sums are reduced at every byte. */
  function Adler(start: Sums, s: seq<byte>): Sums
    decreases |s|
  {
    if s == [] then start else NextMod(Adler(start, s[..|s| - 1]), Index(s[|s| - 1]))
  }

  /** The sums without any reduction. */
  function Raw(start: Sums, s: seq<byte>): Sums
    decreases |s|
  {
    if s == [] then start else Next(Raw(start, s[..|s| - 1]), Index(s[|s| - 1]))
  }

  lemma ModAdd(x: nat, y: nat)
    ensures (x % BASE + y) % BASE == (x + y) % BASE
  {}

  lemma ModOfReduced(s: Sums)
    requires Reduced(s)
    ensures Mod(s) == s
  {}

  lemma ModTwice(s: Sums)
    ensures Mod(Mod(s)) == Mod(s)
  {}

  /** One byte more, with or without reducing what went before. */
  lemma ModNext(s: Sums, v: nat)
    ensures NextMod(Mod(s), v) == Mod(Next(s, v))
  {
    ModAdd(s.a, v);
    ModSum(s.b, s.a + v);
  }

  lemma NextModIs(s: Sums, v: nat)
    ensures NextMod(s, v) == Mod(Next(s, v))
  {
    ModAdd(s.a + v, s.b);
  }

  /** Only the checksum of nothing may be unreduced, when it starts so. */
  lemma {:induction false} AdlerIsRaw(start: Sums, s: seq<byte>)
    requires Reduced(start) || s != []
    ensures Adler(start, s) == Mod(Raw(start, s))
    decreases |s|
  {
    hide Index, Mod, Next, NextMod;
    if s == [] {
      ModOfReduced(start);
    } else if |s| == 1 {
      assert s[..0] == [];
      NextModIs(start, Index(s[0]));
    } else {
      AdlerIsRaw(start, s[..|s| - 1]);
      ModNext(Raw(start, s[..|s| - 1]), Index(s[|s| - 1]));
    }
  }

  lemma {:induction false} RawAppend(start: Sums, s: seq<byte>, t: seq<byte>)
    ensures Raw(start, s + t) == Raw(Raw(start, s), t)
    decreases |t|
  {
    hide Index;
    if t == [] {
      assert s + t == s;
    } else {
      assert (s + t)[..|s + t| - 1] == s + t[..|t| - 1];
      RawAppend(start, s, t[..|t| - 1]);
    }
  }

  /** Reducing in between changes nothing. */
  lemma {:induction false} RawOfMod(start: Sums, s: seq<byte>)
    ensures Mod(Raw(Mod(start), s)) == Mod(Raw(start, s))
    decreases |s|
  {
    hide Index, Mod, Next, NextMod;
    if s == [] {
      ModTwice(start);
    } else {
      RawOfMod(start, s[..|s| - 1]);
      ModNext(Raw(start, s[..|s| - 1]), Index(s[|s| - 1]));
      ModNext(Raw(Mod(start), s[..|s| - 1]), Index(s[|s| - 1]));
    }
  }

  lemma ModSum(x: nat, y: nat)
    ensures (x + y) % BASE == (x % BASE + y % BASE) % BASE
  {
    ModAdd(x, y);
    ModAdd(y, x % BASE);
  }

  // ----- how large the sums get before they are reduced

  /** 1 + 2 + ... + n */
  function Tri(n: nat): nat
    decreases n
  {
    if n == 0 then 0 else Tri(n - 1) + n
  }

  lemma {:induction false} TriIs(n: nat)
    ensures 2 * Tri(n) == n * (n + 1)
    decreases n
  {
    if n > 0 {
      TriIs(n - 1);
      assert n * (n + 1) == (n - 1) * n + 2 * n;
    }
  }

  lemma {:induction false} TriMono(m: nat, n: nat)
    requires m <= n
    ensures Tri(m) <= Tri(n)
    decreases n
  {
    if m < n {
      TriMono(m, n - 1);
    }
  }

  /** The bound behind NMAX, for a start of any two 16-bit halves. */
  lemma {:induction false} RawBound(start: Sums, s: seq<byte>)
    requires start.a < 65536 && start.b < 65536
    ensures Raw(start, s).a <= 65535 + 255 * |s|
    ensures Raw(start, s).b <= 65535 * (|s| + 1) + 255 * Tri(|s|)
    decreases |s|
  {
    hide Index;
    if s != [] {
      RawBound(start, s[..|s| - 1]);
    }
  }

  const NMAX: nat := 5552
  const LIMIT32: nat := 0x1_0000_0000

  lemma BlockFits(start: Sums, s: seq<byte>)
    requires start.a < 65536 && start.b < 65536 && |s| <= NMAX
    ensures Raw(start, s).a < LIMIT32 && Raw(start, s).b < LIMIT32
  {
    RawBound(start, s);
    TriMono(|s|, NMAX);
    TriIs(NMAX);
  }

  /** No block could be longer: with the largest start and bytes the sum passes 2^32. */
  lemma BlockIsMaximal(start: Sums, s: seq<byte>)
    requires start == Sums(BASE - 1, BASE - 1) && |s| == NMAX + 1 && forall i | 0 <= i < |s| :: s[i] == 255
    ensures Raw(start, s).b >= LIMIT32
  {
    AllOnes(start, s);
    TriIs(NMAX + 1);
  }

  lemma {:induction false} AllOnes(start: Sums, s: seq<byte>)
    requires start == Sums(BASE - 1, BASE - 1) && forall i | 0 <= i < |s| :: s[i] == 255
    ensures Raw(start, s).a == BASE - 1 + 255 * |s|
    ensures Raw(start, s).b == (BASE - 1) * (|s| + 1) + 255 * Tri(|s|)
    decreases |s|
  {
    if s != [] {
      AllOnes(start, s[..|s| - 1]);
      Index255();
    }
  }

  lemma Index255()
    ensures Index(255) == 255
  {}

  // ----- putting two checksums together

  /** Another start moves the sums linearly. */
  lemma {:induction false} RawMoves(x: Sums, y: Sums, s: seq<byte>)
    ensures Raw(x, s).a - Raw(y, s).a == x.a - y.a
    ensures Raw(x, s).b - Raw(y, s).b == x.b - y.b + |s| * (x.a - y.a)
    decreases |s|
  {
    hide Index;
    if s != [] {
      RawMoves(x, y, s[..|s| - 1]);
      var n, d := |s|, x.a - y.a;
      assert (n - 1) * d + d == n * d;
    }
  }

  lemma ModWitness(x: int, y: int, k: int)
    requires x == y + BASE * k
    ensures x % BASE == y % BASE
  {}

  /** The formula of adler32_combine_: x of the first part, y of the second, started at 1, n the second length. */
  function Combine(x: Sums, y: Sums, n: nat): Sums {
    Sums((x.a + y.a + BASE - 1) % BASE, ((n % BASE) * x.a % BASE + x.b + y.b + BASE - n % BASE) % BASE)
  }

  /** The checksum of a concatenation follows from the two checksums and the second length. */
  lemma AdlerOfConcat(start: Sums, s: seq<byte>, t: seq<byte>)
    requires Reduced(start)
    ensures Adler(start, s + t) == Combine(Adler(start, s), Adler(Sums(1, 0), t), |t|)
  {
    hide Adler, Raw, Mod, Combine;
    var p, q := Raw(start, s), Raw(Sums(1, 0), t);
    AdlerIsRaw(start, s);
    AdlerIsRaw(Sums(1, 0), t);
    AdlerIsRaw(start, s + t);
    RawAppend(start, s, t);
    RawMoves(p, Sums(1, 0), t);
    CombineMods(p, q, |t|, Raw(p, t));
  }

  lemma CombineMods(p: Sums, q: Sums, n: nat, r: Sums)
    requires r.a - q.a == p.a - 1 && r.b - q.b == p.b - 0 + n * (p.a - 1)
    ensures Mod(r) == Combine(Mod(p), Mod(q), n)
  {
    CombineA(p.a, q.a);
    CombineB(p, q, n, r.b);
  }

  lemma CombineA(p: nat, q: nat)
    ensures (p + q - 1) % BASE == (p % BASE + q % BASE + BASE - 1) % BASE
  {
    ModWitness(p + q - 1, p % BASE + q % BASE + BASE - 1, p / BASE + q / BASE - 1);
  }

  lemma CombineB(p: Sums, q: Sums, n: nat, total: nat)
    requires total - q.b == p.b + n * (p.a - 1)
    ensures var rem, a := n % BASE, p.a % BASE;
      total % BASE == (rem * a % BASE + p.b % BASE + q.b % BASE + BASE - rem) % BASE
  {
    var rem, a := n % BASE, p.a % BASE;
    var k, l, m := n / BASE, p.a / BASE, rem * a / BASE;
    assert n == BASE * k + rem && p.a == BASE * l + a && rem * a == BASE * m + rem * a % BASE;
    Product(k, rem, l, a);
    assert n * (p.a - 1) == n * p.a - n;
    var w := k * (BASE * l + a) + rem * l;
    assert total == q.b + p.b + BASE * w + rem * a - n;
    ModWitness(total, rem * a % BASE + p.b % BASE + q.b % BASE + BASE - rem,
               w + m - k + p.b / BASE + q.b / BASE - 1);
  }

  lemma Product(k: nat, rem: nat, l: nat, a: nat)
    ensures (BASE * k + rem) * (BASE * l + a) == BASE * (k * (BASE * l + a) + rem * l) + rem * a
  {
    var x := BASE * l + a;
    assert (BASE * k + rem) * x == BASE * (k * x) + rem * x;
    assert rem * x == BASE * (rem * l) + rem * a;
  }

  // ----- known values

  lemma StartsAt(start: Sums, none: seq<byte>)
    requires none == []
    ensures Adler(start, none) == start
  {}

  lemma OneAfter(start: Sums, s: seq<byte>, c: byte, t: seq<byte>, v: nat, sums: Sums)
    requires t == s + [c] && Index(c) == v && NextMod(Adler(start, s), v) == sums
    ensures Adler(start, t) == sums
  {
    hide NextMod, Index;
    assert t[..|s|] == s;
  }

  lemma Letters()
    ensures Index(0x57) == 87 && Index(0x69) == 105 && Index(0x6b) == 107 && Index(0x70) == 112
    ensures Index(0x65) == 101 && Index(0x64) == 100 && Index(0x61) == 97 && Index(0x02) == 2
  {}

  lemma FirstLetters()
    ensures Adler(Sums(1, 0), [0x57, 0x69, 0x6b, 0x69, 0x70]) == Sums(517, 1503)
  {
    hide Adler, Index;
    Letters();
    var one := Sums(1, 0);
    var none: seq<byte> := [];
    StartsAt(one, none);
    OneAfter(one, none, 0x57, [0x57], 87, Sums(88, 88));
    OneAfter(one, [0x57], 0x69, [0x57, 0x69], 105, Sums(193, 281));
    OneAfter(one, [0x57, 0x69], 0x6b, [0x57, 0x69, 0x6b], 107, Sums(300, 581));
    OneAfter(one, [0x57, 0x69, 0x6b], 0x69, [0x57, 0x69, 0x6b, 0x69], 105, Sums(405, 986));
    OneAfter(one, [0x57, 0x69, 0x6b, 0x69], 0x70, [0x57, 0x69, 0x6b, 0x69, 0x70], 112, Sums(517, 1503));
  }

  /** "Wikipedia" has the checksum 0x11e60398, and both sums wrap at 65521. */
  lemma KnownSums()
    ensures Adler(Sums(1, 0), [0x57, 0x69, 0x6b, 0x69, 0x70, 0x65, 0x64, 0x69, 0x61]) == Sums(0x0398, 0x11e6)
    ensures Adler(Sums(65520, 65520), [0x02]) == Sums(1, 0)
  {
    hide Adler, Index;
    Letters();
    var one, high := Sums(1, 0), Sums(65520, 65520);
    var none: seq<byte> := [];
    FirstLetters();
    OneAfter(one, [0x57, 0x69, 0x6b, 0x69, 0x70], 0x65, [0x57, 0x69, 0x6b, 0x69, 0x70, 0x65], 101, Sums(618, 2121));
    OneAfter(one, [0x57, 0x69, 0x6b, 0x69, 0x70, 0x65], 0x64,
              [0x57, 0x69, 0x6b, 0x69, 0x70, 0x65, 0x64], 100, Sums(718, 2839));
    OneAfter(one, [0x57, 0x69, 0x6b, 0x69, 0x70, 0x65, 0x64], 0x69,
              [0x57, 0x69, 0x6b, 0x69, 0x70, 0x65, 0x64, 0x69], 105, Sums(823, 3662));
    OneAfter(one, [0x57, 0x69, 0x6b, 0x69, 0x70, 0x65, 0x64, 0x69], 0x61,
              [0x57, 0x69, 0x6b, 0x69, 0x70, 0x65, 0x64, 0x69, 0x61], 97, Sums(920, 4582));
    StartsAt(high, none);
    OneAfter(high, none, 0x02, [0x02], 2, one);
  }
}
