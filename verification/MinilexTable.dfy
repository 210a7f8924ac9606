/** The byte table of a finished trie, and what walking it from the root finds. */
module MinilexTable {
  import opened Words
  import opened Options
  import opened Lextable
  import opened SevenBit
  import opened Minilex

  /** Options in the states before k: half of the bytepos of state k. */
  function Rows(es: seq<seq<Edge>>, k: nat): nat
    requires k <= |es|
    decreases k
  {
    if k == 0 then 0 else Rows(es, k - 1) + |es[k - 1]|
  }

  lemma {:induction false} RowsGrow(es: seq<seq<Edge>>, k: nat, j: nat)
    requires k < j <= |es|
    ensures Rows(es, k) + |es[k]| <= Rows(es, j)
    decreases j
  {
    if k < j - 1 {
      RowsGrow(es, k, j - 1);
    }
  }

  function Head(e: seq<Edge>, y: nat): byte
    requires y < |e|
  {
    if y == |e| - 1 then WithTop(e[y].c) else e[y].c
  }

  /** Half of (bytepos of the target - walk), or 0 for a terminal. */
  function Jump(es: seq<seq<Edge>>, k: nat, y: nat): int
    requires k < |es| && y < |es[k]| && es[k][y].to < |es|
  {
    if es[k][y].to == 0 then 0 else Rows(es, es[k][y].to) - (Rows(es, k) + y)
  }

  /** Options lead forward, or to 0 on a terminal. */
  predicate Forward(es: seq<seq<Edge>>) {
    forall k, y | 0 <= k < |es| && 0 <= y < |es[k]| :: es[k][y].to < |es| && (es[k][y].to == 0 || k < es[k][y].to)
  }

  predicate RowAt(es: seq<seq<Edge>>, t: seq<byte>, k: nat, y: nat)
    requires k < |es| && y < |es[k]| && es[k][y].to < |es|
  {
    var p := 2 * (Rows(es, k) + y);
    && p + 1 < |t| && t[p] == Head(es[k], y)
    && 0 <= Jump(es, k, y) < 256 && t[p + 1] == ByteAt(Jump(es, k, y))
  }

  predicate Emitted(es: seq<seq<Edge>>, t: seq<byte>)
    requires Forward(es)
  {
    && |t| == 2 * Rows(es, |es|)
    && forall k, y | 0 <= k < |es| && 0 <= y < |es[k]| :: RowAt(es, t, k, y)
  }

  /** A finished trie and its table. */
  predicate Compiled(es: seq<seq<Edge>>, sh: Shape, names: seq<name>, t: seq<byte>) {
    && Usable(names) && Tree(es, sh, names, |names|, 0) && (forall j | 0 <= j < |es| :: es[j] != [])
    && Forward(es) && Emitted(es, t) && Closed(t)
  }

  lemma TreeForward(es: seq<seq<Edge>>, sh: Shape, names: seq<name>, n: nat, m: nat)
    requires Tree(es, sh, names, n, m)
    ensures Forward(es)
  {
    hide Parents, Ends, Marks, Sources, Distinct;
    forall k, y | 0 <= k < |es| && 0 <= y < |es[k]|
      ensures es[k][y].to < |es| && (es[k][y].to == 0 || k < es[k][y].to)
    {
      assert Terminal(es[k]) || Inner(es[k], sh.labels, k);
    }
  }

  function First(e: seq<Edge>, y: nat, c: byte): (z: Option<nat>)
    ensures z.Some? ==> y <= z.value < |e| && e[z.value].c == c
    ensures z.None? ==> forall x | y <= x < |e| :: e[x].c != c
    decreases |e| - y
  {
    if y >= |e| then None else if e[y].c == c then Some(y) else First(e, y + 1, c)
  }

  lemma ByteAtZero(i: nat)
    requires i < 256 && ByteAt(i) == 0
    ensures i == 0
  {
    IndexByteAt(i);
    IndexByteAt(0);
  }

  lemma PlaceOf(es: seq<seq<Edge>>, t: seq<byte>, k: nat, y: nat)
    requires Forward(es) && Emitted(es, t) && k < |es| && y < |es[k]|
    ensures Place(t, 2 * (Rows(es, k) + y))
  {
    assert RowAt(es, t, k, y);
  }

  lemma JumpForward(es: seq<seq<Edge>>, k: nat, y: nat)
    requires Forward(es) && k < |es| && y < |es[k]| && es[k][y].to != 0
    ensures Jump(es, k, y) > 0
  {
    RowsGrow(es, k, es[k][y].to);
  }

  /** Decoding from option y of an inner state finds the first option for c. */
  lemma {:induction false} DecodeInner(es: seq<seq<Edge>>, labels: seq<name>, t: seq<byte>, k: nat, y: nat, c: byte)
    requires Forward(es) && Emitted(es, t) && Closed(t) && k < |es| == |labels| && y < |es[k]|
    requires Inner(es[k], labels, k)
    ensures Place(t, 2 * (Rows(es, k) + y))
    ensures Decode(t, 2 * (Rows(es, k) + y), c)
      == match First(es[k], y, c) case None => None case Some(z) => Some(2 * Rows(es, es[k][z].to))
    decreases |es[k]| - y
  {
    hide Closed, Rows, WithTop, Low7, TopBit, Seven, Emitted, ByteAt, Index;
    var e, p := es[k], 2 * (Rows(es, k) + y);
    PlaceOf(es, t, k, y);
    RowOf(es, t, k, y);
    TopLaws(e[y].c);
    JumpForward(es, k, y);
    IndexByteAt(Jump(es, k, y));
    if t[p + 1] == 0 {
      ByteAtZero(Jump(es, k, y));
    }
    if y + 1 < |e| {
      DecodeInner(es, labels, t, k, y + 1, c);
    }
  }

  lemma RowOf(es: seq<seq<Edge>>, t: seq<byte>, k: nat, y: nat)
    requires Forward(es) && Emitted(es, t) && k < |es| && y < |es[k]|
    ensures RowAt(es, t, k, y)
  {}

  lemma DecodeTerminal(es: seq<seq<Edge>>, t: seq<byte>, k: nat, c: byte)
    requires Forward(es) && Emitted(es, t) && Closed(t) && k < |es| && Terminal(es[k]) && Seven(es[k][0].c)
    ensures var p := 2 * Rows(es, k);
      Place(t, p) && t[p + 1] == 0 && Low7(t[p]) == es[k][0].c && Decode(t, p, c) == Some(p)
  {
    hide Closed, Rows, WithTop, Low7, TopBit, Seven, Emitted, Index;
    PlaceOf(es, t, k, 0);
    RowOf(es, t, k, 0);
    TopLaws(es[k][0].c);
    assert ByteAt(0) == 0;
  }

  /** Only terminals have a zero in their second byte. */
  lemma MarkerByte(es: seq<seq<Edge>>, labels: seq<name>, t: seq<byte>, k: nat)
    requires Forward(es) && Emitted(es, t) && k < |es| == |labels| && es[k] != [] && Inner(es[k], labels, k)
    ensures var p := 2 * Rows(es, k); Place(t, p) && t[p + 1] != 0
  {
    hide Rows, Head, Emitted, Index;
    PlaceOf(es, t, k, 0);
    RowOf(es, t, k, 0);
    JumpForward(es, k, 0);
    if t[2 * Rows(es, k) + 1] == 0 {
      ByteAtZero(Jump(es, k, 0));
    }
  }

  // ----- walking from the root

  lemma KindOf(es: seq<seq<Edge>>, sh: Shape, names: seq<name>, k: nat)
    requires Usable(names) && Tree(es, sh, names, |names|, 0) && k < |es|
    ensures Terminal(es[k]) || Inner(es[k], sh.labels, k)
    ensures Terminal(es[k]) ==> var i := Index(es[k][0].c);
      i < |names| && sh.labels[k] == names[i] && Seven(es[k][0].c)
  {
    hide Parents, Sources, PrefixFree, Distinct, Seven, Inner, Index, ByteAt;
    if Terminal(es[k]) {
      var i := Index(es[k][0].c);
      SameLabel(sh.labels, sh.ends[i], k);
      SevenByteAt(i);
    }
  }

  /** Every prefix of a name has its state. */
  lemma {:induction false} PrefixState(es: seq<seq<Edge>>, sh: Shape, names: seq<name>, i: nat, m: nat) returns (k: nat)
    requires Tree(es, sh, names, |names|, 0) && i < |names| && m <= |names[i]|
    ensures k < |es| && sh.labels[k] == names[i][..m]
    decreases |names[i]| - m
  {
    hide EdgesOk, Parents, Inner, Sources, Marks, Distinct;
    if m == |names[i]| {
      k := sh.ends[i];
      assert names[i][..m] == names[i];
    } else {
      var j := PrefixState(es, sh, names, i, m + 1);
      RootLabel(es, sh);
      Child(es, sh, j);
      k := sh.par[j];
      LastOff(sh.labels[k], es[k][sh.slot[j]].c, names[i], m);
    }
  }

  lemma LastOff(l: name, c: byte, s: name, m: nat)
    requires m < |s| && l + [c] == s[..m + 1]
    ensures l == s[..m] && c == s[m]
  {
    assert (l + [c])[..m] == l && s[..m + 1][..m] == s[..m];
    assert (l + [c])[m] == s[..m + 1][m];
  }

  /** From the state of a proper prefix of a name there is an option for the next character. */
  lemma NextState(es: seq<seq<Edge>>, sh: Shape, names: seq<name>, i: nat, m: nat, k: nat)
    requires Tree(es, sh, names, |names|, 0) && i < |names| && m < |names[i]| && k < |es|
    requires sh.labels[k] == names[i][..m]
    requires Inner(es[k], sh.labels, k)
    ensures var z := First(es[k], 0, names[i][m]);
      z.Some? && sh.labels[es[k][z.value].to] == names[i][..m + 1]
  {
    hide EdgesOk, Parents, Ends, Sources, Marks, Distinct;
    var j := PrefixState(es, sh, names, i, m + 1);
    RootLabel(es, sh);
    Child(es, sh, j);
    var p := sh.par[j];
    LastOff(sh.labels[p], es[p][sh.slot[j]].c, names[i], m);
    SameLabel(sh.labels, p, k);
    assert names[i][..m + 1] == names[i][..m] + [names[i][m]];
  }

  lemma EndIsTerminal(es: seq<seq<Edge>>, sh: Shape, names: seq<name>, i: nat, k: nat)
    requires Tree(es, sh, names, |names|, 0) && i < |names| && k < |es| && sh.labels[k] == names[i]
    ensures Terminal(es[k])
  {
    hide EdgesOk, Parents, Sources, Marks, Distinct, ByteAt;
    SameLabel(sh.labels, sh.ends[i], k);
  }

  /** What the table holds at the start of state k. */
  lemma Marker(es: seq<seq<Edge>>, sh: Shape, names: seq<name>, t: seq<byte>, k: nat, c: byte)
    requires Compiled(es, sh, names, t) && k < |es|
    ensures var p := 2 * Rows(es, k);
      && Place(t, p) && (t[p + 1] == 0 <==> Terminal(es[k]))
      && (Terminal(es[k]) ==> Low7(t[p]) == es[k][0].c && Decode(t, p, c) == Some(p))
  {
    hide EdgesOk, Parents, Ends, Sources, Marks, Distinct, Emitted, Closed, Rows, Seven, Low7, Index, PrefixFree;
    KindOf(es, sh, names, k);
    if Terminal(es[k]) {
      DecodeTerminal(es, t, k, c);
    } else {
      MarkerByte(es, sh.labels, t, k);
    }
  }

  lemma PrefixIs(names: seq<name>, i: nat, j: nat)
    requires PrefixFree(names) && i < |names| && j < |names| && names[i] <= names[j]
    ensures i == j
  {}

  /** The walk of any string that starts with name i stops at its terminal. */
  lemma {:induction false} RunFinds(es: seq<seq<Edge>>, sh: Shape, names: seq<name>, t: seq<byte>, k: nat, m: nat,
                                    i: nat, s: seq<byte>)
    requires Compiled(es, sh, names, t) && k < |es| && i < |names| && m <= |names[i]|
    requires sh.labels[k] == names[i][..m] && s != [] && names[i] <= names[i][..m] + s
    ensures Place(t, 2 * Rows(es, k)) && Run(t, 2 * Rows(es, k), s) == Some(i)
    decreases |s|
  {
    hide EdgesOk, Parents, Ends, Sources, Marks, Distinct, Emitted, Closed, Rows, Decode, Seven, Low7, Index,
         PrefixFree;
    KindOf(es, sh, names, k);
    Marker(es, sh, names, t, k, s[0]);
    if Terminal(es[k]) {
      PrefixIs(names, Index(es[k][0].c), i);
    } else {
      if m == |names[i]| {
        assert names[i][..m] == names[i];
        EndIsTerminal(es, sh, names, i, k);
      }
      NextChar(names[i], m, s);
      NextState(es, sh, names, i, m, k);
      DecodeInner(es, sh.labels, t, k, 0, s[0]);
      var l := es[k][First(es[k], 0, s[0]).value].to;
      Marker(es, sh, names, t, l, 0);
      KindOf(es, sh, names, l);
      if Terminal(es[l]) {
        PrefixIs(names, Index(es[l][0].c), i);
      } else {
        if s[1..] == [] {
          assert names[i] == names[i][..m + 1];
          EndIsTerminal(es, sh, names, i, l);
        }
        RunFinds(es, sh, names, t, l, m + 1, i, s[1..]);
      }
    }
  }

  lemma NextChar(w: name, m: nat, s: seq<byte>)
    requires m < |w| && s != [] && w <= w[..m] + s
    ensures s[0] == w[m] && w <= w[..m + 1] + s[1..]
    ensures s[1..] == [] ==> w == w[..m + 1]
  {
    assert (w[..m] + s)[m] == s[0];
    assert w[..m] + s == w[..m + 1] + s[1..];
  }

  /** The walk of a string with no name in front finds nothing. */
  lemma {:induction false} RunRejects(es: seq<seq<Edge>>, sh: Shape, names: seq<name>, t: seq<byte>, k: nat,
                                      s: seq<byte>)
    requires Compiled(es, sh, names, t) && k < |es|
    requires forall i | 0 <= i < |names| :: !(names[i] <= sh.labels[k] + s)
    ensures Place(t, 2 * Rows(es, k)) && Run(t, 2 * Rows(es, k), s) == None
    decreases |s|
  {
    hide EdgesOk, Parents, Ends, Sources, Marks, Distinct, Emitted, Closed, Rows, Decode, Seven, Low7, Index,
         PrefixFree;
    KindOf(es, sh, names, k);
    Marker(es, sh, names, t, k, 0);
    assert !Terminal(es[k]);
    if s != [] {
      DecodeInner(es, sh.labels, t, k, 0, s[0]);
      var z := First(es[k], 0, s[0]);
      if z.Some? {
        var l := es[k][z.value].to;
        assert sh.labels[k] + s == sh.labels[l] + s[1..];
        KindOf(es, sh, names, l);
        Marker(es, sh, names, t, l, 0);
        RunRejects(es, sh, names, t, l, s[1..]);
      }
    }
  }

  /** The emitted table recognises exactly the names: a walk from the root finds i just when name i is in front. */
  lemma Recognises(es: seq<seq<Edge>>, sh: Shape, names: seq<name>, t: seq<byte>, s: seq<byte>, i: nat)
    requires Compiled(es, sh, names, t)
    ensures Place(t, 0)
    ensures Run(t, 0, s) == Some(i) <==> s != [] && i < |names| && names[i] <= s
  {
    hide EdgesOk, Ends, Sources, Marks, Distinct, Emitted, Closed, Run, PrefixFree;
    RootLabel(es, sh);
    assert Rows(es, 0) == 0;
    assert [] + s == s;
    Marker(es, sh, names, t, 0, 0);
    if s != [] && exists j | 0 <= j < |names| :: names[j] <= s {
      var j :| 0 <= j < |names| && names[j] <= s;
      RunFinds(es, sh, names, t, 0, 0, j, s);
      if i < |names| && names[i] <= s {
        RunFinds(es, sh, names, t, 0, 0, i, s);
      }
    } else if s == [] {
      RunEmpty(t);
    } else {
      RunRejects(es, sh, names, t, 0, s);
    }
  }

  lemma RunEmpty(t: seq<byte>)
    requires Closed(t) && Place(t, 0)
    ensures Run(t, 0, []) == None
  {}

  lemma {:induction false} FindRow(es: seq<seq<Edge>>, n: nat, r: nat) returns (k: nat, y: nat)
    requires n <= |es| && r < Rows(es, n)
    ensures k < n && y < |es[k]| && Rows(es, k) + y == r
    decreases n
  {
    if r < Rows(es, n - 1) {
      k, y := FindRow(es, n - 1, r);
    } else {
      k, y := n - 1, r - Rows(es, n - 1);
    }
  }

  /** Every terminal marker in the table holds the index of a name. */
  lemma MarkersNamed(es: seq<seq<Edge>>, sh: Shape, names: seq<name>, t: seq<byte>, p: nat)
    requires Compiled(es, sh, names, t) && Place(t, p) && t[p + 1] == 0
    ensures Index(Low7(t[p])) < |names|
  {
    hide EdgesOk, Parents, Ends, Sources, Marks, Distinct, Closed, Rows, Seven, Low7, Index, PrefixFree, Emitted,
         ByteAt;
    EmittedRows(es, t);
    var k, y := FindRow(es, |es|, p / 2);
    RowOf(es, t, k, y);
    KindOf(es, sh, names, k);
    if Terminal(es[k]) {
      TopLaws(es[k][y].c);
    } else {
      JumpForward(es, k, y);
      ByteAtZero(Jump(es, k, y));
    }
  }

  lemma EmittedRows(es: seq<seq<Edge>>, t: seq<byte>)
    requires Forward(es) && Emitted(es, t)
    ensures |t| == 2 * Rows(es, |es|)
  {}
}
