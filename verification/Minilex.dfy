/** lib/minilex.c: grows a trie of the header names in the global state table and emits its byte table. */
module Minilex {
  import opened Words
  import opened Lextable
  import opened SevenBit

  type name = seq<byte>

  datatype Edge = Edge(c: byte, to: nat)

  /** What the states stand for: the string that leads to a state, the state and option it hangs from,
      a name that runs through it, and the final state of every name. */
  datatype Shape = Shape(labels: seq<name>, par: seq<nat>, slot: seq<nat>, via: seq<nat>, ends: seq<nat>)

  predicate Distinct<T(==)>(s: seq<T>) {
    forall i, j | 0 <= i < j < |s| :: s[i] != s[j]
  }

  /** A terminal marker: its character field holds the index of the name. */
  predicate Terminal(e: seq<Edge>) {
    |e| == 1 && e[0].to == 0
  }

  predicate Inner(e: seq<Edge>, labels: seq<name>, k: nat)
    requires k < |labels|
  {
    && (forall y | 0 <= y < |e| :: k < e[y].to < |labels| && labels[e[y].to] == labels[k] + [e[y].c] && Seven(e[y].c))
    && (forall x, y | 0 <= x < y < |e| :: e[x].c != e[y].c)
  }

  predicate Sized(es: seq<seq<Edge>>, sh: Shape) {
    |es| > 0 && |sh.labels| == |es| && |sh.par| == |es| && |sh.slot| == |es| && |sh.via| == |es|
  }

  predicate EdgesOk(es: seq<seq<Edge>>, labels: seq<name>)
    requires |labels| == |es|
  {
    forall k | 0 <= k < |es| :: Terminal(es[k]) || Inner(es[k], labels, k)
  }

  predicate Hangs(es: seq<seq<Edge>>, sh: Shape, k: nat)
    requires Sized(es, sh) && k < |es|
  {
    sh.par[k] < k && sh.slot[k] < |es[sh.par[k]]| && es[sh.par[k]][sh.slot[k]].to == k
  }

  predicate Parents(es: seq<seq<Edge>>, sh: Shape)
    requires Sized(es, sh)
  {
    sh.labels[0] == [] && forall k | 0 < k < |es| :: Hangs(es, sh, k)
  }

  /** Every state lies on a name that is done, or on the first m characters of name n. */
  predicate Sources(sh: Shape, names: seq<name>, n: nat, m: nat)
    requires |sh.via| == |sh.labels|
  {
    forall k | 0 <= k < |sh.labels| ::
      && sh.via[k] <= n && sh.via[k] < |names| && sh.labels[k] <= names[sh.via[k]]
      && (sh.via[k] == n ==> |sh.labels[k]| <= m)
  }

  predicate Ends(es: seq<seq<Edge>>, sh: Shape, names: seq<name>, n: nat)
    requires |sh.labels| == |es|
  {
    && |sh.ends| == n <= |names| <= 128
    && forall i | 0 <= i < n ::
      sh.ends[i] < |es| && sh.labels[sh.ends[i]] == names[i] && es[sh.ends[i]] == [Edge(ByteAt(i), 0)]
  }

  predicate Marks(es: seq<seq<Edge>>, sh: Shape, names: seq<name>, n: nat)
    requires |sh.labels| == |es| && n <= |names|
  {
    forall k | 0 <= k < |es| && Terminal(es[k]) ::
      Index(es[k][0].c) < n && sh.labels[k] == names[Index(es[k][0].c)]
  }

  /** The trie after n names and m characters of the next one. */
  predicate Tree(es: seq<seq<Edge>>, sh: Shape, names: seq<name>, n: nat, m: nat) {
    && Sized(es, sh) && Distinct(sh.labels) && EdgesOk(es, sh.labels) && Parents(es, sh)
    && Sources(sh, names, n, m) && Ends(es, sh, names, n) && Marks(es, sh, names, n)
  }

  predicate Usable(names: seq<name>) {
    && 0 < |names| <= 128 && PrefixFree(names)
    && forall i, m | 0 <= i < |names| && 0 <= m < |names[i]| :: Seven(names[i][m]) && names[i][m] != 0
  }

  /** The walk of name n stands at state k, and only there may a state be without options. */
  predicate At(es: seq<seq<Edge>>, sh: Shape, names: seq<name>, n: nat, m: nat, k: nat) {
    && Tree(es, sh, names, n, m) && n < |names| && m <= |names[n]| && k < |es| && sh.labels[k] == names[n][..m]
    && forall j | 0 <= j < |es| && es[j] == [] :: j == k
  }

  lemma NoPrefix(names: seq<name>, i: nat, n: nat)
    requires PrefixFree(names) && i < |names| && n < |names| && i != n
    ensures !(names[i] <= names[n])
  {}

  lemma NotDoneYet(es: seq<seq<Edge>>, sh: Shape, names: seq<name>, n: nat, m: nat, k: nat)
    requires Usable(names) && At(es, sh, names, n, m, k)
    ensures !Terminal(es[k]) && Inner(es[k], sh.labels, k)
  {
    hide PrefixFree, Inner, Parents, Sources, Ends, Distinct;
    if Terminal(es[k]) {
      NoPrefix(names, Index(es[k][0].c), n);
    }
  }

  /** An option for the next character leads to the next state of the walk. */
  lemma StepSeen(es: seq<seq<Edge>>, sh: Shape, names: seq<name>, n: nat, m: nat, k: nat, y: nat)
    requires Usable(names) && At(es, sh, names, n, m, k) && m < |names[n]|
    requires y < |es[k]| && es[k][y].c == names[n][m]
    ensures At(es, sh, names, n, m + 1, es[k][y].to)
  {
    hide Usable, EdgesOk, Parents, Ends, Marks, Distinct, Terminal, Sources;
    NotDoneYet(es, sh, names, n, m, k);
    SourcesLater(sh, names, n, m);
    assert names[n][..m + 1] == names[n][..m] + [names[n][m]];
    assert es[k] != [];
  }

  lemma SourcesLater(sh: Shape, names: seq<name>, n: nat, m: nat)
    requires |sh.via| == |sh.labels| && Sources(sh, names, n, m)
    ensures Sources(sh, names, n, m + 1)
  {}

  /** A state is labelled by its parent's label and the character of the option it hangs from. */
  lemma Child(es: seq<seq<Edge>>, sh: Shape, j: nat)
    requires Sized(es, sh) && EdgesOk(es, sh.labels) && Parents(es, sh) && 0 < j < |es|
    ensures Hangs(es, sh, j) && sh.labels[j] == sh.labels[sh.par[j]] + [es[sh.par[j]][sh.slot[j]].c]
    ensures Inner(es[sh.par[j]], sh.labels, sh.par[j])
  {
    assert Hangs(es, sh, j);
    var p := sh.par[j];
    assert Terminal(es[p]) || Inner(es[p], sh.labels, p);
  }

  lemma SameLabel(labels: seq<name>, i: nat, j: nat)
    requires Distinct(labels) && i < |labels| && j < |labels| && labels[i] == labels[j]
    ensures i == j
  {}

  lemma NewLabel(es: seq<seq<Edge>>, sh: Shape, names: seq<name>, n: nat, m: nat, k: nat)
    requires Usable(names) && At(es, sh, names, n, m, k) && m < |names[n]|
    requires forall y | 0 <= y < |es[k]| :: es[k][y].c != names[n][m]
    ensures names[n][..m + 1] !in sh.labels
  {
    hide Usable, EdgesOk, Inner, Terminal, Distinct, Sources, Ends, Marks, Parents;
    var s := names[n][..m + 1];
    forall j | 0 <= j < |sh.labels|
      ensures sh.labels[j] != s
    {
      if j == 0 {
        RootLabel(es, sh);
      } else {
        Child(es, sh, j);
        var p := sh.par[j];
        var l, c := sh.labels[p], es[p][sh.slot[j]].c;
        assert |l + [c]| == |s| ==> (l + [c])[..m] == l && (l + [c])[m] == c;
        assert s[..m] == names[n][..m] && s[m] == names[n][m];
        if l == names[n][..m] {
          SameLabel(sh.labels, p, k);
        }
      }
    }
  }

  lemma RootLabel(es: seq<seq<Edge>>, sh: Shape)
    requires Sized(es, sh) && Parents(es, sh)
    ensures sh.labels[0] == []
  {}

  function Grown(es: seq<seq<Edge>>, k: nat, c: byte): seq<seq<Edge>>
    requires k < |es|
  {
    es[k := es[k] + [Edge(c, |es|)]] + [[]]
  }

  function GrownShape(sh: Shape, k: nat, y: nat, s: name, n: nat): Shape {
    Shape(sh.labels + [s], sh.par + [k], sh.slot + [y], sh.via + [n], sh.ends)
  }

  lemma GrowEdges(es: seq<seq<Edge>>, labels: seq<name>, k: nat, c: byte)
    requires k < |es| == |labels| && EdgesOk(es, labels) && !Terminal(es[k]) && Seven(c)
    requires forall y | 0 <= y < |es[k]| :: es[k][y].c != c
    ensures EdgesOk(Grown(es, k, c), labels + [labels[k] + [c]])
    ensures !Terminal(Grown(es, k, c)[k])
  {
    hide Seven;
    var fs, ls := Grown(es, k, c), labels + [labels[k] + [c]];
    forall j | 0 <= j < |fs|
      ensures Terminal(fs[j]) || Inner(fs[j], ls, j)
    {
      if j < |es| {
        assert Terminal(es[j]) || Inner(es[j], labels, j);
      }
    }
  }

  lemma GrowParents(es: seq<seq<Edge>>, sh: Shape, k: nat, c: byte, s: name, n: nat)
    requires Sized(es, sh) && Parents(es, sh) && k < |es|
    ensures var fs, th := Grown(es, k, c), GrownShape(sh, k, |es[k]|, s, n);
      Sized(fs, th) && Parents(fs, th)
  {
    var fs, th := Grown(es, k, c), GrownShape(sh, k, |es[k]|, s, n);
    forall j | 0 < j < |fs|
      ensures Hangs(fs, th, j)
    {
      if j < |es| {
        assert Hangs(es, sh, j);
      }
    }
  }

  lemma GrowEnds(es: seq<seq<Edge>>, sh: Shape, names: seq<name>, n: nat, m: nat, k: nat, c: byte, s: name)
    requires Tree(es, sh, names, n, m) && k < |es| && !Terminal(es[k])
    ensures var fs, th := Grown(es, k, c), GrownShape(sh, k, |es[k]|, s, n);
      Ends(fs, th, names, n) && Marks(fs, th, names, n)
  {
    hide EdgesOk, Parents, Distinct, Sources;
    var fs, th := Grown(es, k, c), GrownShape(sh, k, |es[k]|, s, n);
    forall i | 0 <= i < n
      ensures th.ends[i] < |fs| && th.labels[th.ends[i]] == names[i] && fs[th.ends[i]] == [Edge(ByteAt(i), 0)]
    {
      assert Terminal(es[sh.ends[i]]);
    }
  }

  lemma SourcesGrow(sh: Shape, k: nat, y: nat, names: seq<name>, n: nat, m: nat)
    requires |sh.via| == |sh.labels| && Sources(sh, names, n, m) && Distinct(sh.labels)
    requires n < |names| && m < |names[n]| && names[n][..m + 1] !in sh.labels
    ensures var th := GrownShape(sh, k, y, names[n][..m + 1], n); Sources(th, names, n, m + 1) && Distinct(th.labels)
  {}

  /** An unseen character opens a new state. */
  lemma StepNew(es: seq<seq<Edge>>, sh: Shape, names: seq<name>, n: nat, m: nat, k: nat)
    requires Usable(names) && At(es, sh, names, n, m, k) && m < |names[n]|
    requires forall y | 0 <= y < |es[k]| :: es[k][y].c != names[n][m]
    ensures At(Grown(es, k, names[n][m]), GrownShape(sh, k, |es[k]|, names[n][..m + 1], n), names, n, m + 1, |es|)
  {
    hide EdgesOk, Parents, Ends, Marks, Terminal, Inner, Seven, Sources, Distinct, PrefixFree;
    var c, s := names[n][m], names[n][..m + 1];
    NotDoneYet(es, sh, names, n, m, k);
    NewLabel(es, sh, names, n, m, k);
    assert s == sh.labels[k] + [c];
    GrowEdges(es, sh.labels, k, c);
    GrowParents(es, sh, k, c, s, n);
    GrowEnds(es, sh, names, n, m, k, c, s);
    SourcesGrow(sh, k, |es[k]|, names, n, m);
    var fs := Grown(es, k, c);
    forall j | 0 <= j < |es|
      ensures fs[j] != []
    {
      if j != k {
        assert es[j] != [];
      }
    }
  }

  /** An option past the end of name n lies on another name. */
  lemma OptionVia(es: seq<seq<Edge>>, sh: Shape, names: seq<name>, n: nat, k: nat)
    requires n < |names| && At(es, sh, names, n, |names[n]|, k) && Inner(es[k], sh.labels, k) && es[k] != []
    ensures var j := es[k][0].to;
      j < |sh.via| && sh.via[j] < |names| && sh.via[j] != n && names[n] <= names[sh.via[j]]
  {
    hide EdgesOk, Parents, Ends, Marks, Distinct;
    var j := es[k][0].to;
    assert |sh.labels[j]| == |names[n]| + 1;
  }

  /** The last state of a name has no options, so writing the marker there loses nothing. */
  lemma EndIsFree(es: seq<seq<Edge>>, sh: Shape, names: seq<name>, n: nat, k: nat)
    requires n < |names| && Usable(names) && At(es, sh, names, n, |names[n]|, k)
    ensures es[k] == []
  {
    hide PrefixFree, EdgesOk, Parents, Ends, Marks, Distinct, Sources, Inner;
    NotDoneYet(es, sh, names, n, |names[n]|, k);
    if es[k] != [] {
      OptionVia(es, sh, names, n, k);
      NoPrefix(names, n, sh.via[es[k][0].to]);
    }
  }

  function Ended(es: seq<seq<Edge>>, k: nat, n: nat): seq<seq<Edge>>
    requires k < |es| && n < 256
  {
    es[k := [Edge(ByteAt(n), 0)]]
  }

  lemma EndParents(es: seq<seq<Edge>>, sh: Shape, k: nat, n: nat)
    requires Sized(es, sh) && EdgesOk(es, sh.labels) && Parents(es, sh) && k < |es| && es[k] == [] && n < 128
    ensures var fs := Ended(es, k, n);
      Sized(fs, sh) && EdgesOk(fs, sh.labels) && Parents(fs, sh)
  {
    hide ByteAt;
    var fs := Ended(es, k, n);
    forall j | 0 < j < |fs|
      ensures Hangs(fs, sh, j)
    {
      assert Hangs(es, sh, j);
    }
    forall j | 0 <= j < |fs|
      ensures Terminal(fs[j]) || Inner(fs[j], sh.labels, j)
    {
      assert Terminal(es[j]) || Inner(es[j], sh.labels, j);
    }
  }

  lemma Finish(es: seq<seq<Edge>>, sh: Shape, names: seq<name>, n: nat, k: nat)
    requires n < |names| && Usable(names) && At(es, sh, names, n, |names[n]|, k)
    ensures Tree(Ended(es, k, n), sh.(ends := sh.ends + [k]), names, n + 1, 0)
    ensures forall j | 0 <= j < |es| :: Ended(es, k, n)[j] != []
  {
    hide EdgesOk, Parents, PrefixFree, Ends, Marks, Distinct;
    EndIsFree(es, sh, names, n, k);
    EndParents(es, sh, k, n);
    EndMarks(es, sh, names, n, k);
    EndShape(Ended(es, k, n), sh, sh.(ends := sh.ends + [k]));
  }

  lemma EndMarks(es: seq<seq<Edge>>, sh: Shape, names: seq<name>, n: nat, k: nat)
    requires |sh.labels| == |es| && n < |names| <= 128 && k < |es| && es[k] == [] && sh.labels[k] == names[n]
    requires Ends(es, sh, names, n) && Marks(es, sh, names, n)
    ensures Ends(Ended(es, k, n), sh.(ends := sh.ends + [k]), names, n + 1)
    ensures Marks(Ended(es, k, n), sh.(ends := sh.ends + [k]), names, n + 1)
  {
    hide Index, ByteAt, Terminal;
    IndexByteAt(n);
    var fs, th := Ended(es, k, n), sh.(ends := sh.ends + [k]);
    forall i | 0 <= i < n + 1
      ensures th.ends[i] < |fs| && th.labels[th.ends[i]] == names[i] && fs[th.ends[i]] == [Edge(ByteAt(i), 0)]
    {
      if i < n {
        assert sh.ends[i] != k;
      }
    }
    forall j | 0 <= j < |fs| && Terminal(fs[j])
      ensures fs[j] != [] && Index(fs[j][0].c) < n + 1 && th.labels[j] == names[Index(fs[j][0].c)]
    {
      TerminalHas(fs[j]);
      if j != k {
        assert Terminal(es[j]);
      }
    }
  }

  lemma TerminalHas(e: seq<Edge>)
    requires Terminal(e)
    ensures e != []
  {}

  lemma EndShape(es: seq<seq<Edge>>, sh: Shape, th: Shape)
    requires th.labels == sh.labels && th.par == sh.par && th.slot == sh.slot && th.via == sh.via
    requires Sized(es, sh) && EdgesOk(es, sh.labels) && Parents(es, sh)
    ensures Sized(es, th) && EdgesOk(es, th.labels) && Parents(es, th)
  {
    forall j | 0 < j < |es|
      ensures Hangs(es, th, j)
    {
      assert Hangs(es, sh, j);
    }
  }
}
