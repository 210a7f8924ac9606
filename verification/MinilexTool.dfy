/** The main program of minilex: its global state table, the growing trie and the emission of the byte table. */
module MinilexTool {
  import opened Words
  import opened Options
  import opened Lextable
  import opened SevenBit
  import opened Minilex
  import opened MinilexTable

  const PARALLEL: nat := 30
  const STATES: nat := 1000

  // ----- the sizes the fixed arrays allow, in terms of the names

  ghost function Prefixes(names: seq<name>): set<name> {
    set i, m | 0 <= i < |names| && 0 <= m <= |names[i]| :: names[i][..m]
  }

  ghost function Nexts(names: seq<name>, p: name): set<byte> {
    set i, m | 0 <= i < |names| && 0 <= m < |names[i]| && names[i][..m] == p :: names[i][m]
  }

  ghost predicate Small(names: seq<name>) {
    && |Prefixes(names)| <= STATES
    && forall p | p in Prefixes(names) :: |Nexts(names, p)| <= PARALLEL
  }

  lemma {:induction false} DistinctFit<T>(s: seq<T>, all: set<T>)
    requires Distinct(s) && forall i | 0 <= i < |s| :: s[i] in all
    ensures |s| <= |all|
    decreases |s|
  {
    if s != [] {
      var last := s[|s| - 1];
      DistinctFit(s[..|s| - 1], all - {last});
    }
  }

  function Members<T(==)>(s: seq<T>): set<T> {
    set x | x in s
  }

  lemma {:induction false} DistinctCount<T>(s: seq<T>)
    requires Distinct(s)
    ensures |Members(s)| == |s|
    decreases |s|
  {
    if s != [] {
      var last := s[|s| - 1];
      DistinctCount(s[..|s| - 1]);
      assert Members(s) == Members(s[..|s| - 1]) + {last};
    }
  }

  lemma IsPrefix(names: seq<name>, i: nat, m: nat)
    requires i < |names| && m <= |names[i]|
    ensures names[i][..m] in Prefixes(names)
  {}

  lemma LabelIsPrefix(sh: Shape, names: seq<name>, n: nat, m: nat, k: nat)
    requires |sh.via| == |sh.labels| && Sources(sh, names, n, m) && k < |sh.labels|
    ensures sh.labels[k] in Prefixes(names)
  {
    var i := sh.via[k];
    assert sh.labels[k] == names[i][..|sh.labels[k]|];
    IsPrefix(names, i, |sh.labels[k]|);
  }

  /** There is room for another state when the next prefix is new. */
  lemma StatesFit(es: seq<seq<Edge>>, sh: Shape, names: seq<name>, n: nat, m: nat, k: nat)
    requires Usable(names) && Small(names) && At(es, sh, names, n, m, k) && m < |names[n]|
    requires forall y | 0 <= y < |es[k]| :: es[k][y].c != names[n][m]
    ensures |es| < STATES
  {
    hide Prefixes, Nexts, EdgesOk, Parents, Ends, Sources, Marks, PrefixFree;
    NewLabel(es, sh, names, n, m, k);
    IsPrefix(names, n, m + 1);
    forall j | 0 <= j < |sh.labels|
      ensures sh.labels[j] in Prefixes(names)
    {
      LabelIsPrefix(sh, names, n, m, j);
    }
    DistinctFit(sh.labels + [names[n][..m + 1]], Prefixes(names));
  }

  lemma IsNext(names: seq<name>, i: nat, m: nat)
    requires i < |names| && m < |names[i]|
    ensures names[i][m] in Nexts(names, names[i][..m])
  {}

  lemma OptionIsNext(es: seq<seq<Edge>>, sh: Shape, names: seq<name>, n: nat, m: nat, k: nat, y: nat)
    requires Sized(es, sh) && Sources(sh, names, n, m) && k < |es| && Inner(es[k], sh.labels, k) && y < |es[k]|
    ensures es[k][y].c in Nexts(names, sh.labels[k])
  {
    hide Nexts;
    var j := es[k][y].to;
    var i, len := sh.via[j], |sh.labels[k]|;
    assert sh.labels[j][..len] == sh.labels[k] && sh.labels[j][len] == es[k][y].c;
    assert names[i][..len] == sh.labels[j][..len] && names[i][len] == sh.labels[j][len];
    IsNext(names, i, len);
  }

  /** There is room for another option in the state. */
  lemma OptionsFit(es: seq<seq<Edge>>, sh: Shape, names: seq<name>, n: nat, m: nat, k: nat)
    requires Usable(names) && Small(names) && At(es, sh, names, n, m, k) && m < |names[n]|
    requires forall y | 0 <= y < |es[k]| :: es[k][y].c != names[n][m]
    ensures |es[k]| < PARALLEL
  {
    hide Prefixes, Nexts, EdgesOk, Parents, Ends, Sources, Marks, PrefixFree, Distinct;
    NotDoneYet(es, sh, names, n, m, k);
    IsPrefix(names, n, m);
    var cs := seq(|es[k]|, y requires 0 <= y < |es[k]| => es[k][y].c) + [names[n][m]];
    forall y | 0 <= y < |cs|
      ensures cs[y] in Nexts(names, names[n][..m])
    {
      if y < |es[k]| {
        OptionIsNext(es, sh, names, n, m, k, y);
      } else {
        IsNext(names, n, m);
      }
    }
    CharsDistinct(es[k], sh.labels, k, cs);
    DistinctFit(cs, Nexts(names, names[n][..m]));
  }

  lemma CharsDistinct(e: seq<Edge>, labels: seq<name>, k: nat, cs: seq<byte>)
    requires k < |labels| && Inner(e, labels, k) && |cs| == |e| + 1
    requires forall y | 0 <= y < |e| :: cs[y] == e[y].c && e[y].c != cs[|e|]
    ensures Distinct(cs)
  {}

  // ----- how many options the trie has

  lemma {:induction false} RowsSame(es: seq<seq<Edge>>, fs: seq<seq<Edge>>, k: nat)
    requires k <= |es| && k <= |fs| && forall j | 0 <= j < k :: |es[j]| == |fs[j]|
    ensures Rows(es, k) == Rows(fs, k)
    decreases k
  {
    if k > 0 {
      RowsSame(es, fs, k - 1);
    }
  }

  lemma {:induction false} RowsChange(es: seq<seq<Edge>>, fs: seq<seq<Edge>>, k: nat, j: nat)
    requires k < j <= |es| && |es| <= |fs| && |fs[k]| == |es[k]| + 1
    requires forall i | 0 <= i < |es| && i != k :: |es[i]| == |fs[i]|
    ensures Rows(fs, j) == Rows(es, j) + 1
    decreases j
  {
    if k == j - 1 {
      RowsSame(es, fs, k);
    } else {
      RowsChange(es, fs, k, j - 1);
    }
  }

  /** Every state but the root hangs from one option, and every finished name has one marker. */
  predicate Counted(es: seq<seq<Edge>>, n: nat) {
    Rows(es, |es|) + 1 == |es| + n
  }

  lemma CountGrown(es: seq<seq<Edge>>, k: nat, c: byte, n: nat)
    requires k < |es| && Counted(es, n)
    ensures Counted(Grown(es, k, c), n)
  {
    RowsChange(es, Grown(es, k, c), k, |es|);
  }

  lemma CountEnded(es: seq<seq<Edge>>, k: nat, n: nat)
    requires k < |es| && n < 256 && es[k] == [] && Counted(es, n)
    ensures Counted(Ended(es, k, n), n + 1)
  {
    hide ByteAt;
    RowsChange(es, Ended(es, k, n), k, |es|);
  }

  /** The states are exactly the prefixes of the names. */
  lemma StatesArePrefixes(es: seq<seq<Edge>>, sh: Shape, names: seq<name>)
    requires Tree(es, sh, names, |names|, 0)
    ensures |es| == |Prefixes(names)|
  {
    hide EdgesOk, Parents, Ends, Marks, Sources, Prefixes;
    var all := Members(sh.labels);
    forall x
      ensures x in Prefixes(names) <==> x in all
    {
      if x in all {
        var k :| 0 <= k < |sh.labels| && sh.labels[k] == x;
        LabelIsPrefix(sh, names, |names|, 0, k);
      }
      if x in Prefixes(names) {
        var i, m := PrefixOf(names, x);
        var k := PrefixState(es, sh, names, i, m);
      }
    }
    assert all == Prefixes(names);
    DistinctCount(sh.labels);
  }

  lemma PrefixOf(names: seq<name>, x: name) returns (i: nat, m: nat)
    requires x in Prefixes(names)
    ensures i < |names| && m <= |names[i]| && names[i][..m] == x
  {
    i, m :| i < |names| && m <= |names[i]| && names[i][..m] == x;
  }

  /** The fresh state table: only the root, without options. */
  const START := Shape([[]], [0], [0], [0], [])

  lemma StartAt(names: seq<name>)
    requires Usable(names)
    ensures At([[]], START, names, 0, 0, 0) && Counted([[]], 0)
  {
    hide PrefixFree;
    assert Rows([[]], 1) == Rows([[]], 0) + 0;
  }

  class Lexer {
    /** The c, state and count fields of the C array state[], and its bytepos fields. */
    const edges: array<seq<Edge>>
    const bytepos: array<nat>
    var next: nat
    ghost var sh: Shape

    ghost predicate Sane()
      reads this, edges
    {
      && edges.Length == STATES && bytepos.Length == STATES && 1 <= next <= STATES
      && forall k | next <= k < STATES :: edges[k] == []
    }

    ghost function Es(): seq<seq<Edge>>
      reads this, edges
      requires next <= edges.Length
    {
      edges[..next]
    }

    constructor ()
      ensures Sane() && Es() == [[]] && sh == START && fresh(edges) && fresh(bytepos)
    {
      edges := new seq<Edge>[STATES](_ => []);
      bytepos := new nat[STATES](_ => 0);
      next := 1;
      sh := START;
    }

    /** The search among the options of a state. */
    method Find(walk: nat, c: byte) returns (to: Option<nat>)
      requires walk < edges.Length
      ensures to.Some? ==> exists y | 0 <= y < |edges[walk]| :: edges[walk][y].c == c && edges[walk][y].to == to.value
      ensures to.None? ==> forall y | 0 <= y < |edges[walk]| :: edges[walk][y].c != c
    {
      for y := 0 to |edges[walk]|
        invariant forall x | 0 <= x < y :: edges[walk][x].c != c
      {
        if edges[walk][y].c == c {
          return Some(edges[walk][y].to);
        }
      }
      return None;
    }

    /** state[walk].c[count] = c; state[walk].state[count] = next; count++; next++ */
    method Grow(walk: nat, c: byte, ghost s: name, ghost n: nat)
      requires Sane() && walk < next < STATES && |edges[walk]| < PARALLEL
      modifies this, edges
      ensures Sane() && Es() == Grown(old(Es()), walk, c) && next == old(next) + 1
      ensures sh == GrownShape(old(sh), walk, |old(edges[walk])|, s, n)
    {
      sh := GrownShape(sh, walk, |edges[walk]|, s, n);
      edges[walk] := edges[walk] + [Edge(c, next)];
      next := next + 1;
    }

    /** One character of a name: an option that exists is followed, a new one opens a state. */
    method Step(names: seq<name>, n: nat, m: nat, walk: nat) returns (to: nat)
      requires Sane() && Usable(names) && Small(names) && At(Es(), sh, names, n, m, walk) && m < |names[n]|
      requires Counted(Es(), n)
      modifies this, edges
      ensures Sane() && At(Es(), sh, names, n, m + 1, to) && Counted(Es(), n)
    {
      hide At, Small, PrefixFree, Counted, Grown;
      WalkInside(Es(), sh, names, n, m, walk);
      assert Es()[walk] == edges[walk];
      var found := Find(walk, names[n][m]);
      if found.Some? {
        ghost var y :| 0 <= y < |edges[walk]| && edges[walk][y] == Edge(names[n][m], found.value);
        StepSeen(Es(), sh, names, n, m, walk, y);
        to := found.value;
      } else {
        StepNew(Es(), sh, names, n, m, walk);
        CountGrown(Es(), walk, names[n][m], n);
        StatesFit(Es(), sh, names, n, m, walk);
        OptionsFit(Es(), sh, names, n, m, walk);
        to := next;
        Grow(walk, names[n][m], names[n][..m + 1], n);
      }
    }

    /** All characters of name n, and its marker, which overwrites whatever the last state held. */
    method AddName(names: seq<name>, n: nat)
      requires Sane() && Usable(names) && Small(names) && At(Es(), sh, names, n, 0, 0) && Counted(Es(), n)
      modifies this, edges
      ensures Sane() && Tree(Es(), sh, names, n + 1, 0) && Counted(Es(), n + 1)
      ensures forall j | 0 <= j < next :: Es()[j] != []
    {
      hide At, Small, PrefixFree, Counted, Tree;
      WalkInside(Es(), sh, names, n, 0, 0);
      var walk: nat, m: nat := 0, 0;
      while m < |names[n]|
        invariant Sane() && m <= |names[n]| && At(Es(), sh, names, n, m, walk) && Counted(Es(), n)
      {
        walk := Step(names, n, m, walk);
        m := m + 1;
      }
      WalkInside(Es(), sh, names, n, m, walk);
      EndIsFree(Es(), sh, names, n, walk);
      Finish(Es(), sh, names, n, walk);
      CountEnded(Es(), walk, n);
      ghost var es := Es();
      sh := sh.(ends := sh.ends + [walk]);
      edges[walk] := [Edge(ByteAt(n), 0)];
      assert Es() == Ended(es, walk, n);
    }

    /** The two nested loops that read the name set. */
    method Build(names: seq<name>)
      requires Sane() && Es() == [[]] && sh == START && Usable(names) && Small(names)
      modifies this, edges
      ensures Sane() && Tree(Es(), sh, names, |names|, 0) && Counted(Es(), |names|)
      ensures forall j | 0 <= j < next :: Es()[j] != []
    {
      hide Small, PrefixFree, Counted, Tree;
      StartAt(names);
      var n := 0;
      while n < |names|
        invariant n <= |names| && Sane() && Counted(Es(), n)
        invariant n < |names| ==> At(Es(), sh, names, n, 0, 0)
        invariant n > 0 ==> Tree(Es(), sh, names, n, 0) && forall j | 0 <= j < next :: Es()[j] != []
      {
        AddName(names, n);
        n := n + 1;
        if n < |names| {
          NextName(Es(), sh, names, n);
        }
      }
    }

    /** walk counts two bytes per option. */
    method Layout()
      requires Sane()
      modifies bytepos
      ensures forall k | 0 <= k < next :: bytepos[k] == 2 * Rows(Es(), k)
    {
      hide Rows;
      var walk := 0;
      RowsStart(Es());
      for n := 0 to next
        invariant walk == 2 * Rows(Es(), n)
        invariant forall k | 0 <= k < n :: bytepos[k] == 2 * Rows(Es(), k)
      {
        RowsNext(Es(), n);
        bytepos[n] := walk;
        walk := walk + 2 * |edges[n]|;
      }
    }

    /** One printed pair of bytes, or None when the jump does not fit a byte. */
    method Row(n: nat, m: nat, walk: nat) returns (row: Option<(byte, byte)>)
      requires Sane() && Forward(Es()) && n < next && m < |edges[n]| && walk == 2 * (Rows(Es(), n) + m)
      requires forall k | 0 <= k < next :: bytepos[k] == 2 * Rows(Es(), k)
      ensures row.Some? <==> Jump(Es(), n, m) < 256
      ensures row.Some? ==> Jump(Es(), n, m) >= 0 && row.value == (Head(Es()[n], m), ByteAt(Jump(Es(), n, m)))
    {
      hide Rows, ByteAt;
      assert edges[n] == Es()[n] && edges[n][m].to < next;
      var y := edges[n][m].c;
      var saw := edges[n][m].to;
      if m == |edges[n]| - 1 {
        y := WithTop(y);
      }
      if saw == 0 {
        row := Some((y, ByteAt(0)));
      } else {
        JumpForward(Es(), n, m);
        var delta := (bytepos[saw] - walk) / 2;
        row := if delta > 0xff then None else Some((y, ByteAt(delta)));
      }
    }

    /** The printing loops; false is the early return for a jump that is too long. */
    method Emit() returns (ok: bool, out: seq<byte>)
      requires Sane() && Forward(Es()) && forall k | 0 <= k < next :: Es()[k] != []
      requires forall k | 0 <= k < next :: bytepos[k] == 2 * Rows(Es(), k)
      ensures ok <==> Fits(Es())
      ensures ok ==> Emitted(Es(), out) && Closed(out)
    {
      hide Rows, Head, Index, ByteAt, Forward, RowOk, Jump;
      ghost var es := Es();
      out := [];
      RowsStart(es);
      for n := 0 to next
        invariant |out| == 2 * Rows(es, n) && Before(es, out, n, 0) && Safe(out, 2 * Rows(es, next))
      {
        RowsNext(es, n);
        for m := 0 to |edges[n]|
          invariant |out| == 2 * (Rows(es, n) + m) && Before(es, out, n, m) && Safe(out, 2 * Rows(es, next))
        {
          var row := Row(n, m, |out|);
          if row.None? {
            return false, out;
          }
          RowSafe(es, n, m);
          ghost var old_out := out;
          out := out + [row.value.0, row.value.1];
          BeforeNext(es, old_out, out, n, m);
          SafeNext(old_out, row.value.0, row.value.1, 2 * Rows(es, next));
        }
        BeforeWrap(es, out, n);
      }
      AllEmitted(es, out);
      ok := true;
    }
  }

  /** All jumps span at most 510 bytes. */
  predicate Fits(es: seq<seq<Edge>>)
    requires Forward(es)
  {
    forall k, y | 0 <= k < |es| && 0 <= y < |es[k]| :: Jump(es, k, y) < 256
  }

  /** The rows before option m of state n are in place. */
  predicate Before(es: seq<seq<Edge>>, out: seq<byte>, n: nat, m: nat)
    requires Forward(es)
  {
    forall k, y | 0 <= k < |es| && 0 <= y < |es[k]| && (k < n || (k == n && y < m)) :: RowAt(es, out, k, y)
  }

  predicate Safe(out: seq<byte>, total: nat) {
    |out| % 2 == 0 && forall p | 0 <= p && p + 1 < |out| && p % 2 == 0 :: RowOk(out[p], out[p + 1], p, total)
  }

  lemma BeforeNext(es: seq<seq<Edge>>, out: seq<byte>, more: seq<byte>, n: nat, m: nat)
    requires Forward(es) && n < |es| && m < |es[n]| && Before(es, out, n, m) && |out| == 2 * (Rows(es, n) + m)
    requires 0 <= Jump(es, n, m) < 256 && more == out + [Head(es[n], m), ByteAt(Jump(es, n, m))]
    ensures Before(es, more, n, m + 1)
  {
    hide Rows, Head, ByteAt, Jump;
    forall k, y | 0 <= k < |es| && 0 <= y < |es[k]| && (k < n || (k == n && y < m + 1))
      ensures RowAt(es, more, k, y)
    {
      if k < n || y < m {
        assert RowAt(es, out, k, y);
      }
    }
  }

  lemma BeforeWrap(es: seq<seq<Edge>>, out: seq<byte>, n: nat)
    requires Forward(es) && n < |es| && Before(es, out, n, |es[n]|)
    ensures Before(es, out, n + 1, 0)
  {
    hide RowAt;
  }

  lemma AllEmitted(es: seq<seq<Edge>>, out: seq<byte>)
    requires Forward(es) && Before(es, out, |es|, 0) && |out| == 2 * Rows(es, |es|) && Safe(out, |out|)
    ensures Emitted(es, out) && Closed(out) && Fits(es)
  {
    hide Rows, RowOk, Head, Jump;
    forall k, y | 0 <= k < |es| && 0 <= y < |es[k]|
      ensures Jump(es, k, y) < 256
    {
      assert RowAt(es, out, k, y);
    }
  }

  lemma SafeNext(out: seq<byte>, c: byte, jump: byte, total: nat)
    requires Safe(out, total) && RowOk(c, jump, |out|, total)
    ensures Safe(out + [c, jump], total)
  {
    hide RowOk;
    var more := out + [c, jump];
    forall p | 0 <= p && p + 1 < |more| && p % 2 == 0
      ensures RowOk(more[p], more[p + 1], p, total)
    {
      if p < |out| {
        assert p + 1 < |out|;
      }
    }
  }

  /** Each row stays inside the table, and so does its jump. */
  lemma RowSafe(es: seq<seq<Edge>>, n: nat, m: nat)
    requires Forward(es) && n < |es| && m < |es[n]| && 0 <= Jump(es, n, m) < 256
    requires forall k | 0 <= k < |es| :: es[k] != []
    ensures RowOk(Head(es[n], m), ByteAt(Jump(es, n, m)), 2 * (Rows(es, n) + m), 2 * Rows(es, |es|))
  {
    hide Rows, ByteAt, WithTop, TopBit, Index;
    IndexByteAt(Jump(es, n, m));
    RowsGrow(es, n, |es|);
    LastMarked(es[n][m].c);
    RowsGrow(es, es[n][m].to, |es|);
  }

  lemma LastMarked(c: byte)
    ensures TopBit(WithTop(c))
  {}

  lemma RowsStart(es: seq<seq<Edge>>)
    ensures Rows(es, 0) == 0
  {}

  lemma RowsNext(es: seq<seq<Edge>>, k: nat)
    requires k < |es|
    ensures Rows(es, k + 1) == Rows(es, k) + |es[k]|
  {}

  lemma WalkInside(es: seq<seq<Edge>>, sh: Shape, names: seq<name>, n: nat, m: nat, k: nat)
    requires At(es, sh, names, n, m, k)
    ensures n < |names| && k < |es|
  {}

  lemma NextName(es: seq<seq<Edge>>, sh: Shape, names: seq<name>, n: nat)
    requires Tree(es, sh, names, n, 0) && n < |names| && forall j | 0 <= j < |es| :: es[j] != []
    ensures At(es, sh, names, n, 0, 0)
  {
    hide EdgesOk, Ends, Marks, Sources, Distinct;
    RootLabel(es, sh);
  }

  // ----- the whole tool

  lemma JumpsFit(es: seq<seq<Edge>>)
    requires Forward(es) && Rows(es, |es|) <= 256 && forall k | 0 <= k < |es| :: es[k] != []
    ensures Fits(es)
  {
    hide Rows;
    forall k, y | 0 <= k < |es| && 0 <= y < |es[k]|
      ensures Jump(es, k, y) < 256
    {
      RowsGrow(es, es[k][y].to, |es|);
    }
  }

  /** Compiles a prefix-free set of names.  The table then recognises exactly these names, wherever a walk starts
      at its first byte; its size is two bytes for every prefix but the empty one and for every name.  Compilation
      gives up only when a jump would be too long, never on sets that need at most 256 options. */
  method Compile(names: seq<name>) returns (ok: bool, table: seq<byte>)
    requires Usable(names) && Small(names)
    ensures ok ==> Closed(table) && Place(table, 0)
    ensures ok ==> forall s, i: nat :: Run(table, 0, s) == Some(i) <==> s != [] && i < |names| && names[i] <= s
    ensures ok ==> forall p: nat | Place(table, p) && table[p + 1] == 0 :: Index(Low7(table[p])) < |names|
    ensures ok ==> |table| == 2 * (|Prefixes(names)| - 1 + |names|)
    ensures |Prefixes(names)| - 1 + |names| <= 256 ==> ok
  {
    hide Small, Prefixes, PrefixFree, Run, EdgesOk, Parents, Ends, Marks, Sources, Distinct, Emitted, Closed, Fits,
         Rows, Low7, Index;
    var lexer := new Lexer();
    lexer.Build(names);
    lexer.Layout();
    ghost var es, sh := lexer.Es(), lexer.sh;
    TreeForward(es, sh, names, |names|, 0);
    StatesArePrefixes(es, sh, names);
    if |Prefixes(names)| - 1 + |names| <= 256 {
      JumpsFit(es);
    }
    ok, table := lexer.Emit();
    if ok {
      EmittedRows(es, table);
      forall p: nat | Place(table, p) && table[p + 1] == 0
        ensures Index(Low7(table[p])) < |names|
      {
        MarkersNamed(es, sh, names, table, p);
      }
      forall s, i: nat
        ensures Place(table, 0)
        ensures Run(table, 0, s) == Some(i) <==> s != [] && i < |names| && names[i] <= s
      {
        Recognises(es, sh, names, table, s, i);
      }
    }
  }
}
