/** The header parser of parsers.c working on its arena: libwebsocket_parse, lws_hdr_total_length, lws_hdr_copy. */
module HeaderParser {
  import opened Words
  import opened Options
  import opened SevenBit
  import opened Lextable
  import opened Headers
  import opened HeaderLines
  import opened HeaderStore

  /** A chain skips the fragments of other tokens. */
  lemma {:induction false} ValueSkips(frs: seq<Frag>, k: nat, token: nat)
    requires k <= |frs|
    ensures ValueFrom(frs, k, token)
      == match From(frs, k, token) case None => [] case Some(j) => frs[j].text + ValueFrom(frs, j + 1, token)
    decreases |frs| - k
  {
    if k < |frs| && frs[k].owner != token {
      ValueSkips(frs, k + 1, token);
      assert [] + ValueFrom(frs, k + 1, token) == ValueFrom(frs, k + 1, token);
    }
  }

  lemma LengthSkips(frs: seq<Frag>, k: nat, token: nat)
    requires k <= |frs|
    ensures |ValueFrom(frs, k, token)|
      == match From(frs, k, token) case None => 0 case Some(j) => |frs[j].text| + |ValueFrom(frs, j + 1, token)|
  {
    hide From, ValueFrom;
    ValueSkips(frs, k, token);
  }

  lemma LenIs(fr: seq<Fragment>, frs: seq<Frag>, k: nat)
    requires Layout(fr, frs) && k < |frs|
    ensures fr[k + 1].len == |frs[k].text| && fr[k + 1].offset == Used(frs[..k])
  {
    hide Used;
  }

  predicate NulFree(frs: seq<Frag>) {
    forall k | 0 <= k < |frs| :: 0 !in frs[k].text
  }

  /** A walk over the chain of token h stands at fragment n, with v[..to] behind it. */
  predicate WalkAt(frs: seq<Frag>, v: seq<byte>, to: nat, n: nat, h: nat) {
    && to <= |v|
    && if n == 0 then to == |v|
       else n <= |frs| && frs[n - 1].owner == h && v == v[..to] + (frs[n - 1].text + ValueFrom(frs, n, h))
  }

  lemma WalkNext(frs: seq<Frag>, v: seq<byte>, to: nat, n: nat, h: nat)
    requires n != 0 && WalkAt(frs, v, to, n, h)
    ensures n <= |frs| && frs[n - 1].owner == h
    ensures var len := |frs[n - 1].text|;
      && to + len <= |v| && v[to..to + len] == frs[n - 1].text
      && WalkAt(frs, v, to + len, Link(From(frs, n, h)), h)
  {
    hide From, ValueFrom;
    var rest := ValueFrom(frs, n, h);
    NextPart(v, to, frs[n - 1].text, rest);
    ValueSkips(frs, n, h);
  }

  class Table {
    const table: seq<byte>
    const frags: array<Fragment>
    const fragIndex: array<nat>
    const data: array<byte>
    var nextFrag: nat
    var pos: nat
    var state: PState
    /** The fragments that have been started, fragment k + 1 of the table being frs[k]. */
    ghost var frs: seq<Frag>

    ghost predicate Shaped()
      reads this`nextFrag, this`frs, frags, fragIndex, data
    {
      && frags.Length == MAX_FRAGS && fragIndex.Length == TOKENS && data.Length == ARENA
      && nextFrag == |frs| < MAX_FRAGS && Layout(frags[..], frs) && Links(frags[..], fragIndex[..], frs)
    }

    ghost function Repr(): set<object> { {this, frags, fragIndex, data} }

    ghost function View(): Hdr
      reads this
    {
      Hdr(state, frs)
    }

    ghost predicate Valid()
      reads this, frags, fragIndex, data
    {
      && Shaped() && Sound(table, View()) && Place(table, 0) && pos == Pos(View())
      && Texts(data[..], frs, state.Value?)
    }

    /** lws_allocate_header_table, and the state libwebsocket_read sets before the first character. */
    constructor (table: seq<byte>)
      requires Sound(table, START) && Place(table, 0)
      ensures Valid() && View() == START && this.table == table && fresh(frags) && fresh(fragIndex) && fresh(data)
    {
      this.table := table;
      frags := new Fragment[MAX_FRAGS](_ => Fragment(0, 0, 0));
      fragIndex := new nat[TOKENS](_ => 0);
      data := new byte[ARENA](_ => 0);
      nextFrag, pos, state, frs := 0, 0, NamePart(0), [];
    }

    /** data[pos++] = c, which is a character of the last fragment. */
    method StoreChar(c: byte)
      requires Shaped() && frs != [] && Texts(data[..], frs, true) && pos == Used(frs) - 1 && pos < ARENA
      modifies this`pos, this`frs, frags, data
      ensures Shaped() && frs == Longer(old(frs), c) && Texts(data[..], frs, true)
      ensures pos == old(pos) + 1 == Used(frs) - 1
    {
      hide Used, Longer, Layout, Links, Texts;
      UsedLonger(frs, c);
      LongerOwner(frs, c);
      LayoutLonger(frags[..], frs, c);
      LinksLonger(frags[..], fragIndex[..], frs, c);
      TextsLonger(data[..], frs, c);
      ghost var fr, d := frags[..], data[..];
      data[pos] := c;
      pos := pos + 1;
      frags[nextFrag] := frags[nextFrag].(len := frags[nextFrag].len + 1);
      assert frags[..] == fr[nextFrag := fr[nextFrag].(len := fr[nextFrag].len + 1)];
      assert data[..] == d[pos - 1 := c];
      frs := Longer(frs, c);
    }

    /** data[pos++] = 0 behind the last fragment. */
    method StoreEnd()
      requires Shaped() && frs != [] && Texts(data[..], frs, true) && pos == Used(frs) - 1 && pos < ARENA
      modifies this`pos, data
      ensures Shaped() && Texts(data[..], frs, false) && pos == old(pos) + 1 == Used(frs)
    {
      hide Used, Layout, Links, Texts;
      TextsEnd(data[..], frs);
      ghost var d := data[..];
      data[pos] := 0;
      pos := pos + 1;
      assert data[..] == d[pos - 1 := 0];
    }

    /** The token states of the switch. */
    method ParseValue(c: byte) returns (ok: bool)
      requires Valid() && state.Value?
      modifies this`pos, this`frs, this`state, frags, data
      ensures Place(table, 0) && Does(Step(table, old(View()), c), ok)
    {
      hide Used, Longer, Layout, Texts, From, Closed;
      StepKeepsOpt(table, View(), c);
      var token := state.token;
      OwnerHas(frs, |frs| - 1);
      FirstFragment(frags[..], fragIndex[..], frs, token);
      if frags[fragIndex[token]].len == 0 && c == SPACE {
        return true;
      }
      var ends := false;
      if token == GET_URI && c == SPACE {
        ends := true;
        state := Skipping;
      } else if c == CR {
        ends := true;
        state := SawCr;
      }
      if pos == ARENA {
        return false;
      }
      if ends {
        StoreEnd();
      } else {
        StoreChar(c);
      }
      return true;
    }

    /** Walks the chain of a token that has fragments to its last one. */
    method LastOf(token: nat) returns (n: nat)
      requires Shaped() && token < TOKENS && Has(frs, token)
      ensures 1 <= n <= |frs| && frs[n - 1].owner == token && From(frs, n, token).None?
    {
      hide Used, Layout, From;
      LinkIs(frags[..], fragIndex[..], frs, token);
      n := fragIndex[token];
      NextLink(frags[..], fragIndex[..], frs, n - 1);
      while frags[n].next != 0
        invariant 1 <= n <= |frs| && frs[n - 1].owner == token && frags[n].next == Link(From(frs, n, token))
        decreases |frs| - n
      {
        n := frags[n].next;
        NextLink(frags[..], fragIndex[..], frs, n - 1);
      }
    }

    /** start_fragment: */
    method Start(token: nat) returns (ok: bool)
      requires Shaped() && token < NAMES && Texts(data[..], frs, false) && pos == Used(frs) <= ARENA
      modifies this`pos, this`frs, this`nextFrag, frags, fragIndex, data
      ensures ok <==> StartFragment(old(frs), token).Some?
      ensures ok ==> Shaped() && Texts(data[..], frs, true) && pos == Used(frs) - 1
      ensures ok ==> frs == StartFragment(old(frs), token).value.frags
    {
      hide Used, Layout, From, Links, Texts, Longer;
      ghost var before, fr, idx := frs, frags[..], fragIndex[..];
      var next := nextFrag + 1;
      if next == MAX_FRAGS {
        return false;
      }
      LayoutMore(fr, frs, token, 0);
      TextsMore(data[..], frs, token);
      UsedMore(frs, Frag(token, []));
      SlotIs(fr, idx, frs, token);
      var n := fragIndex[token];
      if n == 0 {
        LinkFirst(fr, idx, frs, token, pos);
        frags[next] := Fragment(pos, 0, 0);
        fragIndex[token] := next;
        assert frags[..] == fr[next := Fragment(pos, 0, 0)] && fragIndex[..] == idx[token := next];
        nextFrag, frs := next, frs + [Frag(token, [])];
        return true;
      }
      n := LastOf(token);
      LinkLast(fr, idx, frs, token, pos, n);
      LayoutLinked(fr, frs, token, pos, n);
      frags[next] := Fragment(pos, 0, 0);
      frags[n] := frags[n].(next := next);
      assert frags[..] == fr[next := Fragment(pos, 0, 0)][n := fr[n].(next := next)];
      nextFrag, frs := next, frs + [Frag(token, [])];
      if pos == ARENA {
        return false;
      }
      StoreChar(SPACE);
      LongerNew(before, token);
      return true;
    }

    /** WSI_TOKEN_NAME_PART */
    method ParseName(c: byte) returns (ok: bool)
      requires Valid() && state.NamePart?
      modifies this, frags, fragIndex, data
      ensures Place(table, 0) && Does(Step(table, old(View()), c), ok)
    {
      hide Used, Layout, Links, Texts, From, Closed, Shaped, Low7, Index;
      StepKeepsOpt(table, View(), c);
      ghost var h := View();
      SlotsIs();
      var lex := LextableDecode(table, state.lex, c);
      if lex.None? {
        if fragIndex[GET_URI] != 0 || fragIndex[HTTP] != 0 {
          state := Skipping;
          return true;
        }
        return false;
      }
      if table[lex.value + 1] != 0 {
        state := NamePart(lex.value);
        return true;
      }
      var n := Index(Low7(table[lex.value]));
      if n == GET_URI && fragIndex[GET_URI] != 0 {
        return false;
      }
      if n == SWORIGIN {
        n := ORIGIN;
      }
      if n == CHALLENGE {
        state := Complete;
        return true;
      }
      ok := Start(n);
      state := Value(n);
    }

    lemma SlotsIs()
      requires Shaped()
      ensures fragIndex.Length == TOKENS
      ensures fragIndex[GET_URI] != 0 <==> Has(frs, GET_URI)
      ensures fragIndex[HTTP] != 0 <==> Has(frs, HTTP)
    {
      SlotIs(frags[..], fragIndex[..], frs, GET_URI);
      SlotIs(frags[..], fragIndex[..], frs, HTTP);
    }

    /** libwebsocket_parse */
    method Parse(c: byte) returns (ok: bool)
      requires Valid()
      modifies this, frags, fragIndex, data
      ensures Place(table, 0) && Does(Step(table, old(View()), c), ok)
    {
      hide Used, Shaped, Texts, Closed, StepValue, StepName;
      StepKeepsOpt(table, View(), c);
      match state {
        case Value(_) => ok := ParseValue(c);
        case NamePart(_) => ok := ParseName(c);
        case Skipping =>
          if c == CR {
            state := SawCr;
          }
          return true;
        case SawCr =>
          state := if c == LF then NamePart(0) else Skipping;
          return true;
        case Complete => return true;
      }
    }

    /** lws_hdr_total_length */
    method TotalLength(h: nat) returns (len: nat)
      requires Shaped() && h < TOKENS
      ensures len == |ValueFrom(frs, 0, h)|
    {
      hide From, ValueFrom, Layout, Links;
      LengthSkips(frs, 0, h);
      SlotIs(frags[..], fragIndex[..], frs, h);
      var n := fragIndex[h];
      len := 0;
      if n == 0 {
        return;
      }
      while n != 0
        invariant n <= |frs| && (n != 0 ==> frs[n - 1].owner == h)
        invariant |ValueFrom(frs, 0, h)| == len + if n == 0 then 0 else |frs[n - 1].text| + |ValueFrom(frs, n, h)|
        decreases n != 0, |frs| - n
      {
        NextLink(frags[..], fragIndex[..], frs, n - 1);
        LengthSkips(frs, n, h);
        LenIs(frags[..], frs, n - 1);
        len := len + frags[n].len;
        n := frags[n].next;
      }
    }

    /** strcpy from the start of a fragment */
    method Strcpy(dest: array<byte>, to: nat, n: nat)
      requires Valid() && NulFree(frs) && !state.Value? && dest !in Repr() && 1 <= n <= |frs|
      requires to + |frs[n - 1].text| < dest.Length
      modifies dest
      ensures dest[to..to + |frs[n - 1].text|] == frs[n - 1].text && dest[to + |frs[n - 1].text|] == 0
      ensures dest[..to] == old(dest[..to])
      ensures forall j | to + |frs[n - 1].text| < j < dest.Length :: dest[j] == old(dest[j])
    {
      hide Used, Links, Layout, Sound;
      ghost var text := frs[n - 1].text;
      StringAt(frags[..], data[..], frs, n - 1);
      var from, i := frags[n].offset, 0;
      forall j | 0 <= j < |text|
        ensures data[from + j] == text[j] != 0
      {
        assert text[j] == data[from..from + |text|][j] && text[j] in text;
      }
      while data[from + i] != 0
        invariant i <= |text| && from + |text| < ARENA && dest[to..to + i] == text[..i]
        invariant (forall j | 0 <= j < |text| :: data[from + j] == text[j] != 0) && data[from + |text|] == 0
        invariant dest[..to] == old(dest[..to])
        invariant forall j | to + |text| < j < dest.Length :: dest[j] == old(dest[j])
        decreases |text| - i
      {
        dest[to + i] := data[from + i];
        i := i + 1;
      }
      dest[to + i] := 0;
      assert dest[to..to + i] == text[..i];
    }

    /** lws_hdr_copy between two header lines */
    method Copy(dest: array<byte>, len: int, h: nat) returns (ret: int)
      requires Valid() && NulFree(frs) && !state.Value? && h < TOKENS && dest !in Repr() && len <= dest.Length
      modifies dest
      ensures var v := ValueFrom(frs, 0, h);
        if |v| >= len then ret == -1 && dest[..] == old(dest[..])
        else if !Has(frs, h) then ret == 0 && dest[..] == old(dest[..])
        else ret == |v| && dest[..|v|] == v && dest[|v|] == 0 && dest[|v| + 1..] == old(dest[|v| + 1..])
    {
      hide From, ValueFrom, Valid, Doing;
      ghost var v, before := ValueFrom(frs, 0, h), dest[..];
      ValidShaped();
      var toklen := TotalLength(h);
      if toklen >= len {
        return -1;
      }
      ChainStarts(h);
      if fragIndex[h] == 0 {
        return 0;
      }
      CopyChain(dest, h, v);
      assert dest[..|v|] == v;
      assert dest[|v| + 1..] == before[|v| + 1..];
      return toklen;
    }

    ghost predicate Copied(dest: array<byte>, v: seq<byte>, to: nat)
      reads dest
    {
      to <= |v| < dest.Length && forall j | 0 <= j < to :: dest[j] == v[j]
    }

    /** One round of the loop of lws_hdr_copy. */
    method CopyNext(dest: array<byte>, h: nat, to: nat, n: nat, ghost v: seq<byte>) returns (to1: nat, n1: nat)
      requires Valid() && NulFree(frs) && !state.Value? && dest !in Repr() && n != 0 && Doing(v, to, n, h)
      requires Copied(dest, v, to)
      modifies dest
      ensures Valid() && Doing(v, to1, n1, h) && (n1 == 0 || n < n1 <= |frs|)
      ensures Copied(dest, v, to1) && dest[to1] == 0
      ensures forall j | |v| < j < dest.Length :: dest[j] == old(dest[j])
    {
      hide Valid, Doing, Shaped, WalkAt;
      ValidShaped();
      ChainGoes(v, to, n, h);
      to1 := to + frags[n].len;
      n1 := frags[n].next;
      CopyPart(dest, to, n, v);
    }

    /** The loop of lws_hdr_copy. */
    method CopyChain(dest: array<byte>, h: nat, ghost v: seq<byte>)
      requires Valid() && NulFree(frs) && !state.Value? && h < TOKENS && dest !in Repr() && v == ValueFrom(frs, 0, h)
      requires |v| < dest.Length
      requires Has(frs, h)
      modifies dest
      ensures dest[|v|] == 0 && Copied(dest, v, |v|)
      ensures forall j | |v| < j < dest.Length :: dest[j] == old(dest[j])
    {
      hide From, ValueFrom, Valid, Doing, Repr;
      ValidShaped();
      ChainStarts(h);
      var n, to: nat := fragIndex[h], 0;
      while n != 0
        invariant Valid() && Doing(v, to, n, h) && Copied(dest, v, to)
        invariant n == 0 ==> dest[to] == 0
        invariant forall j | |v| < j < dest.Length :: dest[j] == old(dest[j])
        decreases n != 0, |frs| - n
      {
        to, n := CopyNext(dest, h, to, n, v);
      }
      DoneAll(v, to, h);
    }

    lemma ValidSound()
      requires Valid()
      ensures Sound(table, View()) && Place(table, 0)
    {}

    lemma ValidShaped()
      requires Valid()
      ensures Shaped() && fragIndex.Length == TOKENS && frags.Length == MAX_FRAGS
    {}

    ghost predicate Doing(v: seq<byte>, to: nat, n: nat, h: nat)
      reads this`frs
    {
      WalkAt(frs, v, to, n, h)
    }

    lemma DoneAll(v: seq<byte>, to: nat, h: nat)
      requires Doing(v, to, 0, h)
      ensures to == |v|
    {}

    lemma ChainStarts(h: nat)
      requires Shaped() && h < TOKENS
      ensures fragIndex.Length == TOKENS && (fragIndex[h] != 0 <==> Has(frs, h))
      ensures fragIndex[h] != 0 ==> Doing(ValueFrom(frs, 0, h), 0, fragIndex[h], h)
    {
      hide From, ValueFrom, Used, Layout, Links;
      SlotIs(frags[..], fragIndex[..], frs, h);
      ValueSkips(frs, 0, h);
      EmptyFront(ValueFrom(frs, 0, h));
    }

    /** The fragment's text is the next part of v, and its link leads on. */
    lemma ChainGoes(v: seq<byte>, to: nat, n: nat, h: nat)
      requires Shaped() && n != 0 && Doing(v, to, n, h)
      ensures n <= |frs| < frags.Length && frags[n].len == |frs[n - 1].text|
      ensures to + frags[n].len <= |v| && v[to..to + frags[n].len] == frs[n - 1].text
      ensures Doing(v, to + frags[n].len, frags[n].next, h) && (frags[n].next == 0 || n < frags[n].next <= |frs|)
    {
      hide From, WalkAt, Used, Layout, Links;
      WalkNext(frs, v, to, n, h);
      NextLink(frags[..], fragIndex[..], frs, n - 1);
      LenIs(frags[..], frs, n - 1);
    }

    method CopyPart(dest: array<byte>, to: nat, n: nat, ghost v: seq<byte>)
      requires Valid() && NulFree(frs) && !state.Value? && dest !in Repr() && 1 <= n <= |frs|
      requires to + |frs[n - 1].text| <= |v| < dest.Length && v[to..to + |frs[n - 1].text|] == frs[n - 1].text
      requires forall j | 0 <= j < to :: dest[j] == v[j]
      modifies dest
      ensures forall j | 0 <= j < to + |frs[n - 1].text| :: dest[j] == v[j]
      ensures dest[to + |frs[n - 1].text|] == 0
      ensures forall j | to + |frs[n - 1].text| < j < dest.Length :: dest[j] == old(dest[j])
    {
      hide Valid;
      ghost var text, before := frs[n - 1].text, dest[..to];
      Strcpy(dest, to, n);
      forall j | 0 <= j < to + |text|
        ensures dest[j] == v[j]
      {
        if j < to {
          assert dest[..to][j] == before[j];
        } else {
          assert dest[to..to + |text|][j - to] == v[to..to + |text|][j - to];
        }
      }
    }

    /** The call has had the outcome of the step: refused, or the next state with its arena. */
    ghost predicate Does(r: Option<Hdr>, ok: bool)
      requires Place(table, 0)
      reads this, frags, fragIndex, data
    {
      match r
      case None => !ok
      case Some(n) => ok && Valid() && View() == n
    }
  }

  lemma StepKeepsOpt(t: seq<byte>, h: Hdr, c: byte)
    requires Sound(t, h) && Place(t, 0)
    ensures match Step(t, h, c) case None => true case Some(n) => Sound(t, n)
  {
    hide Sound, Step;
    if Step(t, h, c).Some? {
      StepKeeps(t, h, c);
    }
  }

  /** The length of a token's first fragment, found from its slot. */
  lemma FirstFragment(fr: seq<Fragment>, idx: seq<nat>, frs: seq<Frag>, token: nat)
    requires Layout(fr, frs) && Links(fr, idx, frs) && token < TOKENS && Has(frs, token)
    ensures var k := From(frs, 0, token).value; idx[token] == k + 1 && fr[idx[token]].len == |frs[k].text|
  {
    hide From, Used;
    assert idx[token] == Link(From(frs, 0, token));
  }

  lemma LinkIs(fr: seq<Fragment>, idx: seq<nat>, frs: seq<Frag>, token: nat)
    requires Links(fr, idx, frs) && token < TOKENS && Has(frs, token)
    ensures 1 <= idx[token] <= |frs| && frs[idx[token] - 1].owner == token
  {
    assert idx[token] == Link(From(frs, 0, token));
  }

  /** A token's slot is 0 exactly when it has no fragment. */
  lemma SlotIs(fr: seq<Fragment>, idx: seq<nat>, frs: seq<Frag>, token: nat)
    requires Links(fr, idx, frs) && token < TOKENS
    ensures idx[token] == Link(From(frs, 0, token)) && (idx[token] != 0 <==> Has(frs, token))
  {
    hide From;
  }

  lemma NextLink(fr: seq<Fragment>, idx: seq<nat>, frs: seq<Frag>, k: nat)
    requires Links(fr, idx, frs) && k < |frs|
    ensures fr[k + 1].next == Link(From(frs, k + 1, frs[k].owner))
  {}

  lemma LinkFirst(fr: seq<Fragment>, idx: seq<nat>, frs: seq<Frag>, token: nat, pos: nat)
    requires Links(fr, idx, frs) && |frs| + 1 < MAX_FRAGS && token < TOKENS && From(frs, 0, token).None?
    ensures Links(fr[|frs| + 1 := Fragment(pos, 0, 0)], idx[token := |frs| + 1], frs + [Frag(token, [])])
  {
    hide From, Links;
    LinksSize(fr, idx, frs);
    var gr := fr[|frs| + 1 := Fragment(pos, 0, 0)];
    forall k | 0 <= k < |frs|
      ensures Relinked(fr, gr, frs, token, k)
    {
      NotOwner(frs, token, k);
    }
    LinksMore(fr, idx, frs, token, gr, idx[token := |frs| + 1]);
  }

  lemma LinksSize(fr: seq<Fragment>, idx: seq<nat>, frs: seq<Frag>)
    requires Links(fr, idx, frs)
    ensures |fr| == MAX_FRAGS && |idx| == TOKENS && |frs| < MAX_FRAGS
  {}

  lemma NotOwner(frs: seq<Frag>, token: nat, k: nat)
    requires From(frs, 0, token).None? && k < |frs|
    ensures frs[k].owner != token
  {}

  /** Only one fragment of a token has none of the same token behind it. */
  lemma OneLast(frs: seq<Frag>, token: nat, n: nat, k: nat)
    requires 1 <= n <= |frs| && frs[n - 1].owner == token && From(frs, n, token).None?
    requires k < |frs| && frs[k].owner == token && From(frs, k + 1, token).None?
    ensures k == n - 1
  {}

  lemma LinkLast(fr: seq<Fragment>, idx: seq<nat>, frs: seq<Frag>, token: nat, pos: nat, n: nat)
    requires Links(fr, idx, frs) && |frs| + 1 < MAX_FRAGS && token < TOKENS && Has(frs, token)
    requires 1 <= n <= |frs| && frs[n - 1].owner == token && From(frs, n, token).None?
    ensures Links(fr[|frs| + 1 := Fragment(pos, 0, 0)][n := fr[n].(next := |frs| + 1)], idx, frs + [Frag(token, [])])
  {
    hide From, Links;
    LinksSize(fr, idx, frs);
    var gr := fr[|frs| + 1 := Fragment(pos, 0, 0)][n := fr[n].(next := |frs| + 1)];
    forall k | 0 <= k < |frs|
      ensures Relinked(fr, gr, frs, token, k)
    {
      if frs[k].owner == token && From(frs, k + 1, token).None? {
        OneLast(frs, token, n, k);
      }
    }
    LinksMore(fr, idx, frs, token, gr, idx);
  }

  lemma LayoutLinked(fr: seq<Fragment>, frs: seq<Frag>, token: nat, pos: nat, n: nat)
    requires Layout(fr, frs) && |frs| + 1 < MAX_FRAGS && 1 <= n <= |frs| && pos == Used(frs)
    ensures Layout(fr[|frs| + 1 := Fragment(pos, 0, 0)][n := fr[n].(next := |frs| + 1)], frs + [Frag(token, [])])
  {
    LayoutMore(fr, frs, token, 0);
    LayoutNext(fr[|frs| + 1 := Fragment(pos, 0, 0)], frs + [Frag(token, [])], n, |frs| + 1);
  }

  lemma LayoutNext(fr: seq<Fragment>, frs: seq<Frag>, n: nat, next: nat)
    requires Layout(fr, frs) && 1 <= n < |fr|
    ensures Layout(fr[n := fr[n].(next := next)], frs)
  {
    hide Used;
  }

  lemma LongerNew(frs: seq<Frag>, token: nat)
    ensures Longer(frs + [Frag(token, [])], SPACE) == frs + [Frag(token, [SPACE])]
  {
    assert (frs + [Frag(token, [])])[..|frs|] == frs;
    assert [] + [SPACE] == [SPACE];
  }

  lemma StringAt(fr: seq<Fragment>, data: seq<byte>, frs: seq<Frag>, k: nat)
    requires Layout(fr, frs) && Texts(data, frs, false) && NulFree(frs) && k < |frs|
    ensures var at, text := fr[k + 1].offset, frs[k].text;
      at + |text| < |data| && data[at..at + |text|] == text && data[at + |text|] == 0 && 0 !in text
  {
    hide Used;
    assert TextAt(data, frs, k) && EndAt(data, frs, k);
  }

  lemma EmptyFront(v: seq<byte>)
    ensures v == v[..0] + v
  {}

  lemma NextPart(v: seq<byte>, to: nat, text: seq<byte>, rest: seq<byte>)
    requires to <= |v| && v == v[..to] + (text + rest)
    ensures to + |text| <= |v| && v[to..to + |text|] == text && v[..to + |text|] + rest == v
    ensures rest == [] ==> to + |text| == |v|
  {
    assert v[to..] == text + rest;
    assert v[..to + |text|] == v[..to] + text;
    assert v[..to] + text + rest == v[..to] + (text + rest);
  }
}
