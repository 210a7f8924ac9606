/** struct allocated_headers: the character arena, the fragment table and the chains of fragments in it. */
module HeaderStore {
  import opened Words
  import opened Options
  import opened Headers
  import opened HeaderLines

  /** struct lws_fragments */
  datatype Fragment = Fragment(offset: nat, len: nat, next: nat)

  /** Fragment indexes count from 1; 0 ends a chain. */
  function Link(r: Option<nat>): nat { match r case None => 0 case Some(k) => k + 1 }

  predicate Layout(fr: seq<Fragment>, frs: seq<Frag>) {
    |fr| == MAX_FRAGS && |frs| < MAX_FRAGS
    && forall k | 0 <= k < |frs| :: fr[k + 1].offset == Used(frs[..k]) && fr[k + 1].len == |frs[k].text|
  }

  predicate Links(fr: seq<Fragment>, idx: seq<nat>, frs: seq<Frag>) {
    && |fr| == MAX_FRAGS && |frs| < MAX_FRAGS && |idx| == TOKENS
    && (forall k | 0 <= k < |frs| :: fr[k + 1].next == Link(From(frs, k + 1, frs[k].owner)))
    && (forall h | 0 <= h < TOKENS :: idx[h] == Link(From(frs, 0, h)))
  }

  predicate TextAt(data: seq<byte>, frs: seq<Frag>, k: nat)
    requires k < |frs|
  {
    var at := Used(frs[..k]);
    at + |frs[k].text| <= |data| && data[at..at + |frs[k].text|] == frs[k].text
  }

  predicate EndAt(data: seq<byte>, frs: seq<Frag>, k: nat)
    requires k < |frs|
  {
    var end := Used(frs[..k]) + |frs[k].text|;
    end < |data| && data[end] == 0
  }

  predicate Texts(data: seq<byte>, frs: seq<Frag>, open: bool) {
    && (forall k | 0 <= k < |frs| :: TextAt(data, frs, k))
    && (forall k | 0 <= k < |frs| && !(open && k == |frs| - 1) :: EndAt(data, frs, k))
  }

  // ----- the arena ranges

  lemma {:induction false} UsedPrefix(frs: seq<Frag>, i: nat, j: nat)
    requires i < j <= |frs|
    ensures Used(frs[..i]) + |frs[i].text| + 1 <= Used(frs[..j])
    decreases j
  {
    assert frs[..j][..j - 1] == frs[..j - 1];
    if i < j - 1 {
      UsedPrefix(frs, i, j - 1);
    }
  }

  lemma UsedAll(frs: seq<Frag>)
    ensures frs[..|frs|] == frs
  {}

  /** Different fragments lie in disjoint ranges, in the order of their indexes, terminators included. */
  lemma RangesDisjoint(fr: seq<Fragment>, frs: seq<Frag>, i: nat, j: nat)
    requires Layout(fr, frs) && i < j < |frs|
    ensures fr[i + 1].offset + fr[i + 1].len < fr[j + 1].offset
  {
    UsedPrefix(frs, i, j);
  }

  /** Chains run strictly upwards, so walking one ends. */
  lemma ChainsRise(fr: seq<Fragment>, idx: seq<nat>, frs: seq<Frag>, k: nat)
    requires Links(fr, idx, frs) && k < |frs|
    ensures fr[k + 1].next == 0 || k + 1 < fr[k + 1].next <= |frs|
  {
    assert fr[k + 1].next == Link(From(frs, k + 1, frs[k].owner));
  }

  // ----- one more character

  lemma LongerPrefix(frs: seq<Frag>, c: byte, k: nat)
    requires frs != [] && k < |frs|
    ensures Longer(frs, c)[..k] == frs[..k] && |Longer(frs, c)| == |frs|
    ensures Longer(frs, c)[k] == if k == |frs| - 1 then Frag(frs[k].owner, frs[k].text + [c]) else frs[k]
  {}

  lemma LayoutLonger(fr: seq<Fragment>, frs: seq<Frag>, c: byte)
    requires Layout(fr, frs) && frs != []
    ensures var n := |frs|; Layout(fr[n := fr[n].(len := fr[n].len + 1)], Longer(frs, c))
  {
    hide Used, Longer;
    var n := |frs|;
    var gr, grs := fr[n := fr[n].(len := fr[n].len + 1)], Longer(frs, c);
    LongerPrefix(frs, c, 0);
    forall k | 0 <= k < |grs|
      ensures gr[k + 1].offset == Used(grs[..k]) && gr[k + 1].len == |grs[k].text|
    {
      LongerPrefix(frs, c, k);
    }
  }

  lemma LinksLonger(fr: seq<Fragment>, idx: seq<nat>, frs: seq<Frag>, c: byte)
    requires Links(fr, idx, frs) && frs != []
    ensures var n := |frs|; Links(fr[n := fr[n].(len := fr[n].len + 1)], idx, Longer(frs, c))
  {
    hide From, Longer, Link;
    var n := |frs|;
    var gr, grs := fr[n := fr[n].(len := fr[n].len + 1)], Longer(frs, c);
    LongerPrefix(frs, c, 0);
    forall k | 0 <= k < |grs|
      ensures gr[k + 1].next == Link(From(grs, k + 1, grs[k].owner))
    {
      LongerPrefix(frs, c, k);
      FromLonger(frs, c, k + 1, frs[k].owner);
    }
    forall h | 0 <= h < TOKENS
      ensures idx[h] == Link(From(grs, 0, h))
    {
      FromLonger(frs, c, 0, h);
    }
  }

  /** Where the last fragment ends. */
  lemma LastEnd(frs: seq<Frag>)
    requires frs != []
    ensures Used(frs) == Used(frs[..|frs| - 1]) + |frs[|frs| - 1].text| + 1
  {}

  predicate Below(data: seq<byte>, d: seq<byte>, pos: nat) {
    |d| == |data| && pos <= |data| && forall i | 0 <= i < pos :: d[i] == data[i]
  }

  /** A fragment below pos is still there when only places from pos on have changed. */
  lemma TextKept(data: seq<byte>, d: seq<byte>, frs: seq<Frag>, grs: seq<Frag>, k: nat, pos: nat)
    requires Below(data, d, pos) && k < |frs| && k < |grs| && grs[..k] == frs[..k] && grs[k] == frs[k]
    requires TextAt(data, frs, k) && Used(frs[..k]) + |frs[k].text| <= pos
    ensures TextAt(d, grs, k)
    ensures EndAt(data, frs, k) && Used(frs[..k]) + |frs[k].text| < pos ==> EndAt(d, grs, k)
  {
    hide Used;
    var at, len := Used(frs[..k]), |frs[k].text|;
    assert d[at..at + len] == data[at..at + len];
  }

  lemma LastGrows(data: seq<byte>, d: seq<byte>, frs: seq<Frag>, grs: seq<Frag>, n: nat, pos: nat, c: byte)
    requires n < |frs| && n < |grs| && grs[..n] == frs[..n] && grs[n].text == frs[n].text + [c]
    requires pos < |data| && d == data[pos := c] && TextAt(data, frs, n) && Used(frs[..n]) + |frs[n].text| == pos
    ensures TextAt(d, grs, n)
  {
    hide Used;
    var at := Used(frs[..n]);
    assert d[at..pos + 1] == data[at..pos] + [c];
  }

  lemma TextsLonger(data: seq<byte>, frs: seq<Frag>, c: byte)
    requires Texts(data, frs, true) && frs != [] && Used(frs) <= |data|
    ensures Texts(data[Used(frs) - 1 := c], Longer(frs, c), true)
  {
    hide Used, Longer, TextAt, EndAt;
    LastEnd(frs);
    var pos := Used(frs) - 1;
    var d, grs := data[pos := c], Longer(frs, c);
    LongerPrefix(frs, c, 0);
    forall k | 0 <= k < |grs|
      ensures TextAt(d, grs, k) && (k < |grs| - 1 ==> EndAt(d, grs, k))
    {
      LongerPrefix(frs, c, k);
      if k < |frs| - 1 {
        UsedPrefix(frs, k, |frs| - 1);
        TextKept(data, d, frs, grs, k, pos);
      } else {
        LastGrows(data, d, frs, grs, k, pos, c);
      }
    }
  }

  lemma LastEnds(d: seq<byte>, frs: seq<Frag>, n: nat, pos: nat)
    requires n < |frs| && pos < |d| && d[pos] == 0 && Used(frs[..n]) + |frs[n].text| == pos
    ensures EndAt(d, frs, n)
  {
    hide Used;
  }

  /** The terminator of the last fragment. */
  lemma TextsEnd(data: seq<byte>, frs: seq<Frag>)
    requires Texts(data, frs, true) && frs != [] && Used(frs) <= |data|
    ensures Texts(data[Used(frs) - 1 := 0], frs, false)
  {
    hide Used, TextAt, EndAt;
    LastEnd(frs);
    var pos := Used(frs) - 1;
    var d := data[pos := 0];
    forall k | 0 <= k < |frs|
      ensures TextAt(d, frs, k) && EndAt(d, frs, k)
    {
      if k < |frs| - 1 {
        UsedPrefix(frs, k, |frs| - 1);
      } else {
        LastEnds(d, frs, k, pos);
      }
      TextKept(data, d, frs, frs, k, pos);
    }
  }

  // ----- one more fragment

  lemma MorePrefix(frs: seq<Frag>, f: Frag, k: nat)
    requires k <= |frs|
    ensures (frs + [f])[..k] == frs[..k]
  {}

  lemma LayoutMore(fr: seq<Fragment>, frs: seq<Frag>, token: nat, next: nat)
    requires Layout(fr, frs) && |frs| + 1 < MAX_FRAGS
    ensures Layout(fr[|frs| + 1 := Fragment(Used(frs), 0, next)], frs + [Frag(token, [])])
  {
    hide Used;
    var gr, grs := fr[|frs| + 1 := Fragment(Used(frs), 0, next)], frs + [Frag(token, [])];
    forall k | 0 <= k < |grs|
      ensures gr[k + 1].offset == Used(grs[..k]) && gr[k + 1].len == |grs[k].text|
    {
      MorePrefix(frs, Frag(token, []), k);
      UsedAll(frs);
    }
  }

  /** The link of fragment k once a fragment of the token has come behind all. */
  predicate Relinked(fr: seq<Fragment>, gr: seq<Fragment>, frs: seq<Frag>, token: nat, k: nat)
    requires k < |frs| && |frs| < |fr| && |fr| == |gr|
  {
    gr[k + 1].next == if frs[k].owner == token && From(frs, k + 1, token).None? then |frs| + 1 else fr[k + 1].next
  }

  /** Linking behind the last fragment of the token, or from the token's own slot. */
  lemma LinksMore(fr: seq<Fragment>, idx: seq<nat>, frs: seq<Frag>, token: nat, gr: seq<Fragment>, jdx: seq<nat>)
    requires Links(fr, idx, frs) && |frs| + 1 < MAX_FRAGS && token < TOKENS && |gr| == MAX_FRAGS && |jdx| == TOKENS
    requires gr[|frs| + 1].next == 0 && forall k | 0 <= k < |frs| :: Relinked(fr, gr, frs, token, k)
    requires forall h | 0 <= h < TOKENS :: jdx[h] == if h == token && From(frs, 0, h).None? then |frs| + 1 else idx[h]
    ensures Links(gr, jdx, frs + [Frag(token, [])])
  {
    hide From;
    var f := Frag(token, []);
    var grs := frs + [f];
    forall k | 0 <= k < |grs|
      ensures gr[k + 1].next == Link(From(grs, k + 1, grs[k].owner))
    {
      if k < |frs| {
        assert Relinked(fr, gr, frs, token, k);
        FromMore(frs, f, k + 1, frs[k].owner);
      } else {
        FromEnd(grs, k + 1, token);
      }
    }
    forall h | 0 <= h < TOKENS
      ensures jdx[h] == Link(From(grs, 0, h))
    {
      FromMore(frs, f, 0, h);
    }
  }

  lemma TextsMore(data: seq<byte>, frs: seq<Frag>, token: nat)
    requires Texts(data, frs, false) && Used(frs) <= |data|
    ensures Texts(data, frs + [Frag(token, [])], true)
  {
    hide Used, TextAt, EndAt;
    var f := Frag(token, []);
    var grs := frs + [f];
    UsedAll(frs);
    forall k | 0 <= k < |grs|
      ensures TextAt(data, grs, k) && (k < |frs| ==> EndAt(data, grs, k))
    {
      MorePrefix(frs, f, k);
      if k < |frs| {
        UsedPrefix(frs, k, |frs|);
        TextKept(data, data, frs, grs, k, |data|);
      } else {
        NoText(data, grs);
      }
    }
  }

  lemma NoText(data: seq<byte>, grs: seq<Frag>)
    requires grs != [] && grs[|grs| - 1].text == [] && Used(grs[..|grs| - 1]) <= |data|
    ensures TextAt(data, grs, |grs| - 1)
  {
    hide Used;
  }
}
