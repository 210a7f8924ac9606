/** The client machine on streams of unmasked frames, also when the client writes in between. */
module WsClient {
  import opened Words
  import opened SevenBit
  import opened WsFrame
  import opened WsRx
  import opened WsStep
  import opened WsRun

  /** A frame a server may send, apart from CLOSE; it may be empty. */
  predicate FromServer(f: Frame) { Legal(f) && f.opcode != CLOSE && f.key.None? }

  /** What a frame shows; an empty one shows only its pong. */
  function FrameEvents(f: Frame, binary: bool, limit: nat): seq<Event>
    requires limit > 0
  {
    if f.payload != [] then Pieces(Client, f.opcode, f.fin, binary, f.payload, limit)
    else if f.opcode == PING then [SendPong([])]
    else []
  }

  function AllEvents(fs: seq<Frame>, binary: bool, limit: nat): seq<Event>
    requires limit > 0
    decreases |fs|
  {
    if fs == [] then []
    else
      var b := Binary(binary, fs[0]);
      FrameEvents(fs[0], b, limit) + AllEvents(fs[1..], b, limit)
  }

  /** The length byte of an empty frame completes it. */
  lemma EmptyLength(rx: Rx, limit: nat, env: Env)
    requires rx.state == HdrLen && rx.data == [] && rx.opcode != CLOSE
    ensures var o := Step(Client, rx, limit, 0, env);
      && o.ret >= 0 && Alike(Client, o.rx, rx.(masked := false, length := 0, state := New))
      && Noted(o.event) == if rx.opcode == PING then [SendPong([])] else []
  {
    hide IsControl;
    ZeroByte();
    assert Low7(0) == 0 && !TopBit(0);
  }

  lemma EmptyFed(rx: Rx, limit: nat, f: Frame, env: Env)
    requires rx.state == New && rx.data == [] && FromServer(f) && f.payload == []
    ensures var t := Feed(Client, rx, limit, Wire(f), env);
      && t.ok && t.keyless && t.rx.state == New && t.rx.data == [] && t.rx.conn == rx.conn
      && t.rx.binary == Binary(rx.binary, f)
      && t.events == if f.opcode == PING then [SendPong([])] else []
  {
    hide Feed, Step, OpOf, RsvOf, FinOf, FirstByte, IsControl, Nibble;
    var c := FirstByte(f.opcode, f.fin);
    FirstByteLaws(f.opcode, f.fin);
    ZeroByte();
    assert Wire(f) == [c] + [0];
    FirstStep(rx, limit, c, env);
    FeedQuiet(Client, rx, limit, c, [0], env);
    var next := FirstHeader(rx, c);
    EmptyLength(next, limit, env);
    FeedOne(Client, next, limit, 0, env);
  }

  lemma FirstStep(rx: Rx, limit: nat, c: byte, env: Env)
    requires rx.state == New
    ensures Step(Client, rx, limit, c, env) == Out(FirstHeader(rx, c), 0, Nothing)
  {}

  lemma Unmasked(rx: Rx, p: seq<byte>)
    requires !rx.masked
    ensures Undoes(Client, rx, 0, p, p)
  {}

  lemma FrameFed(rx: Rx, limit: nat, f: Frame, env: Env)
    requires rx.state == New && rx.data == [] && limit > 0 && FromServer(f) && Willing(env)
    ensures var t := Feed(Client, rx, limit, Wire(f), env);
      && t.ok && t.keyless && t.rx.state == New && t.rx.data == [] && t.rx.conn == rx.conn
      && t.rx.binary == Binary(rx.binary, f)
      && t.events == FrameEvents(f, Binary(rx.binary, f), limit)
  {
    hide Feed, Step, Header, Legal, Pieces, AfterHeader, Binary, Undoes, Willing;
    if f.payload == [] {
      EmptyFed(rx, limit, f, env);
    } else {
      HeaderFed(Client, rx, limit, f, env);
      HeaderShows(Client, rx, f);
      FeedAppend(Client, rx, limit, Header(f), f.payload, env);
      var ready := AfterHeader(Client, rx, f);
      Unmasked(ready, f.payload);
      assert [] + f.payload == f.payload;
      DataFed(Client, ready, limit, 0, f.payload, f.payload, env);
    }
  }

  /** Any list of unmasked frames is recovered, and no step of it touches the key fields. */
  lemma {:induction false} ClientDelivers(rx: Rx, limit: nat, fs: seq<Frame>, env: Env)
    requires rx.state == New && rx.data == [] && limit > 0 && Willing(env)
    requires forall i | 0 <= i < |fs| :: FromServer(fs[i])
    ensures var t := Feed(Client, rx, limit, WireAll(fs), env);
      && t.ok && t.keyless && t.rx.state == New && t.rx.data == [] && t.rx.conn == rx.conn
      && t.events == AllEvents(fs, rx.binary, limit)
    decreases |fs|
  {
    hide Feed, Step, Wire, Legal, FrameEvents, Binary, Willing;
    if fs == [] {
      FeedNone(Client, rx, limit, env);
    } else {
      assert FromServer(fs[0]);
      FrameFed(rx, limit, fs[0], env);
      FeedAppend(Client, rx, limit, Wire(fs[0]), WireAll(fs[1..]), env);
      ClientDelivers(Feed(Client, rx, limit, Wire(fs[0]), env).rx, limit, fs[1..], env);
    }
  }

  // ----- the key fields, which the client's own writes change

  /** rx after a write of the client's own. */
  function With(rx: Rx, k: Key, m: byte): Rx { rx.(nonce := k, maskIndex := m) }

  predicate SameOut(o: Out, u: Out) {
    o.ret == u.ret && o.event == u.event && u.rx == With(o.rx, u.rx.nonce, u.rx.maskIndex)
  }

  lemma SameRx(rx: Rx, k: Key, m: byte, ret: int, e: Event)
    ensures SameOut(Out(rx, ret, e), Out(With(rx, k, m), ret, e))
  {}

  lemma SpillAlike(a: Rx, k: Key, m: byte, env: Env, other: Env)
    ensures SameOut(Spill(Client, a, env), Spill(Client, With(a, k, m), other))
  {
    hide SameOut, IsData;
    SameRx(a, k, m, -1, Nothing);
    SameRx(a, k, m, 0, Nothing);
    SameRx(a.(data := []), k, m, 0, Nothing);
    SameRx(a.(data := []), k, m, 0, ReceivePong(a.data));
    SameRx(a.(data := []), k, m, 0, Receive(a.data, a.opcode, a.final, a.binary, a.length));
    var wrote := AfterWrite(Client, a, env);
    SameRx(wrote.(data := []), other.nonce, other.maskIndex, 0, SendPong(a.data));
    SameRx(wrote.(conn := ReturnedClose), other.nonce, other.maskIndex, -1, SendClose(a.data));
  }

  lemma AfterLengthAlike(a: Rx, k: Key, m: byte, env: Env, other: Env)
    ensures SameOut(AfterLength(Client, a, env), AfterLength(Client, With(a, k, m), other))
  {
    hide Spill;
    SpillAlike(a.(state := New), k, m, env, other);
  }

  lemma LengthAlike(a: Rx, k: Key, m: byte, c: byte, env: Env, other: Env)
    ensures SameOut(LengthByte(Client, a, c, env), LengthByte(Client, With(a, k, m), c, other))
  {
    hide AfterLength, Low7, TopBit, IsControl, Index, SameOut;
    var a1 := a.(masked := TopBit(c));
    AfterLengthAlike(a1.(length := Index(c)), k, m, env, other);
    SameRx(a1, k, m, -1, Nothing);
    SameRx(a1.(state := Len16High), k, m, 0, Nothing);
    SameRx(a1.(state := Len64(8)), k, m, 0, Nothing);
  }

  lemma DataAlike(a: Rx, k: Key, m: byte, limit: nat, c: byte, env: Env, other: Env)
    requires !a.masked
    ensures SameOut(CollectData(Client, a, limit, c, env), CollectData(Client, With(a, k, m), limit, c, other))
  {
    hide Spill;
    var a1 := a.(data := a.data + [c], length := Less(a.length));
    SpillAlike(a1, k, m, env, other);
    SpillAlike(a1.(state := New), k, m, env, other);
  }

  lemma Len64Alike(a: Rx, k: Key, m: byte, limit: nat, c: byte, env: Env, other: Env)
    requires a.state.Len64?
    ensures SameOut(Step(Client, a, limit, c, env), Step(Client, With(a, k, m), limit, c, other))
  {
    hide OrOctet, TopBit, Index, Pow256, LengthByte, AfterLength, CollectData, CollectKey, SameOut, FirstHeader;
    var j := a.state.k;
    if j == 8 {
      SameRx(a, k, m, -1, Nothing);
      SameRx(Len64Start(a, c), k, m, 0, Nothing);
    } else if j > 1 {
      SameRx(Len64Next(a, j, c), k, m, 0, Nothing);
    } else {
      AfterLengthAlike(a.(length := OrOctet(a.length, c, 0)), k, m, env, other);
    }
  }

  lemma HeaderAlike(a: Rx, k: Key, m: byte, limit: nat, c: byte, env: Env, other: Env)
    requires a.state == New || a.state == Len16High || a.state == Len16Low
    ensures SameOut(Step(Client, a, limit, c, env), Step(Client, With(a, k, m), limit, c, other))
  {
    hide OrOctet, OpOf, RsvOf, FinOf, Index, LengthByte, AfterLength, CollectData, CollectKey, SameOut;
    if a.state == New {
      SameRx(FirstHeader(a, c), k, m, 0, Nothing);
    } else if a.state == Len16High {
      SameRx(Len16Start(a, c), k, m, 0, Nothing);
    } else {
      AfterLengthAlike(a.(length := OrOctet(a.length, c, 0)), k, m, env, other);
    }
  }

  /** A step that has nothing to do with keys comes out the same whatever the client's own writes left in the key fields
      before it and leave there within it. */
  lemma StepAlike(a: Rx, k: Key, m: byte, limit: nat, c: byte, env: Env, other: Env)
    requires Keyless(a)
    ensures SameOut(Step(Client, a, limit, c, env), Step(Client, With(a, k, m), limit, c, other))
  {
    hide OrOctet, LengthByte, CollectData, CollectKey, AfterLength, SameOut, FirstHeader, Len16Start, Len64Start,
         Len64Next;
    if a.state == HdrLen {
      LengthAlike(a, k, m, c, env, other);
    } else if a.state == Payload {
      DataAlike(a, k, m, limit, c, env, other);
    } else if a.state.Len64? {
      Len64Alike(a, k, m, limit, c, env, other);
    } else {
      HeaderAlike(a, k, m, limit, c, env, other);
    }
  }

  // ----- masked frames

  lemma TopNext(b: byte)
    requires Seven(b) && Seven(b + 1)
    ensures WithTop(b) != 255 && WithTop(b + 1) == WithTop(b) + 1
  {}

  lemma {:induction false} TopIndex(n: nat)
    requires n < 128
    ensures Index(WithTop(ByteAt(n))) == n + 128
    decreases n
  {
    hide WithTop, Seven, ByteAt, Index;
    if n == 0 {
      TopOfZero();
      ZeroByte();
    } else {
      var b := ByteAt(n - 1);
      TopIndex(n - 1);
      ByteAtNext(n - 1);
      SevenByteAt(n - 1);
      SevenByteAt(n);
      TopNext(b);
      IndexNext(WithTop(b));
    }
  }

  lemma ByteAtNext(n: nat)
    requires n < 127
    ensures ByteAt(n + 1) == ByteAt(n) + 1
  {
    hide Index, ByteAt;
    IndexByteAt(n);
    ByteBelow(ByteAt(n));
    IndexNext(ByteAt(n));
    ByteAtIndex(ByteAt(n) + 1);
  }

  lemma IndexNext(b: byte)
    requires b != 255
    ensures Index(b + 1) == Index(b) + 1
  {
    NextByte(b);
  }

  lemma ByteBelow(b: byte)
    requires Index(b) < 127
    ensures b != 255
  {
    assert Index(255) == 255;
  }

  lemma TopOfZero()
    ensures Index(WithTop(0)) == 128
  {
    assert WithTop(0) == 128;
    assert Index(128) == 128;
  }

  /** The header of a frame with a short length leaves the right length exactly when the frame has no key: with the
      mask bit kept, the client waits for 128 bytes too many. */
  lemma ShortLengthRight(rx: Rx, limit: nat, f: Frame, env: Env)
    requires rx.state == New && Legal(f) && |f.payload| < 126
    ensures var t := Feed(Client, rx, limit, Header(f), env);
      && (t.rx.length == |f.payload| <==> f.key.None?)
      && (f.key.Some? ==> t.ok && t.rx.length == |f.payload| + 128 && t.rx.state == KeyByte(1))
  {
    hide Feed, Step, OpOf, RsvOf, FinOf, FirstByte, IsControl, Nibble, WithFlag, ByteAt, Index;
    var c := FirstByte(f.opcode, f.fin);
    var n := |f.payload|;
    FirstStep(rx, limit, c, env);
    FeedQuiet(Client, rx, limit, c, [WithFlag(ByteAt(n), f.key.Some?)], env);
    FeedOne(Client, FirstHeader(rx, c), limit, WithFlag(ByteAt(n), f.key.Some?), env);
    if f.key.Some? {
      MaskedShort(FirstHeader(rx, c), limit, n, env);
    } else if n > 0 {
      ShortLength(Client, FirstHeader(rx, c), limit, n, false, env);
    } else {
      ZeroByte();
      NoFlag(0);
      NoLength(FirstHeader(rx, c), limit, env);
    }
  }

  lemma NoLength(rx: Rx, limit: nat, env: Env)
    requires rx.state == HdrLen
    ensures Step(Client, rx, limit, 0, env).rx.length == 0
  {
    hide IsControl;
    ZeroByte();
    assert Low7(0) == 0 && !TopBit(0);
  }

  lemma MaskedShort(rx: Rx, limit: nat, n: nat, env: Env)
    requires rx.state == HdrLen && n < 126
    ensures Step(Client, rx, limit, WithFlag(ByteAt(n), true), env)
      == Out(rx.(masked := true, length := n + 128, state := KeyByte(1)), 0, Nothing)
  {
    hide Index, ByteAt, Low7, TopBit, Seven, WithTop, Spill;
    ShortIs(n);
    FlagLaws(ByteAt(n), true);
    TopIndex(n);
  }

  /** What the client makes of p, masked with k, when its mask index, which it never sets back, starts at slot m. */
  function Turned(k: Key, m: nat, p: seq<byte>): seq<byte> { Masked(k, m, Masked(k, 0, p)) }

  /** Turning the key by m places does not change it. */
  predicate TurnsInto(k: Key, m: nat) {
    k[m % 4] == k[0] && k[(m + 1) % 4] == k[1] && k[(m + 2) % 4] == k[2] && k[(m + 3) % 4] == k[3]
  }

  lemma MixOther(b: byte, k: byte, other: byte)
    ensures Mix(Mix(b, k), other) == b <==> other == k
  {
    hide Mix;
    MixTwice(b, k);
    if Mix(Mix(b, k), other) == b {
      MixUndone(b, k, other);
    }
  }

  lemma MixUndone(b: byte, k: byte, other: byte)
    requires Mix(Mix(b, k), other) == b
    ensures other == k
  {}

  lemma TurnsAt(k: Key, m: nat, j: nat)
    requires TurnsInto(k, m)
    ensures k[(m + j) % 4] == k[j % 4]
  {
    var r := j % 4;
    assert (m + j) % 4 == (m + r) % 4;
    assert r == 0 || r == 1 || r == 2 || r == 3;
  }

  lemma TurnedAt(k: Key, m: nat, p: seq<byte>, j: nat)
    requires j < |p|
    ensures |Turned(k, m, p)| == |p| && (Turned(k, m, p)[j] == p[j] <==> k[(m + j) % 4] == k[j % 4])
  {
    hide Mix;
    MixOther(p[j], k[j % 4], k[(m + j) % 4]);
  }

  lemma TurnedRight(k: Key, m: nat, p: seq<byte>)
    requires |p| >= 4
    ensures |Turned(k, m, p)| == |p| && (Turned(k, m, p) == p <==> TurnsInto(k, m))
  {
    hide Mix, Masked, Turned;
    TurnedAt(k, m, p, 0);
    TurnedAt(k, m, p, 1);
    TurnedAt(k, m, p, 2);
    TurnedAt(k, m, p, 3);
    if TurnsInto(k, m) {
      forall j | 0 <= j < |p|
        ensures Turned(k, m, p)[j] == p[j]
      {
        TurnedAt(k, m, p, j);
        TurnsAt(k, m, j);
      }
    }
  }

  /** A masked frame with a long length is complete at the right place, but its data comes out turned. */
  lemma MaskedLongFed(rx: Rx, limit: nat, f: Frame, env: Env)
    requires rx.state == New && rx.data == [] && limit > 0 && Willing(env)
    requires Legal(f) && IsData(f.opcode) && f.key.Some? && |f.payload| >= 126
    ensures var t := Feed(Client, rx, limit, Wire(f), env);
      && t.ok && t.rx.state == New && t.rx.data == []
      && t.events == Pieces(Client, f.opcode, f.fin, Binary(rx.binary, f),
                            Turned(f.key.value, Slot(rx.maskIndex), f.payload), limit)
  {
    hide Feed, Step, Header, Legal, Pieces, AfterHeader, Binary, Undoes, Willing, Masked, ZeroFrom, Slot;
    var k := f.key.value;
    var s := Masked(k, 0, f.payload);
    HeaderFed(Client, rx, limit, f, env);
    HeaderShows(Client, rx, f);
    FeedAppend(Client, rx, limit, Header(f), k + s, env);
    var ready := AfterHeader(Client, rx, f);
    assert k[0..] == k;
    KeyFed(Client, ready, limit, k, 0, env);
    FeedAppend(Client, ready, limit, k, s, env);
    var keyed := Feed(Client, ready, limit, k, env).rx;
    var m := Slot(rx.maskIndex);
    var q := Turned(k, m, f.payload);
    TurnUndone(keyed, k, m, f.payload);
    assert [] + q == q;
    DataFed(Client, keyed, limit, m, s, q, env);
  }

  lemma TurnUndone(rx: Rx, k: Key, m: nat, p: seq<byte>)
    requires rx.nonce == k && Slot(rx.maskIndex) == m < 4 && rx.masked && (rx.allZero ==> ZeroFrom(k, 0))
    ensures Undoes(Client, rx, m, Masked(k, 0, p), Turned(k, m, p)) && |Turned(k, m, p)| == |p|
  {
    hide Mix, Slot;
    var s := Masked(k, 0, p);
    if rx.allZero {
      ZeroKeyMasks(k, m, s);
    } else {
      var q := Turned(k, m, p);
      forall j | 0 <= j < |s|
        ensures Masked(k, m, q)[j] == s[j]
      {
        MixTwice(s[j], k[(m + j) % 4]);
      }
    }
  }

  /** So a masked frame with a long length is shown as it was sent exactly when the mask index the client happens to
      have turns the key into itself. */
  lemma MaskedLongRight(rx: Rx, limit: nat, f: Frame, env: Env)
    requires rx.state == New && rx.data == [] && limit > 0 && Willing(env)
    requires Legal(f) && IsData(f.opcode) && f.key.Some? && |f.payload| >= 126
    ensures Feed(Client, rx, limit, Wire(f), env).events == FrameEvents(f, Binary(rx.binary, f), limit)
      <==> TurnsInto(f.key.value, Slot(rx.maskIndex))
  {
    hide Feed, Step, Wire, Legal, Pieces, Binary, Willing, Turned, IsData, Joined, Slot, TurnsInto;
    MaskedLongFed(rx, limit, f, env);
    var b, q := Binary(rx.binary, f), Turned(f.key.value, Slot(rx.maskIndex), f.payload);
    TurnedRight(f.key.value, Slot(rx.maskIndex), f.payload);
    PiecesCarry(Client, f.opcode, f.fin, b, f.payload, limit);
    PiecesCarry(Client, f.opcode, f.fin, b, q, limit);
  }
}
