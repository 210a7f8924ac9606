/** The server machine on streams of frames: what it delivers, and what empty and CLOSE frames do. */
module WsServer {
  import opened Words
  import opened Options
  import opened WsFrame
  import opened WsRx
  import opened WsStep
  import opened WsRun

  lemma StartsUndone(rx: Rx, k: Key, p: seq<byte>)
    requires rx.nonce == k && rx.maskIndex == 0 && rx.allZero == ZeroFrom(k, 0)
    ensures Undoes(Server, rx, 0, Masked(k, 0, p), p)
  {
    hide Masked, Slot;
    SlotNext(0);
    if rx.allZero {
      ZeroKeyMasks(k, 0, p);
    }
  }

  lemma ClearUndone(rx: Rx, p: seq<byte>)
    requires rx.allZero
    ensures Undoes(Server, rx, 0, p, p)
  {}

  /** Key and payload bytes, behind the header. */
  lemma BodyFed(rx: Rx, limit: nat, key: Option<Key>, p: seq<byte>, env: Env)
    requires rx.state == (if key.Some? then KeyByte(1) else Payload) && rx.allZero && rx.length == |p| > 0
    requires rx.opcode != CLOSE && rx.data == [] && limit > 0 && Willing(env)
    ensures var t := Feed(Server, rx, limit, KeyAndData(key, p), env);
      t.ok && t.events == Pieces(Server, rx.opcode, rx.final, rx.binary, p, limit) && t.rx == Done(rx, t.rx)
  {
    hide Step, Feed, Undoes, Pieces, Masked, ZeroFrom, Willing;
    assert [] + p == p;
    match key
    case None =>
      ClearUndone(rx, p);
      DataFed(Server, rx, limit, 0, p, p, env);
    case Some(k) =>
      assert k[0..] == k;
      KeyFed(Server, rx, limit, k, 0, env);
      var keyed := Feed(Server, rx, limit, k, env).rx;
      FeedAppend(Server, rx, limit, k, Masked(k, 0, p), env);
      StartsUndone(keyed, k, p);
      DataFed(Server, keyed, limit, 0, Masked(k, 0, p), p, env);
  }

  /** A frame with data is delivered in pieces, whatever its length form and key, and the machine is back at New. */
  lemma FrameFed(rx: Rx, limit: nat, f: Frame, env: Env)
    requires rx.state == New && rx.data == [] && limit > 0 && Willing(env) && Sendable(f)
    ensures var t := Feed(Server, rx, limit, Wire(f), env);
      && t.ok && t.rx.state == New && t.rx.data == [] && t.rx.conn == rx.conn && t.rx.binary == Binary(rx.binary, f)
      && t.events == Pieces(Server, f.opcode, f.fin, Binary(rx.binary, f), f.payload, limit)
  {
    hide Step, Feed, Header, KeyAndData, Pieces, Legal, AfterHeader, Binary, Willing;
    HeaderFed(Server, rx, limit, f, env);
    HeaderShows(Server, rx, f);
    FeedAppend(Server, rx, limit, Header(f), KeyAndData(f.key, f.payload), env);
    BodyFed(AfterHeader(Server, rx, f), limit, f.key, f.payload, env);
  }

  /** Any list of frames with data, each with a key of its own or none. */
  lemma {:induction false} ServerDelivers(rx: Rx, limit: nat, fs: seq<Frame>, env: Env)
    requires rx.state == New && rx.data == [] && limit > 0 && Willing(env)
    requires forall i | 0 <= i < |fs| :: Sendable(fs[i])
    ensures var t := Feed(Server, rx, limit, WireAll(fs), env);
      && t.ok && t.rx.state == New && t.rx.data == [] && t.rx.conn == rx.conn
      && t.events == AllPieces(Server, fs, rx.binary, limit)
    decreases |fs|
  {
    hide Step, Feed, Wire, Pieces, Legal, Willing, Binary;
    if fs == [] {
      FeedNone(Server, rx, limit, env);
    } else {
      assert Sendable(fs[0]);
      FrameFed(rx, limit, fs[0], env);
      FeedAppend(Server, rx, limit, Wire(fs[0]), WireAll(fs[1..]), env);
      ServerDelivers(Feed(Server, rx, limit, Wire(fs[0]), env).rx, limit, fs[1..], env);
    }
  }

  // ----- frames the list leaves out

  /** A ping that fits the buffer is answered by a pong with the same data. */
  lemma PingEchoed(rx: Rx, limit: nat, f: Frame, env: Env)
    requires rx.state == New && rx.data == [] && Willing(env) && Sendable(f)
    requires f.opcode == PING && |f.payload| <= limit
    ensures Feed(Server, rx, limit, Wire(f), env).events == [SendPong(f.payload)]
  {
    hide Step, Feed, Wire, Legal, Willing;
    FrameFed(rx, limit, f, env);
  }

  /** A CLOSE frame that fits the buffer echoes its data and ends the connection, or ends it silently when it answers
      our own CLOSE; one without data and without key does not: the machine goes on to collect a payload of length 0. */
  lemma CloseFed(rx: Rx, limit: nat, f: Frame, env: Env)
    requires rx.state == New && rx.data == [] && Legal(f) && f.opcode == CLOSE && |f.payload| <= limit
    ensures var t := Feed(Server, rx, limit, Wire(f), env);
      if f.payload == [] && f.key.None? then t.ok && t.events == [] && t.rx.state == Payload && t.rx.length == 0
      else Closes(rx, t, f.payload)
  {
    hide Step, Feed, Header, KeyAndData, Legal, AfterHeader;
    HeaderFed(Server, rx, limit, f, env);
    HeaderShows(Server, rx, f);
    FeedAppend(Server, rx, limit, Header(f), KeyAndData(f.key, f.payload), env);
    var ready := AfterHeader(Server, rx, f);
    if f.payload != [] {
      CloseBody(ready, limit, f.key, f.payload, env);
    } else {
      EmptyClose(ready, limit, f.key, env);
    }
  }

  lemma EmptyClose(rx: Rx, limit: nat, key: Option<Key>, env: Env)
    requires rx.state == (if key.Some? then KeyByte(1) else Payload) && rx.length == 0 && rx.data == []
    requires rx.opcode == CLOSE
    ensures var t := Feed(Server, rx, limit, KeyAndData(key, []), env);
      if key.None? then t == Trace(rx, [], true, true) else Closes(rx, t, [])
  {
    hide Feed, Step, Closes;
    match key
    case None => FeedNone(Server, rx, limit, env);
    case Some(k) =>
      assert k + Masked(k, 0, []) == k && k[0..] == k;
      EmptyCloseKey(rx, limit, k, 0, env);
  }

  /** The last byte of the key completes the frame. */
  lemma {:induction false} EmptyCloseKey(rx: Rx, limit: nat, k: Key, j: nat, env: Env)
    requires j < 4 && rx.state == KeyByte(j + 1) && rx.length == 0 && rx.data == [] && rx.opcode == CLOSE
    ensures Closes(rx, Feed(Server, rx, limit, k[j..], env), [])
    decreases 4 - j
  {
    hide Feed, Step, Closes;
    EmptyCloseStep(rx, limit, j + 1, k[j], env);
    assert k[j..][1..] == k[j + 1..];
    if j < 3 {
      FeedFirst(Server, rx, limit, k[j..], env);
      var next := Step(Server, rx, limit, k[j], env).rx;
      EmptyCloseKey(next, limit, k, j + 1, env);
      SameClose(rx, next, Feed(Server, next, limit, k[j + 1..], env), []);
    } else {
      FeedStop(Server, rx, limit, k[j..], env);
    }
  }

  lemma EmptyCloseStep(rx: Rx, limit: nat, j: OneToFour, c: byte, env: Env)
    requires rx.state == KeyByte(j) && rx.length == 0 && rx.data == [] && rx.opcode == CLOSE
    ensures var o := Step(Server, rx, limit, c, env);
      if j < 4 then
        && o.ret == 0 && o.event == Nothing
        && o.rx == rx.(nonce := rx.nonce[j - 1 := c], allZero := rx.allZero && c == 0, state := KeyByte(j + 1))
      else o.ret < 0 && Closes(rx, Trace(o.rx, Noted(o.event), false, false), [])
  {
    hide LengthByte, CollectData;
  }

  lemma CloseBody(rx: Rx, limit: nat, key: Option<Key>, p: seq<byte>, env: Env)
    requires rx.state == (if key.Some? then KeyByte(1) else Payload) && rx.allZero
    requires rx.length == |p| && 0 < |p| <= limit
    requires rx.opcode == CLOSE && rx.data == []
    ensures Closes(rx, Feed(Server, rx, limit, KeyAndData(key, p), env), p)
  {
    hide Step, Feed, Undoes, Masked, ZeroFrom, Closes;
    assert [] + p == p;
    match key
    case None =>
      ClearUndone(rx, p);
      CloseData(rx, limit, 0, p, p, env);
    case Some(k) =>
      assert k[0..] == k;
      KeyFed(Server, rx, limit, k, 0, env);
      var keyed := Feed(Server, rx, limit, k, env).rx;
      FeedAppend(Server, rx, limit, k, Masked(k, 0, p), env);
      StartsUndone(keyed, k, p);
      CloseData(keyed, limit, 0, Masked(k, 0, p), p, env);
      SameClose(rx, keyed, Feed(Server, keyed, limit, Masked(k, 0, p), env), p);
  }

  predicate Closes(rx: Rx, t: Trace, p: seq<byte>) {
    && !t.ok
    && (if rx.conn == AwaitingCloseAck then t.events == []
        else t.events == [SendClose(p)] && t.rx.conn == ReturnedClose)
  }

  lemma SameClose(rx: Rx, other: Rx, t: Trace, p: seq<byte>)
    requires rx.conn == other.conn && Closes(other, t, p)
    ensures forall b ::
      Closes(rx, Trace(t.rx, t.events, t.ok, b), p) && Closes(rx, Trace(t.rx, [] + t.events, t.ok, b), p)
  {}

  lemma {:induction false} CloseData(rx: Rx, limit: nat, i: nat, s: seq<byte>, p: seq<byte>, env: Env)
    requires rx.state == Payload && rx.opcode == CLOSE
    requires |rx.data| + |p| <= limit && p != [] && rx.length == |p| == |s| && Undoes(Server, rx, i, s, p)
    ensures Closes(rx, Feed(Server, rx, limit, s, env), rx.data + p)
    decreases |p|
  {
    hide Undoes, Plain, NextIndex, Step, Feed;
    PlainIs(Server, rx, i, s, p);
    CloseStep(rx, limit, s[0], env);
    var o := Step(Server, rx, limit, s[0], env);
    assert rx.data + p == rx.data + [p[0]] + p[1..];
    if |p| > 1 {
      FeedFirst(Server, rx, limit, s, env);
      UndoesNext(Server, rx, o.rx, i, s, p);
      CloseData(o.rx, limit, i + 1, s[1..], p[1..], env);
    } else {
      assert rx.data + p == rx.data + [p[0]];
      FeedStop(Server, rx, limit, s, env);
    }
  }

  lemma CloseStep(rx: Rx, limit: nat, c: byte, env: Env)
    requires rx.state == Payload && rx.opcode == CLOSE && rx.length > 0 && |rx.data| + rx.length <= limit
    ensures var o := Step(Server, rx, limit, c, env);
      var data := rx.data + [Plain(Server, rx, c)];
      if rx.length == 1 then Closes(rx, Trace(o.rx, Noted(o.event), o.ret >= 0, true), data)
      else o == Out(rx.(data := data, length := rx.length - 1, maskIndex := NextIndex(Server, rx)), 0, Nothing)
  {
    hide Mix, Slot, CollectKey, LengthByte;
  }

  /** After a legal frame that is not CLOSE the machine waits for the next one exactly when the frame had data: an
      empty frame leaves it collecting a payload of length 0. */
  lemma NewAfterFrame(rx: Rx, limit: nat, f: Frame, env: Env)
    requires rx.state == New && rx.data == [] && limit > 0 && Willing(env) && Legal(f) && f.opcode != CLOSE
    ensures var t := Feed(Server, rx, limit, Wire(f), env);
      && t.ok && (t.rx.state == New <==> f.payload != [])
      && (f.payload == [] ==> t.rx.state == Payload && t.rx.length == 0)
  {
    hide Step, Feed, Header, KeyAndData, Pieces, Legal, AfterHeader, Willing;
    if f.payload != [] {
      hide Wire;
      FrameFed(rx, limit, f, env);
    } else {
      HeaderFed(Server, rx, limit, f, env);
      HeaderShows(Server, rx, f);
      FeedAppend(Server, rx, limit, Header(f), KeyAndData(f.key, f.payload), env);
      EmptyBody(AfterHeader(Server, rx, f), limit, f.key, env);
    }
  }

  lemma EmptyBody(rx: Rx, limit: nat, key: Option<Key>, env: Env)
    requires rx.state == (if key.Some? then KeyByte(1) else Payload) && rx.length == 0
    requires rx.opcode != CLOSE && rx.data == [] && Willing(env)
    ensures var t := Feed(Server, rx, limit, KeyAndData(key, []), env);
      t.ok && t.rx.state == Payload && t.rx.length == 0
  {
    hide Feed, Step, Willing;
    match key
    case None => FeedNone(Server, rx, limit, env);
    case Some(k) =>
      assert k + Masked(k, 0, []) == k && k[0..] == k;
      EmptyKey(rx, limit, k, 0, env);
  }

  lemma {:induction false} EmptyKey(rx: Rx, limit: nat, k: Key, j: nat, env: Env)
    requires j < 4 && rx.state == KeyByte(j + 1) && rx.length == 0 && rx.data == [] && rx.opcode != CLOSE
    requires Willing(env)
    ensures var t := Feed(Server, rx, limit, k[j..], env); t.ok && t.rx.state == Payload && t.rx.length == 0
    decreases 4 - j
  {
    hide Feed, Step, Willing;
    EmptyKeyStep(rx, limit, j + 1, k[j], env);
    FeedFirst(Server, rx, limit, k[j..], env);
    assert k[j..][1..] == k[j + 1..];
    var next := Step(Server, rx, limit, k[j], env).rx;
    if j < 3 {
      EmptyKey(next, limit, k, j + 1, env);
    } else {
      assert k[4..] == [];
      FeedNone(Server, next, limit, env);
    }
  }

  lemma SpillsNothing(rx: Rx, env: Env)
    requires rx.data == [] && rx.opcode != CLOSE && Willing(env)
    ensures Spill(Server, rx, env).rx == rx && Spill(Server, rx, env).ret >= 0
  {}

  lemma EmptyKeyStep(rx: Rx, limit: nat, j: OneToFour, c: byte, env: Env)
    requires rx.state == KeyByte(j) && rx.length == 0 && rx.data == [] && rx.opcode != CLOSE && Willing(env)
    ensures var o := Step(Server, rx, limit, c, env);
      && o.ret >= 0 && o.rx.state == (if j < 4 then KeyByte(j + 1) else Payload)
      && o.rx.length == 0 && o.rx.data == [] && o.rx.opcode == rx.opcode
  {
    hide Spill, Willing, LengthByte, CollectData;
    var last := rx.(nonce := rx.nonce[j - 1 := c], allZero := rx.allZero && c == 0, state := Payload, maskIndex := 0);
    SpillsNothing(last, env);
  }
}
