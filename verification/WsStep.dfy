/** libwebsocket_rx_sm and libwebsocket_client_rx_sm as one step function with the places where they differ, and runs
    of it over bytes.  The classes of WsServerConn and WsClientConn are proved to do these steps. */
module WsStep {
  import opened Words
  import opened SevenBit
  import opened WsFrame
  import opened WsRx

  datatype Side = Server | Client

  /** The switch on the length byte; the client keeps the mask bit in a short length. */
  function LengthByte(side: Side, rx: Rx, c: byte, env: Env): Out {
    var rx := rx.(masked := TopBit(c));
    if Low7(c) == 126 then
      if IsControl(rx.opcode) then Out(rx, -1, Nothing) else Out(rx.(state := Len16High), 0, Nothing)
    else if Low7(c) == 127 then
      if IsControl(rx.opcode) then Out(rx, -1, Nothing) else Out(rx.(state := Len64(8)), 0, Nothing)
    else AfterLength(side, rx.(length := Index(if side.Client? then c else Low7(c))), env)
  }

  /** The client takes an empty frame without key as complete; the server goes on to collect its payload. */
  function AfterLength(side: Side, rx: Rx, env: Env): Out {
    if rx.masked then Out(rx.(state := KeyByte(1)), 0, Nothing)
    else if side.Client? && rx.length == 0 then Spill(side, rx.(state := New), env)
    else Out(rx.(state := Payload), 0, Nothing)
  }

  predicate IsData(op: byte) { op == TEXT || op == BINARY || op == CONTINUATION }

  /** A client's own write draws a new key into the fields the receive side uses too. */
  function AfterWrite(side: Side, rx: Rx, env: Env): Rx {
    if side.Client? then rx.(nonce := env.nonce, maskIndex := env.maskIndex) else rx
  }

  function Spill(side: Side, rx: Rx, env: Env): Out {
    if rx.opcode == CLOSE then
      if rx.conn == AwaitingCloseAck then Out(rx, -1, Nothing)
      else Out(AfterWrite(side, rx, env).(conn := ReturnedClose), -1, SendClose(rx.data))
    else if rx.opcode == PING then
      if side.Server? && env.write < 0 then Out(rx, -1, SendPong(rx.data))
      else Out(AfterWrite(side, rx, env).(data := []), 0, SendPong(rx.data))
    else if rx.data == [] then Out(rx, 0, Nothing)
    else if rx.opcode == PONG && side.Client? then Out(rx.(data := []), 0, ReceivePong(rx.data))
    else if IsData(rx.opcode) then
      Out(rx.(data := []), if side.Client? then 0 else env.callback,
          Receive(rx.data, rx.opcode, rx.final, rx.binary, rx.length))
    else Out(rx.(data := []), 0, Nothing)
  }

  function CollectKey(side: Side, rx: Rx, j: OneToFour, c: byte, env: Env): Out {
    var rx := rx.(nonce := rx.nonce[j - 1 := c], allZero := rx.allZero && c == 0);
    if j < 4 then Out(rx.(state := KeyByte(j + 1)), 0, Nothing)
    else
      match side
      case Server =>
        var rx := rx.(state := Payload, maskIndex := 0);
        if rx.length == 0 then Spill(side, rx, env) else Out(rx, 0, Nothing)
      case Client =>
        if rx.length == 0 then Spill(side, rx.(state := New), env) else Out(rx.(state := Payload), 0, Nothing)
  }

  /** Whether payload bytes are stored as they come. */
  predicate Raw(side: Side, rx: Rx) { rx.allZero || (side.Client? && !rx.masked) }

  /** The byte that is stored for wire byte c. */
  function Plain(side: Side, rx: Rx, c: byte): byte {
    if Raw(side, rx) then c else Mix(c, rx.nonce[Slot(rx.maskIndex)])
  }

  function NextIndex(side: Side, rx: Rx): byte {
    if Raw(side, rx) then rx.maskIndex else rx.maskIndex + 1
  }

  function CollectData(side: Side, rx: Rx, limit: nat, c: byte, env: Env): Out {
    var rx := rx.(data := rx.data + [Plain(side, rx, c)], maskIndex := NextIndex(side, rx), length := Less(rx.length));
    if rx.length == 0 then Spill(side, rx.(state := New), env)
    else if |rx.data| == limit then Spill(side, rx, env)
    else Out(rx, 0, Nothing)
  }

  function Step(side: Side, rx: Rx, limit: nat, c: byte, env: Env): Out {
    match rx.state
    case New => Out(FirstHeader(if side.Server? then rx.(allZero := true) else rx, c), 0, Nothing)
    case HdrLen => LengthByte(side, rx, c, env)
    case Len16High => Out(Len16Start(rx, c), 0, Nothing)
    case Len16Low => AfterLength(side, rx.(length := OrOctet(rx.length, c, 0)), env)
    case Len64(k) =>
      if k == 8 then if TopBit(c) then Out(rx, -1, Nothing) else Out(Len64Start(rx, c), 0, Nothing)
      else if k > 1 then Out(Len64Next(rx, k, c), 0, Nothing)
      else AfterLength(side, rx.(length := OrOctet(rx.length, c, 0)), env)
    case KeyByte(j) => CollectKey(side, rx, j, c, env)
    case Payload => CollectData(side, rx, limit, c, env)
  }

  /** The spill that ends the connection by what the outside answers, or by the CLOSE it sends. */
  predicate SpillEnds(side: Side, e: Event, env: Env) {
    || e.SendClose?
    || (side.Server? && e.SendPong? && env.write < 0)
    || (side.Server? && e.Receive? && env.callback < 0)
  }

  lemma SpillRefuses(side: Side, rx: Rx, env: Env)
    requires !(rx.opcode == 8 && rx.conn.AwaitingCloseAck?)
    ensures var o := Spill(side, rx, env); o.ret < 0 <==> SpillEnds(side, o.event, env)
  {}

  lemma LengthRefuses(side: Side, rx: Rx, c: byte, env: Env)
    requires !(rx.opcode == 8 && rx.conn.AwaitingCloseAck?)
    ensures var o := LengthByte(side, rx, c, env);
      o.ret < 0 <==> (rx.opcode & 8 != 0 && (c & 0x7f == 126 || c & 0x7f == 127)) || SpillEnds(side, o.event, env)
  {
    hide Spill, Index;
    AfterLengthRefuses(side, rx.(masked := TopBit(c), length := Index(if side.Client? then c else Low7(c))), env);
  }

  lemma AfterLengthRefuses(side: Side, rx: Rx, env: Env)
    requires !(rx.opcode == 8 && rx.conn.AwaitingCloseAck?)
    ensures var o := AfterLength(side, rx, env); o.ret < 0 <==> SpillEnds(side, o.event, env)
  {
    hide Spill;
    SpillRefuses(side, rx.(state := New), env);
  }

  lemma KeyRefuses(side: Side, rx: Rx, j: OneToFour, c: byte, env: Env)
    requires !(rx.opcode == 8 && rx.conn.AwaitingCloseAck?)
    ensures var o := CollectKey(side, rx, j, c, env); o.ret < 0 <==> SpillEnds(side, o.event, env)
  {
    hide Spill;
    var next := rx.(nonce := rx.nonce[j - 1 := c], allZero := rx.allZero && c == 0);
    SpillRefuses(side, next.(state := Payload, maskIndex := 0), env);
    SpillRefuses(side, next.(state := New), env);
  }

  lemma DataRefuses(side: Side, rx: Rx, limit: nat, c: byte, env: Env)
    requires !(rx.opcode == 8 && rx.conn.AwaitingCloseAck?)
    ensures var o := CollectData(side, rx, limit, c, env); o.ret < 0 <==> SpillEnds(side, o.event, env)
  {
    hide Spill, Plain, NextIndex, Less;
    var next := rx.(data := rx.data + [Plain(side, rx, c)], maskIndex := NextIndex(side, rx),
                    length := Less(rx.length));
    SpillRefuses(side, next, env);
    SpillRefuses(side, next.(state := New), env);
  }

  lemma Len64Refuses(side: Side, rx: Rx, limit: nat, c: byte, env: Env)
    requires !(rx.opcode == 8 && rx.conn.AwaitingCloseAck?) && rx.state.Len64?
    ensures var o := Step(side, rx, limit, c, env);
      o.ret < 0 <==> (rx.state == Len64(8) && c & 0x80 != 0) || SpillEnds(side, o.event, env)
  {
    hide OrOctet, Len64Start, Len64Next, AfterLength, SpillEnds;
    NothingSpills(side, env);
    AfterLengthRefuses(side, rx.(length := OrOctet(rx.length, c, 0)), env);
  }

  /** Exactly these bytes are refused: the long length of a control frame, a 64-bit length with its top bit, and those
      whose spill ends the connection.  A CLOSE that answers ours ends it too, without an event. */
  lemma RefusedExactly(side: Side, rx: Rx, limit: nat, c: byte, env: Env)
    requires !(rx.opcode == 8 && rx.conn.AwaitingCloseAck?)
    ensures var o := Step(side, rx, limit, c, env);
      o.ret < 0 <==>
        || (rx.state.HdrLen? && rx.opcode & 8 != 0 && (c & 0x7f == 126 || c & 0x7f == 127))
        || (rx.state == Len64(8) && c & 0x80 != 0)
        || SpillEnds(side, o.event, env)
  {
    hide OrOctet, FirstHeader, Len16Start, Len64Start, Len64Next, LengthByte, AfterLength, CollectKey, CollectData,
         TopBit, SpillEnds;
    NothingSpills(side, env);
    match rx.state
    case HdrLen => LengthRefuses(side, rx, c, env);
    case Len16Low => AfterLengthRefuses(side, rx.(length := OrOctet(rx.length, c, 0)), env);
    case Len64(k) => Len64Refuses(side, rx, limit, c, env);
    case KeyByte(j) => KeyRefuses(side, rx, j, c, env);
    case Payload => DataRefuses(side, rx, limit, c, env);
    case _ =>
  }

  lemma NothingSpills(side: Side, env: Env)
    ensures !SpillEnds(side, Nothing, env)
  {}

  // ----- runs

  /** A state whose next step has nothing to do with the masking key. */
  predicate Keyless(rx: Rx) {
    !rx.state.KeyByte? && (rx.state == Payload ==> !rx.masked)
  }

  /** ok: no byte was refused; keyless: every state that met a byte was. */
  datatype Trace = Trace(rx: Rx, events: seq<Event>, ok: bool, keyless: bool)

  function Noted(e: Event): seq<Event> { if e == Nothing then [] else [e] }

  /** Bytes go in until one is refused. */
  function Feed(side: Side, rx: Rx, limit: nat, s: seq<byte>, env: Env): Trace
    decreases |s|
  {
    if s == [] then Trace(rx, [], true, true)
    else
      var o := Step(side, rx, limit, s[0], env);
      if o.ret < 0 then Trace(o.rx, Noted(o.event), false, Keyless(rx))
      else
        var t := Feed(side, o.rx, limit, s[1..], env);
        Trace(t.rx, Noted(o.event) + t.events, t.ok, Keyless(rx) && t.keyless)
  }

  lemma FeedStop(side: Side, rx: Rx, limit: nat, s: seq<byte>, env: Env)
    requires s != [] && Step(side, rx, limit, s[0], env).ret < 0
    ensures var o := Step(side, rx, limit, s[0], env);
      Feed(side, rx, limit, s, env) == Trace(o.rx, Noted(o.event), false, Keyless(rx))
  {
    hide Step, Keyless;
  }

  lemma FeedFirst(side: Side, rx: Rx, limit: nat, s: seq<byte>, env: Env)
    requires s != [] && Step(side, rx, limit, s[0], env).ret >= 0
    ensures var o := Step(side, rx, limit, s[0], env);
      var t := Feed(side, o.rx, limit, s[1..], env);
      Feed(side, rx, limit, s, env) == Trace(t.rx, Noted(o.event) + t.events, t.ok, Keyless(rx) && t.keyless)
  {
    hide Step, Keyless;
  }

  lemma {:induction false} FeedAppend(side: Side, rx: Rx, limit: nat, s: seq<byte>, u: seq<byte>, env: Env)
    ensures var t := Feed(side, rx, limit, s, env);
      Feed(side, rx, limit, s + u, env)
        == if t.ok then
             var v := Feed(side, t.rx, limit, u, env);
             Trace(v.rx, t.events + v.events, v.ok, t.keyless && v.keyless)
           else t
    decreases |s|
  {
    hide Step, Keyless, Feed, Noted;
    if s == [] {
      assert s + u == u;
      FeedNone(side, rx, limit, env);
    } else {
      var o := Step(side, rx, limit, s[0], env);
      assert (s + u)[0] == s[0] && (s + u)[1..] == s[1..] + u;
      if o.ret >= 0 {
        FeedFirst(side, rx, limit, s, env);
        FeedFirst(side, rx, limit, s + u, env);
        FeedAppend(side, o.rx, limit, s[1..], u, env);
      } else {
        FeedStop(side, rx, limit, s, env);
        FeedStop(side, rx, limit, s + u, env);
      }
    }
  }

  lemma FeedNone(side: Side, rx: Rx, limit: nat, env: Env)
    ensures Feed(side, rx, limit, [], env) == Trace(rx, [], true, true)
  {
    hide Step, Keyless;
  }

  lemma FeedOne(side: Side, rx: Rx, limit: nat, c: byte, env: Env)
    ensures var o := Step(side, rx, limit, c, env);
      Feed(side, rx, limit, [c], env) == Trace(o.rx, Noted(o.event), o.ret >= 0, Keyless(rx))
  {
    hide Step, Keyless;
    var o := Step(side, rx, limit, c, env);
    assert [c][1..] == [];
  }

  /** One quiet byte in front. */
  lemma FeedQuiet(side: Side, rx: Rx, limit: nat, c: byte, u: seq<byte>, env: Env)
    requires Step(side, rx, limit, c, env).ret == 0 && Step(side, rx, limit, c, env).event == Nothing && Keyless(rx)
    ensures Feed(side, rx, limit, [c] + u, env) == Feed(side, Step(side, rx, limit, c, env).rx, limit, u, env)
  {
    hide Step, Keyless;
    var s := [c] + u;
    assert s[0] == c && s[1..] == u;
  }
}
