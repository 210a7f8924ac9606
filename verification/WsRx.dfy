/** What the two receive state machines share: the receive fields of struct libwebsocket and the frame header. */
module WsRx {
  import opened Words
  import opened WsFrame

  /** lws_rx_parse_state; Len64(k) and Key(k) stand for LWS_RXPS_04_FRAME_HDR_LEN64_k and
      LWS_RXPS_07_COLLECT_FRAME_KEY_k. */
  datatype RxState = New | HdrLen | Len16High | Len16Low | Len64(k: OneToEight) | KeyByte(j: OneToFour) | Payload

  type OneToEight = k: int | 1 <= k <= 8 witness 1
  type OneToFour = k: int | 1 <= k <= 4 witness 1

  datatype Conn = Established | AwaitingCloseAck | ReturnedClose

  /** The receive fields; data is the filled part of rx_user_buffer. */
  datatype Rx = Rx(state: RxState, opcode: byte, rsv: byte, final: bool, binary: bool, masked: bool, allZero: bool,
                   nonce: Key, maskIndex: byte, length: nat, data: seq<byte>, conn: Conn)

  /** What a spill shows to the user or sends back; remaining is the unread rest of the frame. */
  datatype Event =
    | Nothing
    | Receive(data: seq<byte>, opcode: byte, final: bool, binary: bool, remaining: nat)
    | ReceivePong(data: seq<byte>)
    | SendPong(data: seq<byte>)
    | SendClose(data: seq<byte>)

  /** What the outside does: the results of the user callback and of libwebsocket_write, and what the masking of a
      client's own write leaves in the shared fields. */
  datatype Env = Env(callback: int, write: int, nonce: Key, maskIndex: byte)

  datatype Out = Out(rx: Rx, ret: int, event: Event)

  /** rx_buffer_size of the protocol, 0 standing for LWS_MAX_SOCKET_IO_BUF. */
  function Limit(rxBufferSize: nat): (n: nat)
    ensures n > 0
  {
    if rxBufferSize == 0 then 4096 else rxBufferSize
  }

  const WRAP64: nat := 0x1_0000_0000_0000_0000

  /** --rx_packet_length in a 64-bit size_t */
  function Less(n: nat): nat { if n == 0 then WRAP64 - 1 else n - 1 }

  function Slot(b: byte): (i: nat)
    ensures i < 4
  {
    SlotSmall(b);
    Index(b & 3)
  }

  lemma SlotSmall(b: byte)
    ensures Index(b & 3) < 4
  {
    assert b & 3 == 0 || b & 3 == 1 || b & 3 == 2 || b & 3 == 3;
  }

  /** The 8-bit mask index may wrap: 256 is a multiple of 4. */
  lemma SlotNext(b: byte)
    ensures Slot(b + 1) == (Slot(b) + 1) % 4 && Slot(0) == 0
  {
    assert b & 3 == 0 ==> (b + 1) & 3 == 1;
    assert b & 3 == 1 ==> (b + 1) & 3 == 2;
    assert b & 3 == 2 ==> (b + 1) & 3 == 3;
    assert b & 3 == 3 ==> (b + 1) & 3 == 0;
    assert b & 3 == 0 || b & 3 == 1 || b & 3 == 2 || b & 3 == 3;
  }

  lemma SlotOfNext(i: nat)
    ensures (i % 4 + 1) % 4 == (i + 1) % 4
  {}

  // ----- the first header bytes, alike on both sides

  function FirstHeader(rx: Rx, c: byte): Rx {
    rx.(opcode := OpOf(c), rsv := RsvOf(c), final := FinOf(c), state := HdrLen,
        binary := if OpOf(c) == TEXT then false else if OpOf(c) == BINARY then true else rx.binary)
  }

  /** The first octet of a 16- or 64-bit length, and those below it. */
  function Len16Start(rx: Rx, c: byte): Rx {
    rx.(length := Index(c) * 256, state := Len16Low)
  }

  function Len64Start(rx: Rx, c: byte): Rx {
    rx.(length := Index(c) * Pow256(7), state := Len64(7))
  }

  function Len64Next(rx: Rx, k: OneToEight, c: byte): Rx
    requires k > 1
  {
    rx.(length := OrOctet(rx.length, c, k - 1), state := Len64(k - 1))
  }
}
