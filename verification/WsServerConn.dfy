/** The server connection of parsers.c: libwebsocket_rx_sm updating the fields of struct libwebsocket byte by byte. */
module WsServerConn {
  import opened Words
  import opened SevenBit
  import opened WsFrame
  import opened WsRx
  import opened WsStep

  /** The server side of struct libwebsocket, with rx_user_buffer from LWS_SEND_BUFFER_PRE_PADDING on. */
  class ServerConn {
    const rxBufferSize: nat
    var state: RxState
    var opcode: byte
    var rsv: byte
    var final: bool
    var frameIsBinary: bool
    var thisFrameMasked: bool
    var allZeroNonce: bool
    const nonce: array<byte>
    var maskIndex: byte
    var packetLength: nat
    const buffer: array<byte>
    var head: nat
    var conn: Conn

    ghost predicate Valid()
      reads this
    {
      && nonce.Length == 4 && nonce != buffer
      && buffer.Length == Limit(rxBufferSize) + 4 && head <= Limit(rxBufferSize)
    }

    ghost function View(): Rx
      requires Valid()
      reads this, nonce, buffer
    {
      Rx(state, opcode, rsv, final, frameIsBinary, thisFrameMasked, allZeroNonce, nonce[..], maskIndex, packetLength,
         buffer[..head], conn)
    }

    constructor (size: nat)
      ensures Valid() && rxBufferSize == size && head == 0 && state == New && conn == Established
      ensures fresh(nonce) && fresh(buffer)
    {
      rxBufferSize, state, head, conn := size, New, 0, Established;
      opcode, rsv, final, frameIsBinary, thisFrameMasked, allZeroNonce := 0, 0, false, false, false, false;
      maskIndex, packetLength := 0, 0;
      nonce := new byte[4](_ => 0);
      buffer := new byte[(if size == 0 then 4096 else size) + 4](_ => 0);
    }

    /** handle_first */
    method HandleFirst(c: byte)
      requires Valid()
      modifies this
      ensures Valid() && View() == FirstHeader(old(View()), c) && head == old(head)
    {
      opcode := OpOf(c);
      rsv := RsvOf(c);
      final := FinOf(c);
      if opcode == TEXT || opcode == BINARY {
        frameIsBinary := opcode == BINARY;
      }
      state := HdrLen;
    }

    /** The state that follows a complete length. */
    method LengthKnown(ghost env: Env)
      requires Valid()
      modifies this`state
      ensures Valid() && Out(View(), 0, Nothing) == AfterLength(Server, old(View()), env)
    {
      if thisFrameMasked {
        state := KeyByte(1);
      } else {
        state := Payload;
      }
    }

    /** LWS_RXPS_04_FRAME_HDR_LEN */
    method HandleLength(c: byte, ghost env: Env) returns (ret: int)
      requires Valid()
      modifies this
      ensures Valid() && LengthByte(Server, old(View()), c, env) == Out(View(), ret, Nothing) && head == old(head)
    {
      hide Low7, TopBit, IsControl, Index;
      thisFrameMasked := TopBit(c);
      var n := Low7(c);
      if n == 126 {
        if IsControl(opcode) {
          return -1;
        }
        state := Len16High;
      } else if n == 127 {
        if IsControl(opcode) {
          return -1;
        }
        state := Len64(8);
      } else {
        packetLength := Index(n);
        LengthKnown(env);
      }
      return 0;
    }

    /** spill: */
    method HandleSpill(env: Env) returns (ret: int, event: Event)
      requires Valid()
      modifies this, buffer
      ensures Valid() && Spill(Server, old(View()), env) == Out(View(), ret, event)
      ensures head <= old(head) && (ret >= 0 ==> head == 0)
    {
      var data := buffer[..head];
      if opcode == CLOSE {
        if conn == AwaitingCloseAck {
          return -1, Nothing;
        }
        conn := ReturnedClose;
        return -1, SendClose(data);
      } else if opcode == PING {
        if env.write < 0 {
          return -1, SendPong(data);
        }
        head := 0;
        return 0, SendPong(data);
      } else if opcode == PONG {
        head := 0;
        return 0, Nothing;
      } else if opcode == TEXT || opcode == BINARY || opcode == CONTINUATION {
        ret, event := 0, Nothing;
        if head > 0 {
          buffer[head] := 0;
          ret, event := env.callback, Receive(data, opcode, final, frameIsBinary, packetLength);
        }
        head := 0;
      } else {
        head := 0;
        return 0, Nothing;
      }
    }

    /** LWS_RXPS_07_COLLECT_FRAME_KEY_1 to _4 */
    method HandleKey(j: OneToFour, c: byte, env: Env) returns (ret: int, event: Event)
      requires Valid() && state == KeyByte(j)
      modifies this, nonce, buffer
      ensures Valid() && CollectKey(Server, old(View()), j, c, env) == Out(View(), ret, event) && head <= old(head)
    {
      hide Spill;
      ghost var before := View();
      nonce[j - 1] := c;
      if c != 0 {
        allZeroNonce := false;
      }
      assert nonce[..] == before.nonce[j - 1 := c];
      if j < 4 {
        state := KeyByte(j + 1);
        return 0, Nothing;
      }
      state := Payload;
      maskIndex := 0;
      if packetLength == 0 {
        ret, event := HandleSpill(env);
      } else {
        return 0, Nothing;
      }
    }

    /** The payload byte, unmasked, goes behind those in the buffer, and the frame has one byte less to come. */
    method Store(c: byte)
      requires Valid() && head < Limit(rxBufferSize)
      modifies this`head, this`maskIndex, this`packetLength, buffer
      ensures Valid() && head == old(head) + 1 && View().length == packetLength && |View().data| == head
      ensures View() == old(View()).(data := old(View()).data + [Plain(Server, old(View()), c)],
                                     maskIndex := NextIndex(Server, old(View())), length := Less(old(View()).length))
    {
      hide Mix, Slot;
      ghost var before := View();
      if allZeroNonce {
        buffer[head] := c;
      } else {
        buffer[head] := Mix(c, nonce[Slot(maskIndex)]);
        maskIndex := maskIndex + 1;
      }
      head := head + 1;
      packetLength := Less(packetLength);
      assert buffer[..head] == before.data + [Plain(Server, before, c)];
    }

    method WaitForFrame()
      requires Valid()
      modifies this`state
      ensures Valid() && View() == old(View()).(state := New)
    {
      state := New;
    }

    /** LWS_RXPS_PAYLOAD_UNTIL_LENGTH_EXHAUSTED */
    method HandlePayload(c: byte, env: Env) returns (ret: int, event: Event)
      requires Valid() && head < Limit(rxBufferSize)
      modifies this, buffer
      ensures Valid() && CollectData(Server, old(View()), Limit(rxBufferSize), c, env) == Out(View(), ret, event)
      ensures ret >= 0 ==> head < Limit(rxBufferSize)
    {
      hide Spill, Plain, NextIndex, View, Less;
      Store(c);
      if packetLength == 0 {
        WaitForFrame();
        ret, event := HandleSpill(env);
      } else if rxBufferSize == 0 && head != 4096 {
        return 0, Nothing;
      } else if rxBufferSize != 0 && head != rxBufferSize {
        return 0, Nothing;
      } else {
        ret, event := HandleSpill(env);
      }
    }

    /** libwebsocket_rx_sm */
    method RxSm(c: byte, env: Env) returns (ret: int, event: Event)
      requires Valid() && head < Limit(rxBufferSize)
      modifies this, nonce, buffer
      ensures Valid() && Step(Server, old(View()), Limit(rxBufferSize), c, env) == Out(View(), ret, event)
      ensures ret >= 0 ==> head < Limit(rxBufferSize)
    {
      hide FirstHeader, LengthByte, CollectKey, CollectData, OrOctet, Pow256, TopBit, Index;
      match state {
        case New =>
          allZeroNonce := true;
          HandleFirst(c);
          return 0, Nothing;
        case HdrLen =>
          ret := HandleLength(c, env);
          return ret, Nothing;
        case Len16High =>
          packetLength := Index(c) * 256;
          state := Len16Low;
          return 0, Nothing;
        case Len16Low =>
          packetLength := OrOctet(packetLength, c, 0);
          LengthKnown(env);
          return 0, Nothing;
        case Len64(k) =>
          if k == 8 {
            if TopBit(c) {
              return -1, Nothing;
            }
            packetLength := Index(c) * Pow256(7);
            state := Len64(7);
          } else {
            packetLength := OrOctet(packetLength, c, k - 1);
            if k > 1 {
              state := Len64(k - 1);
            } else {
              LengthKnown(env);
            }
          }
          return 0, Nothing;
        case KeyByte(j) =>
          ret, event := HandleKey(j, c, env);
        case Payload =>
          ret, event := HandlePayload(c, env);
      }
    }
  }
}
