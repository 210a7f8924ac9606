/** The client connection of client-parser.c: libwebsocket_client_rx_sm updating the fields of struct libwebsocket,
    with the key and mask index it shares with libwebsocket_write. */
module WsClientConn {
  import opened Words
  import opened Options
  import opened SevenBit
  import opened WsFrame
  import opened WsRx
  import opened WsSend
  import opened WsStep

  class ClientConn {
    const rxBufferSize: nat
    var state: RxState
    var opcode: byte
    var rsv: byte
    var final: bool
    var frameIsBinary: bool
    var thisFrameMasked: bool
    var allZeroNonce: bool
    /** The sending side; frame_masking_nonce_04 and frame_mask_index are its nonce and maskIndex. */
    const tx: Writer
    var packetLength: nat
    /** rx_user_buffer, padding included. */
    const buffer: array<byte>
    var head: nat
    var conn: Conn

    ghost predicate Valid()
      reads this, tx
    {
      && tx.Valid() && tx.client && tx.nonce != buffer && Limit(rxBufferSize) + 6 < INT_LIMIT
      && buffer.Length == PRE_PADDING + Limit(rxBufferSize) + POST_PADDING && head <= Limit(rxBufferSize)
    }

    ghost function View(): Rx
      requires Valid()
      reads this, tx, tx.nonce, buffer
    {
      Rx(state, opcode, rsv, final, frameIsBinary, thisFrameMasked, allZeroNonce, tx.nonce[..], tx.maskIndex,
         packetLength, buffer[PRE_PADDING..PRE_PADDING + head], conn)
    }

    /** What a write that happened in this step left in the shared fields. */
    ghost function Left(): Env
      requires Valid()
      reads this, tx, tx.nonce
    {
      Env(0, 0, tx.nonce[..], tx.maskIndex)
    }

    /** The step has had outcome o.  The echo of a CLOSE is masked where it lies, so that the data left in the buffer of
        the connection, which is then given up, is not that of o. */
    ghost predicate Did(o: Out, ret: int, event: Event)
      requires Valid()
      reads this, tx, tx.nonce, buffer
    {
      o.ret == ret && o.event == event && o.rx.conn == conn && (ret >= 0 ==> !event.SendClose?)
      && (!event.SendClose? ==> o.rx == View())
    }

    constructor (size: nat, tx: Writer)
      requires tx.Valid() && tx.client && Limit(size) + 6 < INT_LIMIT
      ensures Valid() && this.tx == tx && rxBufferSize == size && head == 0 && state == New && conn == Established
      ensures fresh(buffer)
    {
      rxBufferSize, this.tx, state, head, conn := size, tx, New, 0, Established;
      opcode, rsv, final, frameIsBinary, thisFrameMasked, allZeroNonce := 0, 0, false, false, false, false;
      packetLength := 0;
      buffer := new byte[PRE_PADDING + (if size == 0 then 4096 else size) + POST_PADDING](_ => 0);
    }

    /** LWS_RXPS_NEW */
    method HandleFirst(c: byte)
      requires Valid()
      modifies this
      ensures Valid() && View() == FirstHeader(old(View()), c) && head == old(head)
    {
      opcode := OpOf(c);
      rsv := RsvOf(c);
      final := FinOf(c);
      if opcode == TEXT || opcode == BINARY {
        frameIsBinary := opcode == BINARY;
      }
      state := HdrLen;
    }

    /** A pong or the echo of a CLOSE goes out masked, from the receive buffer, with a key of its own. */
    method Answer(kind: Kind, random: Option<Key>) returns (sent: seq<byte>)
      requires Valid() && (kind == WritePong || kind == WriteClose)
      modifies tx, tx.nonce, buffer
      ensures Valid() && tx.established == old(tx.established) && tx.closeReason == old(tx.closeReason)
      ensures old(tx.established) && random.Some? && (kind == WritePong || old(tx.closeReason) == 0) ==>
        sent == Wire(Frame(true, if kind == WritePong then PONG else CLOSE, random, old(View()).data))
    {
      hide Wire;
      var ret;
      ret, sent := tx.Write(buffer, PRE_PADDING, head, Protocol(kind, false), random);
    }

    method AnswerPing(random: Option<Key>) returns (sent: seq<byte>)
      requires Valid()
      modifies this`head, tx, tx.nonce, buffer
      ensures Valid() && tx.established == old(tx.established) && head == 0
      ensures View() == AfterWrite(Client, old(View()), Left()).(data := [])
      ensures old(tx.established) && random.Some? ==> sent == Wire(Frame(true, PONG, random, old(View()).data))
    {
      hide Wire;
      sent := Answer(WritePong, random);
      head := 0;
    }

    /** spill: */
    method HandleSpill(random: Option<Key>) returns (ret: int, event: Event, sent: seq<byte>)
      requires Valid()
      modifies this, tx, tx.nonce, buffer
      ensures Valid() && Did(Spill(Client, old(View()), Left()), ret, event)
      ensures tx.established == old(tx.established)
      ensures head <= old(head) && (ret >= 0 ==> head == 0)
      ensures Answered(old(tx.established), old(tx.closeReason), random, event, sent)
    {
      hide Wire, TopBit;
      var data := buffer[PRE_PADDING..PRE_PADDING + head];
      sent := [];
      if opcode == CLOSE {
        if conn == AwaitingCloseAck {
          return -1, Nothing, sent;
        }
        sent := Answer(WriteClose, random);
        conn := ReturnedClose;
        return -1, SendClose(data), sent;
      } else if opcode == PING {
        sent := AnswerPing(random);
        return 0, SendPong(data), sent;
      }
      ret, event := 0, Nothing;
      if head > 0 {
        if opcode == PONG {
          buffer[PRE_PADDING + head] := 0;
          event := ReceivePong(data);
        } else if opcode == CONTINUATION || opcode == TEXT || opcode == BINARY {
          buffer[PRE_PADDING + head] := 0;
          event := Receive(data, opcode, final, frameIsBinary, packetLength);
        }
      }
      head := 0;
    }

    /** The state that follows a complete length; an empty frame without key is complete. */
    method LengthKnown(random: Option<Key>) returns (ret: int, event: Event, sent: seq<byte>)
      requires Valid()
      modifies this, tx, tx.nonce, buffer
      ensures Valid() && Did(AfterLength(Client, old(View()), Left()), ret, event)
      ensures tx.established == old(tx.established)
      ensures head <= old(head) && Answered(old(tx.established), old(tx.closeReason), random, event, sent)
    {
      hide Spill, Answered;
      NotAnswered(tx.established, tx.closeReason, random);
      if thisFrameMasked {
        state := KeyByte(1);
      } else if packetLength != 0 {
        state := Payload;
      } else {
        WaitFor(New);
        ret, event, sent := HandleSpill(random);
        return;
      }
      return 0, Nothing, [];
    }

    method StoreMasked(masked: bool)
      requires Valid()
      modifies this`thisFrameMasked
      ensures Valid() && View() == old(View()).(masked := masked) && View().opcode == opcode && View().conn == conn
    {
      thisFrameMasked := masked;
    }

    method StoreLength(n: nat)
      requires Valid()
      modifies this`packetLength
      ensures Valid() && View() == old(View()).(length := n)
    {
      packetLength := n;
    }

    method WaitFor(next: RxState)
      requires Valid()
      modifies this`state
      ensures Valid() && View() == old(View()).(state := next)
    {
      state := next;
    }

    /** LWS_RXPS_04_FRAME_HDR_LEN */
    method HandleLength(c: byte, random: Option<Key>) returns (ret: int, event: Event, sent: seq<byte>)
      requires Valid()
      modifies this, tx, tx.nonce, buffer
      ensures Valid() && Did(LengthByte(Client, old(View()), c, Left()), ret, event)
      ensures tx.established == old(tx.established)
      ensures head <= old(head) && Answered(old(tx.established), old(tx.closeReason), random, event, sent)
    {
      hide Low7, TopBit, IsControl, Index, AfterLength, Answered, View, Left;
      NotAnswered(tx.established, tx.closeReason, random);
      StoreMasked(TopBit(c));
      var n := Low7(c);
      if n == 126 {
        if IsControl(opcode) {
          return -1, Nothing, [];
        }
        WaitFor(Len16High);
      } else if n == 127 {
        if IsControl(opcode) {
          return -1, Nothing, [];
        }
        WaitFor(Len64(8));
      } else {
        StoreLength(Index(c));
        ret, event, sent := LengthKnown(random);
        return;
      }
      return 0, Nothing, [];
    }

    /** LWS_RXPS_07_COLLECT_FRAME_KEY_1 to _4 */
    method HandleKey(j: OneToFour, c: byte, random: Option<Key>) returns (ret: int, event: Event, sent: seq<byte>)
      requires Valid() && state == KeyByte(j)
      modifies this, tx, tx.nonce, buffer
      ensures Valid() && Did(CollectKey(Client, old(View()), j, c, Left()), ret, event)
      ensures tx.established == old(tx.established)
      ensures head <= old(head) && Answered(old(tx.established), old(tx.closeReason), random, event, sent)
    {
      hide Spill, Answered;
      NotAnswered(tx.established, tx.closeReason, random);
      StoreKey(j, c);
      if j < 4 {
        state := KeyByte(j + 1);
      } else if packetLength != 0 {
        state := Payload;
      } else {
        WaitFor(New);
        ret, event, sent := HandleSpill(random);
        return;
      }
      return 0, Nothing, [];
    }

    method StoreKey(j: OneToFour, c: byte)
      requires Valid()
      modifies this`allZeroNonce, tx.nonce
      ensures Valid()
      ensures View() == old(View()).(nonce := old(View()).nonce[j - 1 := c], allZero := old(View()).allZero && c == 0)
    {
      ghost var k := tx.nonce[..];
      tx.nonce[j - 1] := c;
      if c != 0 {
        allZeroNonce := false;
      }
      assert tx.nonce[..] == k[j - 1 := c];
    }

    /** The payload byte goes behind those in the buffer, and the frame has one byte less to come. */
    method Store(c: byte)
      requires Valid() && head < Limit(rxBufferSize)
      modifies this`head, this`packetLength, tx`maskIndex, buffer
      ensures Valid() && head == old(head) + 1 && View().length == packetLength && |View().data| == head
      ensures View().conn == conn
      ensures View() == old(View()).(data := old(View()).data + [Plain(Client, old(View()), c)],
                                     maskIndex := NextIndex(Client, old(View())), length := Less(old(View()).length))
    {
      hide Mix, Slot;
      ghost var before := View();
      if !thisFrameMasked || allZeroNonce {
        buffer[PRE_PADDING + head] := c;
      } else {
        buffer[PRE_PADDING + head] := Mix(c, tx.nonce[Slot(tx.maskIndex)]);
        tx.maskIndex := tx.maskIndex + 1;
      }
      head := head + 1;
      packetLength := Less(packetLength);
      assert buffer[PRE_PADDING..PRE_PADDING + head] == before.data + [Plain(Client, before, c)];
    }

    /** LWS_RXPS_PAYLOAD_UNTIL_LENGTH_EXHAUSTED */
    method HandlePayload(c: byte, random: Option<Key>) returns (ret: int, event: Event, sent: seq<byte>)
      requires Valid() && head < Limit(rxBufferSize)
      modifies this, tx, tx.nonce, buffer
      ensures Valid() && Did(CollectData(Client, old(View()), Limit(rxBufferSize), c, Left()), ret, event)
      ensures tx.established == old(tx.established)
      ensures ret >= 0 ==> head < Limit(rxBufferSize)
      ensures Answered(old(tx.established), old(tx.closeReason), random, event, sent)
    {
      hide Spill, Plain, NextIndex, View, Less, Answered;
      NotAnswered(tx.established, tx.closeReason, random);
      Store(c);
      if packetLength == 0 {
        WaitFor(New);
        ret, event, sent := HandleSpill(random);
      } else if rxBufferSize == 0 && head != 4096 {
        return 0, Nothing, [];
      } else if rxBufferSize != 0 && head != rxBufferSize {
        return 0, Nothing, [];
      } else {
        ret, event, sent := HandleSpill(random);
      }
    }

    /** libwebsocket_client_rx_sm */
    method RxSm(c: byte, random: Option<Key>) returns (ret: int, event: Event, sent: seq<byte>)
      requires Valid() && head < Limit(rxBufferSize)
      modifies this, tx, tx.nonce, buffer
      ensures Valid() && Did(Step(Client, old(View()), Limit(rxBufferSize), c, Left()), ret, event)
      ensures tx.established == old(tx.established)
      ensures ret >= 0 ==> head < Limit(rxBufferSize)
      ensures Answered(old(tx.established), old(tx.closeReason), random, event, sent)
    {
      hide FirstHeader, LengthByte, CollectKey, CollectData, AfterLength, OrOctet, Pow256, TopBit, Index, Answered;
      NotAnswered(tx.established, tx.closeReason, random);
      match state {
        case New =>
          HandleFirst(c);
          return 0, Nothing, [];
        case HdrLen =>
          ret, event, sent := HandleLength(c, random);
        case Len16High =>
          packetLength := Index(c) * 256;
          state := Len16Low;
          return 0, Nothing, [];
        case Len16Low =>
          packetLength := OrOctet(packetLength, c, 0);
          ret, event, sent := LengthKnown(random);
        case Len64(k) =>
          if k == 8 {
            if TopBit(c) {
              return -1, Nothing, [];
            }
            packetLength := Index(c) * Pow256(7);
            state := Len64(7);
            return 0, Nothing, [];
          }
          packetLength := OrOctet(packetLength, c, k - 1);
          if k > 1 {
            state := Len64(k - 1);
            return 0, Nothing, [];
          }
          ret, event, sent := LengthKnown(random);
        case KeyByte(j) =>
          ret, event, sent := HandleKey(j, c, random);
        case Payload =>
          ret, event, sent := HandlePayload(c, random);
      }
    }
  }

  /** A pong, and the echo of a CLOSE without a pending reason, go out as frames with the given key, and nothing else
      goes out. */
  predicate Answered(established: bool, reason: nat, random: Option<Key>, event: Event, sent: seq<byte>) {
    && (!event.SendPong? && !event.SendClose? ==> sent == [])
    && (established && random.Some? ==>
      && (event.SendPong? ==> sent == Wire(Frame(true, PONG, random, event.data)))
      && (event.SendClose? && reason == 0 ==> sent == Wire(Frame(true, CLOSE, random, event.data))))
  }

  lemma NotAnswered(established: bool, reason: nat, random: Option<Key>)
    ensures Answered(established, reason, random, Nothing, [])
  {}
}
