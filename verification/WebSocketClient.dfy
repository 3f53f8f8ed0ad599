/** The WebSocket client over a socket that may answer every read with fewer bytes than asked for. */
module WebSocketClient {
  import opened Seqs
  import opened Bits
  import opened WebSocketFrames
  import Text

  /** A connected socket: bytes still to be received, bytes sent, and how much each read may return. */
  class Socket {
    var stream: seq<byte>
    var sent: seq<byte>
    var schedule: seq<nat>

    /** `recv(n)`: some bytes, at most n, or none at end of file. */
    method Recv(n: nat) returns (chunk: seq<byte>)
      requires n > 0
      modifies `stream, `schedule
      ensures if old(stream) == [] then chunk == [] && stream == []
              else 1 <= |chunk| <= n && |chunk| <= |old(stream)|
                   && chunk == old(stream)[..|chunk|] && stream == old(stream)[|chunk|..]
    {
      var size := if schedule == [] || schedule[0] == 0 then 1 else schedule[0];
      schedule := if schedule == [] then [] else schedule[1..];
      if size > n {
        size := n;
      }
      if size > |stream| {
        size := |stream|;
      }
      chunk := stream[..size];
      stream := stream[size..];
    }

    method SendAll(bytes: seq<byte>)
      modifies `sent
      ensures sent == old(sent) + bytes
    {
      sent := sent + bytes;
    }
  }

  datatype Exact = Exactly(data: seq<byte>) | TooShort

  datatype SendResult = Sent | NotConnected

  class WebSocketClient {
    const sock: Socket
    var running: bool
    var delivered: seq<seq<byte>>

    constructor (sock: Socket)
      ensures this.sock == sock && running && delivered == []
    {
      this.sock := sock;
      running, delivered := true, [];
    }

    /** The random masking key is a parameter. */
    method Send(payload: seq<byte>, opcode: nat, key: Key) returns (r: SendResult)
      requires opcode < 16 && |payload| < LONG_LIMIT
      modifies sock`sent
      ensures r == if running then Sent else NotConnected
      ensures sock.sent == if running then old(sock.sent) + ClientFrame(opcode, payload, key) else old(sock.sent)
    {
      if !running {
        return NotConnected;
      }
      OrHighBit(opcode);
      var first: byte := BitOr(opcode, 0x80);
      var header: seq<byte> := [first];
      var length := |payload|;
      if length <= 125 {
        OrHighBit(length);
        var field: byte := BitOr(length, 0x80);
        header := header + [field];
      } else if length <= 65535 {
        OrHighBit(126);
        var field: byte := BitOr(126, 0x80);
        Assoc(header, [field], BigEndian(length, 2));
        header := header + [field] + BigEndian(length, 2);
      } else {
        OrHighBit(127);
        var field: byte := BitOr(127, 0x80);
        Assoc(header, [field], BigEndian(length, 8));
        header := header + [field] + BigEndian(length, 8);
      }
      assert header == [first] + LengthField(128, Shortest(length), length);
      var masked := Masked(payload, key);
      Assoc(header, key, masked);
      Assoc([first], LengthField(128, Shortest(length), length), key + masked);
      sock.SendAll(header + key + masked);
      return Sent;
    }

    /** Loops over partial reads until n bytes are there. */
    method RecvExactly(n: nat) returns (r: Exact)
      modifies sock`stream, sock`schedule
      ensures if n <= |old(sock.stream)|
              then r == Exactly(old(sock.stream)[..n]) && sock.stream == old(sock.stream)[n..]
              else r == TooShort
    {
      var data: seq<byte> := [];
      Empty(sock.stream);
      while |data| < n
        invariant |data| <= n
        invariant data + sock.stream == old(sock.stream)
        decreases n - |data|
      {
        ghost var rest := sock.stream;
        var chunk := sock.Recv(n - |data|);
        if chunk == [] {
          Empty(data);
          return TooShort;
        }
        Rejoin(rest, |chunk|);
        Assoc(data, chunk, sock.stream);
        data := data + chunk;
      }
      CutMiddle(data, sock.stream);
      return Exactly(data);
    }

    /** One frame off the stream. On a masked frame the client reports error 1002 and closes. */
    method ReadOneFrame(key: Key) returns (p: Parse)
      modifies sock
      ensures p == ParseFrame(old(sock.stream))
      ensures p.Parsed? ==> sock.stream == p.rest
      ensures var s := old(sock.stream);
              sock.sent == if |s| >= 2 && s[1] >= 128 && running
                           then old(sock.sent) + ClientFrame(CLOSE, BigEndian(1002, 2), key) else old(sock.sent)
    {
      ghost var s := sock.stream;
      var header := RecvExactly(2);
      if header == TooShort {
        return NoHeader;
      }
      assert header.data[0] == s[0] && header.data[1] == s[1];
      var fin, opcode := header.data[0] >= 128, header.data[0] % 16;
      if header.data[1] >= 128 {
        var _ := Send(BigEndian(1002, 2), CLOSE, key);
        return Closed;
      }
      var length: nat := header.data[1];
      if length == 126 {
        var more := RecvExactly(2);
        if more == TooShort {
          return Closed;
        }
        length := FromBigEndian(more.data);
      } else if length == 127 {
        var more := RecvExactly(8);
        if more == TooShort {
          return Closed;
        }
        length := FromBigEndian(more.data);
      }
      assert ExtendedLength(s[1], s[2..]) == Text.Some((length, sock.stream));
      var data := RecvExactly(length);
      if data == TooShort {
        return Closed;
      }
      return Parsed(fin, opcode, data.data, sock.stream);
    }

    /** One message off the stream, its fragments put together. */
    method RecvFrame(key: Key) returns (r: Received)
      modifies sock
      ensures r == ParseMessage(old(sock.stream), [])
      ensures r.Message? ==> sock.stream == r.rest
    {
      ghost var target := ParseMessage(sock.stream, []);
      var frame := ReadOneFrame(key);
      if frame == NoHeader {
        return NoHeaderLeft;
      }
      if frame == Closed || frame.opcode == CLOSE {
        return SocketClosed;
      }
      var fin, payload := frame.fin, frame.data;
      Empty(payload);
      while !fin
        invariant target == if fin then Message(payload, sock.stream) else ParseMessage(sock.stream, payload)
        decreases |sock.stream|
      {
        var next := ReadOneFrame(key);
        if next == NoHeader {
          return NoHeaderLeft;
        }
        if next == Closed || next.opcode == CLOSE {
          return SocketClosed;
        }
        fin := next.fin;
        payload := payload + next.data;
      }
      return Message(payload, sock.stream);
    }

    /** The receive loop: what it hands on depends on the bytes only, not on how reads return them. */
    method Run(key: Key)
      requires running
      modifies `running, `delivered, sock
      ensures delivered == old(delivered) + Messages(old(sock.stream)) && !running
    {
      ghost var target := Messages(sock.stream);
      ghost var done: seq<seq<byte>> := [];
      Empty(target);
      Empty(delivered);
      while running
        invariant running
        invariant delivered == old(delivered) + done
        invariant done + Messages(sock.stream) == target
        decreases |sock.stream|
      {
        ghost var s := sock.stream;
        var r := RecvFrame(key);
        if !r.Message? {
          Empty(done);
          running := false;
          return;
        }
        Assoc(done, [r.payload], Messages(sock.stream));
        Assoc(old(delivered), done, [r.payload]);
        delivered := delivered + [r.payload];
        done := done + [r.payload];
      }
    }
  }
}
