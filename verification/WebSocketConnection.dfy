/** The objects of WebSocketConnectionImpl, proved against the functions of WebSocket. */
module WebSocketConnection {
  import opened Wrappers
  import opened Buffers
  import opened Bytes
  import opened WebSocket
  import opened WebSocketProofs

  class WebSocketMessageParser {
    var message: Data
    var kind: Kind
    var complete: bool

    ghost function State(): Parser
      reads this
    {
      Parser(message, kind, complete)
    }

    /** The kind is not initialised by the source: any value. */
    constructor (garbage: Kind)
      ensures State() == Parser([], garbage, false)
    {
      message, kind, complete := [], garbage, false;
    }

    method ReadLength(buffer: MsgBuffer<Byte>) returns (length: nat)
      requires |buffer.data| >= 2
      ensures length == LengthOf(buffer.data)
    {
      var bytes := buffer.data;
      length := bytes[1] % 128;
      var first := FirstMask(length);
      if first > 2 && |bytes| >= first {
        length := bytes[2];
        assert Value(bytes[2..3]) == Value([]) * 256 + bytes[2] by { assert bytes[2..3][..0] == []; }
        var i := 3;
        while i < first
          invariant 3 <= i <= first
          invariant length == Value(bytes[2..i])
        {
          assert bytes[2..i + 1][..i - 2] == bytes[2..i];
          length := length * 256 + bytes[i];
          i := i + 1;
        }
      }
    }

    /** Appends the payload, unmasked byte by byte. */
    method AppendPayload(bytes: Data, first: nat, length: nat, masked: bool)
      requires first + (if masked then 4 else 0) + length <= |bytes|
      modifies this`message
      ensures message == old(message) +
        if masked then Mask(bytes[first + 4..first + 4 + length], bytes[first..first + 4])
        else bytes[first..first + length]
    {
      if masked {
        var masks: Key := bytes[first..first + 4];
        ghost var raw := bytes[first + 4..first + 4 + length];
        var i := 0;
        while i < length
          invariant 0 <= i <= length
          invariant message == old(message) + Mask(raw, masks)[..i]
        {
          message := message + [Xor(bytes[first + 4 + i], masks[i % 4])];
          i := i + 1;
        }
        assert Mask(raw, masks)[..length] == Mask(raw, masks);
      } else {
        message := message + bytes[first..first + length];
      }
    }

    method ParseFrame(buffer: MsgBuffer<Byte>, limit: nat) returns (ok: bool)
      modifies this, buffer
      ensures match Parse(old(State()), old(buffer.data), limit) {
        case Fine(p, rest) => ok && State() == p && buffer.data == rest
        case Bad(p, rest) => !ok && State() == p && buffer.data == rest
      }
    {
      complete := false;
      if |buffer.data| < 2 {
        return true;
      }
      var opcode := buffer.data[0] % 16;
      if !Known(opcode) {
        return false;
      }
      kind := KindAfter(kind, opcode);
      var isControl := opcode >= 8;
      var isFin := buffer.data[0] >= 128;
      if !isFin && isControl {
        return false;
      }
      var isMasked := buffer.data[1] >= 128;
      var first := FirstMask(buffer.data[1] % 128);
      if first > 2 && |buffer.data| >= first && isControl {
        return false;
      }
      ok := ParsePayload(buffer, first, isFin, isMasked, limit);
    }

    method ParsePayload(buffer: MsgBuffer<Byte>, first: nat, isFin: bool, isMasked: bool, limit: nat) returns (ok: bool)
      requires |buffer.data| >= 2 && first == FirstMask(buffer.data[1] % 128)
      requires (isFin <==> buffer.data[0] >= 128) && (isMasked <==> buffer.data[1] >= 128)
      requires !complete
      modifies this, buffer
      ensures match TakePayload(old(State()), old(buffer.data), limit) {
        case Fine(p, rest) => ok && State() == p && buffer.data == rest
        case Bad(p, rest) => !ok && State() == p && buffer.data == rest
      }
    {
      var length := ReadLength(buffer);
      if isMasked && length > limit {
        buffer.RetrieveAll();
        return false;
      }
      var header := if isMasked then first + 4 else first;
      if |buffer.data| >= header + length {
        AppendPayload(buffer.data, first, length, isMasked);
        if isFin {
          complete := true;
        }
        buffer.Retrieve(header + length);
      }
      return true;
    }

    /** Hands the message over and leaves an empty one. */
    method GotAll() returns (got: bool, m: Data, k: Kind)
      modifies this`message
      ensures got == complete
      ensures if complete then m == old(message) && k == kind && message == [] else message == old(message)
    {
      m, k := [], Unknown;
      got := complete;
      if complete {
        m, k := message, kind;
        message := [];
      }
    }
  }

  /** The random keys, one for each frame sent. */
  type Keys = nat -> Key

  class Connection {
    const parser: WebSocketMessageParser
    const isServer: bool
    const random: Keys
    var delivered: seq<Delivery>
    var pongs: seq<Data>
    /** What was given to the socket, frame by frame, and whether it still takes any. */
    var sent: seq<Data>
    ghost var frames: seq<Frame>
    var writing: bool

    ghost function State(): Endpoint
      reads this, parser
    {
      Endpoint(parser.State(), delivered, pongs, writing)
    }

    constructor (isServer: bool, random: Keys, garbage: Kind)
      ensures State() == Endpoint(Parser([], garbage, false), [], [], true)
      ensures fresh(parser) && this.isServer == isServer && sent == [] && frames == []
    {
      this.isServer, this.random := isServer, random;
      parser := new WebSocketMessageParser(garbage);
      delivered, pongs, sent, frames, writing := [], [], [], [], true;
    }

    /** The frame of a message sent as the `n`-th; a client masks it. */
    ghost function FrameSent(msg: Data, opcode: Opcode, n: nat): Frame {
      Frame(true, opcode, msg, if isServer then None else Some(random(n)))
    }

    /** Puts the header in front of the space for the payload. */
    method WriteHeader(a: array<Byte>, len: nat, opcode: Opcode) returns (start: nat)
      requires a.Length == len + 10
      modifies a
      ensures start == FirstMask(Marker(len))
      ensures a[..start] == Head(Frame(true, opcode, seq(len, _ => 0), None))
    {
      ghost var f := Frame(true, opcode, seq(len, _ => 0), None);
      a[0] := 128 + opcode;
      if len <= 125 {
        a[1] := len;
        start := 2;
        assert a[..2] == [a[0], a[1]];
        assert Extended(len) == [];
      } else if len <= 65535 {
        a[1] := 126;
        a[2] := len / 256 % 256;
        a[3] := len % 256;
        start := 4;
        TwoBytes(len);
        assert a[..4] == [a[0], a[1]] + [a[2], a[3]];
      } else {
        a[1] := 127;
        WriteEight(a, len);
        start := 10;
        assert a[..10] == [a[0], a[1]] + a[2..10];
      }
    }

    method WriteEight(a: array<Byte>, len: nat)
      requires a.Length >= 10 && len > 65535
      modifies a
      ensures a[0] == old(a[0]) && a[1] == old(a[1]) && a[2..10] == Extended(len)
    {
      a[2] := len / 0x100_0000_0000_0000 % 256;
      a[3] := len / 0x1_0000_0000_0000 % 256;
      a[4] := len / 0x100_0000_0000 % 256;
      a[5] := len / 0x1_0000_0000 % 256;
      a[6] := len / 0x100_0000 % 256;
      a[7] := len / 0x1_0000 % 256;
      a[8] := len / 256 % 256;
      a[9] := len % 256;
      EightBytes(len);
      assert a[2..10] == [a[2], a[3], a[4], a[5], a[6], a[7], a[8], a[9]];
    }

    method SendWsData(msg: Data, opcode: Opcode)
      modifies this`sent, this`frames
      ensures sent == if writing then old(sent) + [Wire(FrameSent(msg, opcode, |old(sent)|))] else old(sent)
      ensures frames == if writing then old(frames) + [FrameSent(msg, opcode, |old(sent)|)] else old(frames)
    {
      var len := |msg|;
      var a := new Byte[len + 10];
      var start := WriteHeader(a, len, opcode);
      var bytes: Data;
      if !isServer {
        bytes := MaskedFrame(a, start, msg, random(|sent|));
        HeadMasked(opcode, msg, random(|sent|));
      } else {
        bytes := a[..start] + msg;
      }
      assert bytes == Wire(FrameSent(msg, opcode, |sent|));
      if writing {
        frames := frames + [FrameSent(msg, opcode, |sent|)];
        sent := sent + [bytes];
      }
    }

    /** The mask bit, the key, and the payload combined with it byte by byte. */
    method MaskedFrame(a: array<Byte>, start: nat, msg: Data, key: Key) returns (bytes: Data)
      requires 2 <= start <= a.Length && a[1] < 128
      ensures bytes == a[..start][1 := a[1] + 128] + (key + Mask(msg, key))
    {
      var b := MaskedHeader(a, start, |msg|, key);
      ghost var head := a[..start][1 := a[1] + 128];
      assert b[start..start + 4] == (head + key)[start..] == key;
      MaskInto(b, start, msg, key);
      bytes := b[..];
      assert bytes == b[..start + 4] + b[start + 4..];
      assert (head + key) + Mask(msg, key) == head + (key + Mask(msg, key));
    }

    method MaskedHeader(a: array<Byte>, start: nat, len: nat, key: Key) returns (b: array<Byte>)
      requires 2 <= start <= a.Length && a[1] < 128
      ensures fresh(b) && b.Length == start + 4 + len
      ensures b[..start + 4] == a[..start][1 := a[1] + 128] + key
    {
      b := new Byte[start + 4 + len];
      forall i | 0 <= i < start {
        b[i] := a[i];
      }
      b[1] := b[1] + 128;
      b[start], b[start + 1], b[start + 2], b[start + 3] := key[0], key[1], key[2], key[3];
    }

    method MaskInto(b: array<Byte>, start: nat, msg: Data, ghost key: Key)
      requires b.Length == start + 4 + |msg| && b[start..start + 4] == key
      modifies b
      ensures b[..start + 4] == old(b[..start + 4]) && b[start + 4..] == Mask(msg, key)
    {
      ghost var head := b[..start + 4];
      var i := 0;
      while i < |msg|
        invariant 0 <= i <= |msg|
        invariant b[..start + 4] == head
        invariant b[start + 4..start + 4 + i] == Mask(msg, key)[..i]
      {
        assert b[start + i % 4] == b[..start + 4][start + i % 4] == key[i % 4];
        b[start + 4 + i] := Xor(msg[i], b[start + i % 4]);
        i := i + 1;
      }
      assert b[start + 4..start + 4 + |msg|] == b[start + 4..];
    }

    /** From the `s`-th frame sent on, each frame is that of one pong, from the `p`-th pong on. */
    ghost predicate PongsSent(s: nat, p: nat)
      reads this
    {
      && s <= |sent| == |frames| && p <= |pongs| && |sent| - s == |pongs| - p
      && forall j :: s <= j < |frames| ==> frames[j] == FrameSent(pongs[p + (j - s)], 10, j)
    }

    method OnNewMessage(buffer: MsgBuffer<Byte>, limit: nat)
      requires |sent| == |frames|
      modifies this, parser, buffer
      ensures var o := OnMessage(old(State()), old(buffer.data), limit);
        State() == o.e && buffer.data == o.rest
      ensures PongsSent(|old(sent)|, |old(pongs)|)
    {
      ghost var o := OnMessage(State(), buffer.data, limit);
      while |buffer.data| > 0
        invariant OnMessage(State(), buffer.data, limit) == o
        invariant PongsSent(|old(sent)|, |old(pongs)|)
        decreases |buffer.data|
      {
        var ok := parser.ParseFrame(buffer, limit);
        if !ok {
          writing := false;
          return;
        }
        var got, message, kind := parser.GotAll();
        if !got {
          return;
        }
        if kind == Ping {
          Pong(message, |old(sent)|, |old(pongs)|);
        } else if kind == Close {
          writing := false;
        } else if kind == Unknown {
          return;
        }
        delivered := delivered + [Delivery(message, kind)];
      }
    }

    method Pong(message: Data, ghost s: nat, ghost p: nat)
      requires PongsSent(s, p)
      modifies this`sent, this`frames, this`pongs
      ensures pongs == if writing then old(pongs) + [message] else old(pongs)
      ensures PongsSent(s, p)
    {
      SendWsData(message, 10);
      if writing {
        pongs := pongs + [message];
      }
    }
  }

  lemma TwoBytes(n: nat)
    requires 125 < n <= 65535
    ensures Extended(n) == [n / 256 % 256, n % 256]
  {
    assert BigEndian(n / 256, 1) == BigEndian(n / 256 / 256, 0) + [n / 256 % 256];
  }

  lemma Quotients(n: nat)
    ensures n / 256 / 256 == n / 0x1_0000 && n / 0x1_0000 / 256 == n / 0x100_0000
    ensures n / 0x100_0000 / 256 == n / 0x1_0000_0000 && n / 0x1_0000_0000 / 256 == n / 0x100_0000_0000
    ensures n / 0x100_0000_0000 / 256 == n / 0x1_0000_0000_0000
    ensures n / 0x1_0000_0000_0000 / 256 == n / 0x100_0000_0000_0000
  {
  }

  lemma EightBytes(n: nat)
    requires 65535 < n
    ensures Extended(n) ==
      [n / 0x100_0000_0000_0000 % 256, n / 0x1_0000_0000_0000 % 256, n / 0x100_0000_0000 % 256, n / 0x1_0000_0000 % 256,
       n / 0x100_0000 % 256, n / 0x1_0000 % 256, n / 256 % 256, n % 256]
  {
    Quotients(n);
    var b1 := BigEndian(n / 0x100_0000_0000_0000, 1);
    assert b1 == [n / 0x100_0000_0000_0000 % 256];
    var b2 := BigEndian(n / 0x1_0000_0000_0000, 2);
    assert b2 == b1 + [n / 0x1_0000_0000_0000 % 256];
    var b3 := BigEndian(n / 0x100_0000_0000, 3);
    assert b3 == b2 + [n / 0x100_0000_0000 % 256];
    var b4 := BigEndian(n / 0x1_0000_0000, 4);
    assert b4 == b3 + [n / 0x1_0000_0000 % 256];
    var b5 := BigEndian(n / 0x100_0000, 5);
    assert b5 == b4 + [n / 0x100_0000 % 256];
    var b6 := BigEndian(n / 0x1_0000, 6);
    assert b6 == b5 + [n / 0x1_0000 % 256];
    var b7 := BigEndian(n / 256, 7);
    assert b7 == b6 + [n / 256 % 256];
    assert BigEndian(n, 8) == b7 + [n % 256];
  }

  /** The mask bit is all that distinguishes a masked header. */
  lemma HeadMasked(opcode: Opcode, msg: Data, key: Key)
    ensures var plain := Head(Frame(true, opcode, seq(|msg|, _ => 0), None));
      Head(Frame(true, opcode, msg, Some(key))) == plain[1 := plain[1] + 128]
  {
  }
}
