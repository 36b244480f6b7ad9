/** WebSocket frames (sections 5.2 to 5.5 of RFC 6455) as WebSocketConnectionImpl reads and writes them. */
module WebSocket {
  import opened Wrappers
  import opened Bytes

  type Data = seq<Byte>

  type Key = k: Data | |k| == 4 witness [0, 0, 0, 0]

  type Opcode = n: nat | n < 16

  datatype Kind = Text | Binary | Close | Ping | Pong | Unknown

  // ---------------------------------------------------------------- masking

  function Pow2(n: nat): (r: nat)
    ensures r > 0
  {
    if n == 0 then 1 else 2 * Pow2(n - 1)
  }

  /** Exclusive or of the lowest `bits` bits. */
  function XorBits(a: nat, b: nat, bits: nat): (r: nat)
    ensures r < Pow2(bits)
  {
    if bits == 0 then 0 else 2 * XorBits(a / 2, b / 2, bits - 1) + (a + b) % 2
  }

  function Xor(a: Byte, b: Byte): Byte {
    assert Pow2(8) == 256;
    XorBits(a, b, 8)
  }

  function Mask(data: Data, key: Key): (r: Data)
    ensures |r| == |data|
  {
    seq(|data|, i requires 0 <= i < |data| => Xor(data[i], key[i % 4]))
  }

  lemma Halves(y: nat, a: nat, b: nat)
    ensures var x := 2 * y + (a + b) % 2; x / 2 == y && (x + b) % 2 == a % 2
  {
  }

  lemma {:induction false} XorBitsTwice(a: nat, b: nat, bits: nat)
    requires a < Pow2(bits)
    ensures XorBits(XorBits(a, b, bits), b, bits) == a
  {
    if bits > 0 {
      var y := XorBits(a / 2, b / 2, bits - 1);
      var x := XorBits(a, b, bits);
      Halves(y, a, b);
      XorBitsTwice(a / 2, b / 2, bits - 1);
      assert XorBits(x, b, bits) == 2 * XorBits(x / 2, b / 2, bits - 1) + (x + b) % 2;
    }
  }

  /** Masking twice with one key restores the data. */
  lemma MaskTwice(data: Data, key: Key)
    ensures Mask(Mask(data, key), key) == data
  {
    assert Pow2(8) == 256;
    forall i | 0 <= i < |data| ensures Mask(Mask(data, key), key)[i] == data[i] {
      XorBitsTwice(data[i], key[i % 4], 8);
    }
  }

  // ---------------------------------------------------------------- lengths

  function Pow256(n: nat): (r: nat)
    ensures r > 0
  {
    if n == 0 then 1 else 256 * Pow256(n - 1)
  }

  /** One more than the largest length. */
  const LENGTHS := 0x1_0000_0000_0000_0000

  function BigEndian(n: nat, width: nat): (r: Data)
    ensures |r| == width
    decreases width
  {
    if width == 0 then [] else BigEndian(n / 256, width - 1) + [n % 256]
  }

  function Value(bytes: Data): nat {
    if bytes == [] then 0 else Value(bytes[..|bytes| - 1]) * 256 + bytes[|bytes| - 1]
  }

  lemma {:induction false} LengthRoundTrip(n: nat, width: nat)
    requires n < Pow256(width)
    ensures Value(BigEndian(n, width)) == n
    decreases width
  {
    if width > 0 {
      LengthRoundTrip(n / 256, width - 1);
      var b := BigEndian(n, width);
      assert b[..|b| - 1] == BigEndian(n / 256, width - 1);
    }
  }

  // ---------------------------------------------------------------- frames

  /** A frame as sent: whether it is the last of its message, its opcode, and the masking key if any. */
  datatype Frame = Frame(fin: bool, opcode: Opcode, payload: Data, key: Option<Key>)

  predicate Known(opcode: nat) {
    opcode <= 2 || 8 <= opcode <= 10
  }

  predicate Control(opcode: nat) {
    opcode >= 8
  }

  /** Sizes that a length field can hold, and those the receiver lets through. */
  predicate Acceptable(f: Frame, limit: nat) {
    && Known(f.opcode)
    && |f.payload| < LENGTHS
    && (Control(f.opcode) ==> f.fin && |f.payload| <= 125)
    && (f.key.Some? ==> |f.payload| <= limit)
  }

  function Marker(length: nat): nat {
    if length <= 125 then length else if length <= 65535 then 126 else 127
  }

  function Width(length: nat): nat {
    if length <= 125 then 0 else if length <= 65535 then 2 else 8
  }

  function Extended(length: nat): Data {
    BigEndian(length, Width(length))
  }

  function Head(f: Frame): (h: Data)
    ensures |h| >= 2
  {
    [(if f.fin then 128 else 0) + f.opcode, (if f.key.Some? then 128 else 0) + Marker(|f.payload|)] +
      Extended(|f.payload|)
  }

  function Tail(f: Frame): Data
  {
    match f.key
    case Some(key) => key + Mask(f.payload, key)
    case None => f.payload
  }

  function Wire(f: Frame): (w: Data)
    ensures |w| >= 2
  {
    Head(f) + Tail(f)
  }

  // ---------------------------------------------------------------- the parser

  datatype Parser = Parser(message: Data, kind: Kind, gotAll: bool)

  datatype Parsed = Fine(p: Parser, rest: Data) | Bad(p: Parser, rest: Data)

  function KindAfter(kind: Kind, opcode: nat): Kind {
    match opcode
    case 1 => Text
    case 2 => Binary
    case 8 => Close
    case 9 => Ping
    case 10 => Pong
    case _ => kind
  }

  function FirstMask(marker: nat): nat {
    if marker == 126 then 4 else if marker == 127 then 10 else 2
  }

  /** The payload length, or the marker alone while the length bytes are missing. */
  function LengthOf(buf: Data): nat
    requires |buf| >= 2
  {
    var first := FirstMask(buf[1] % 128);
    if 2 < first <= |buf| then Value(buf[2..first]) else buf[1] % 128
  }

  /** What is done once the header is accepted. */
  function TakePayload(p: Parser, buf: Data, limit: nat): Parsed
    requires |buf| >= 2
  {
    var first, length, masked := FirstMask(buf[1] % 128), LengthOf(buf), buf[1] >= 128;
    var start := if masked then first + 4 else first;
    if masked && length > limit then Bad(p, [])
    else if |buf| < start + length then Fine(p, buf)
    else
      var raw := buf[start..start + length];
      var payload := if masked then Mask(raw, buf[first..start]) else raw;
      Fine(p.(message := p.message + payload, gotAll := buf[0] >= 128), buf[start + length..])
  }

  function Parse(p: Parser, buf: Data, limit: nat): (r: Parsed)
    ensures r.Fine? && r.p.gotAll ==> |r.rest| < |buf|
    ensures |r.rest| <= |buf|
  {
    var p0 := p.(gotAll := false);
    if |buf| < 2 then Fine(p0, buf)
    else
      var opcode := buf[0] % 16;
      if !Known(opcode) then Bad(p0, buf)
      else
        var p1 := p0.(kind := KindAfter(p.kind, opcode));
        if Control(opcode) && buf[0] < 128 then Bad(p1, buf)
        else if Control(opcode) && 2 < FirstMask(buf[1] % 128) <= |buf| then Bad(p1, buf)
        else TakePayload(p1, buf, limit)
  }

  // ---------------------------------------------------------------- the connection

  datatype Delivery = Delivery(payload: Data, kind: Kind)

  /** One end: its parser, the messages handed to the callback, the pongs sent, and whether it still writes. */
  datatype Endpoint = Endpoint(parser: Parser, delivered: seq<Delivery>, pongs: seq<Data>, writing: bool)

  datatype Outcome = Outcome(e: Endpoint, rest: Data)

  /** What is done for a complete message, apart from handing it over. */
  function Answer(e: Endpoint, d: Delivery): Endpoint {
    match d.kind
    case Ping => if e.writing then e.(pongs := e.pongs + [d.payload]) else e
    case Close => e.(writing := false)
    case _ => e
  }

  function Deliver(e: Endpoint, d: Delivery): Endpoint {
    var a := Answer(e, d);
    a.(delivered := a.delivered + [d])
  }

  /** The loop of onNewMessage on one read. */
  function OnMessage(e: Endpoint, buf: Data, limit: nat): Outcome
    decreases |buf|
  {
    if buf == [] then Outcome(e, buf)
    else
      match Parse(e.parser, buf, limit)
      case Bad(p, rest) => Outcome(e.(parser := p, writing := false), rest)
      case Fine(p, rest) =>
        if !p.gotAll then Outcome(e.(parser := p), rest)
        else
          var e1 := e.(parser := p.(message := []));
          if p.kind == Unknown then Outcome(e1, rest)
          else OnMessage(Deliver(e1, Delivery(p.message, p.kind)), rest, limit)
  }

  function Reads(e: Endpoint, pending: Data, pieces: seq<Data>, limit: nat): Outcome
    decreases |pieces|
  {
    if pieces == [] then Outcome(e, pending)
    else
      var o := OnMessage(e, pending + pieces[0], limit);
      Reads(o.e, o.rest, pieces[1..], limit)
  }
}
