/** WebSocket frames bit by bit: what RFC 6455 says of masks, lengths and opcodes, and which frames are refused. */
module WebSocketFrames {
  import opened Wrappers
  import opened Bytes
  import opened WebSocket
  import opened WebSocketProofs

  // ---------------------------------------------------------------- masking

  /** The `i`-th bit, the lowest being the 0-th. */
  function Bit(n: nat, i: nat): nat {
    if i == 0 then n % 2 else Bit(n / 2, i - 1)
  }

  lemma {:induction false} BitIs(n: nat, i: nat)
    ensures Bit(n, i) == n / Pow2(i) % 2
    decreases i
  {
    if i > 0 {
      BitIs(n / 2, i - 1);
      QuotientTwice(n, Pow2(i - 1));
    }
  }

  lemma QuotientTwice(n: nat, p: nat)
    requires p > 0
    ensures n / 2 / p == n / (2 * p)
  {
    var q, r := n / (2 * p), n % (2 * p);
    assert n == 2 * p * q + r;
    assert n / 2 == p * q + r / 2;
    assert 0 <= r / 2 < p;
    UniqueQuotient(n / 2, p, q, r / 2);
  }

  lemma Scaled(p: nat, a: nat, b: nat)
    requires a <= b
    ensures p * a <= p * b
  {
  }

  lemma UniqueQuotient(n: nat, p: nat, q: nat, r: nat)
    requires n == p * q + r && r < p
    ensures n / p == q
  {
    var k := n / p;
    assert n == p * k + n % p;
    if k > q {
      Scaled(p, q + 1, k);
    } else if k < q {
      Scaled(p, k + 1, q);
    }
  }

  lemma Doubled(x: nat, r: nat, t: nat)
    requires x == 2 * r + t && t < 2
    ensures x / 2 == r && x % 2 == t
  {
  }

  lemma SumOfBits(a: nat, b: nat)
    ensures (a + b) % 2 == (a % 2 + b % 2) % 2
  {
  }

  lemma {:induction false} XorHalves(a: nat, b: nat, bits: nat)
    requires bits > 0
    ensures var x := XorBits(a, b, bits); x / 2 == XorBits(a / 2, b / 2, bits - 1) && x % 2 == (a % 2 + b % 2) % 2
  {
    Doubled(XorBits(a, b, bits), XorBits(a / 2, b / 2, bits - 1), (a + b) % 2);
    SumOfBits(a, b);
  }

  lemma {:induction false} XorBitsAt(a: nat, b: nat, bits: nat, i: nat)
    requires i < bits
    ensures Bit(XorBits(a, b, bits), i) == (Bit(a, i) + Bit(b, i)) % 2
    decreases bits
  {
    XorHalves(a, b, bits);
    if i > 0 {
      XorBitsAt(a / 2, b / 2, bits - 1, i - 1);
    }
  }

  lemma {:induction false} XorBit(a: Byte, b: Byte, i: nat)
    requires i < 8
    ensures Bit(Xor(a, b), i) == 1 <==> Bit(a, i) != Bit(b, i)
  {
    XorBitsAt(a, b, 8, i);
    BitIs(a, i);
    BitIs(b, i);
    ZeroOrOne(Bit(a, i), Bit(b, i));
  }

  /** Masking inverts exactly the bits that the key has. */
  lemma {:induction false} XorIsBitwise(a: Byte, b: Byte, i: nat)
    requires i < 8
    ensures Xor(a, b) / Pow2(i) % 2 == 1 <==> a / Pow2(i) % 2 != b / Pow2(i) % 2
  {
    XorBit(a, b, i);
    BitIs(Xor(a, b), i);
    BitIs(a, i);
    BitIs(b, i);
  }

  lemma ZeroOrOne(x: nat, y: nat)
    ensures (x + y) % 2 == 1 <==> x % 2 != y % 2
  {
  }

  // ---------------------------------------------------------------- lengths

  /** The most significant byte of a length comes first. */
  lemma {:induction false} BigEndianAt(n: nat, width: nat, i: nat)
    requires i < width
    ensures BigEndian(n, width)[width - 1 - i] == n / Pow256(i) % 256
    decreases width
  {
    if i > 0 {
      BigEndianAt(n / 256, width - 1, i - 1);
      QuotientOf256(n, Pow256(i - 1));
    }
  }

  lemma QuotientOf256(n: nat, p: nat)
    requires p > 0
    ensures n / 256 / p == n / (256 * p)
  {
    var q, r := n / 256 / p, n / 256 % p;
    assert n / 256 == p * q + r;
    assert 256 * r + n % 256 < 256 * p;
    assert n == 256 * (p * q + r) + n % 256 == (256 * p) * q + (256 * r + n % 256);
    UniqueQuotient(n, 256 * p, q, 256 * r + n % 256);
  }

  // ---------------------------------------------------------------- the examples of section 5.7

  const HELLO: Data := [0x48, 0x65, 0x6c, 0x6c, 0x6f]

  const KEY: Key := [0x37, 0xfa, 0x21, 0x3d]

  lemma {:induction false} XorDigit(a: nat, b: nat, bits: nat, rest: nat)
    requires bits > 0 && XorBits(a / 2, b / 2, bits - 1) == rest
    ensures XorBits(a, b, bits) == 2 * rest + (a + b) % 2
  {
  }

  lemma Halved(a: nat)
    ensures a / 8 / 2 == a / 16 && a / 4 / 2 == a / 8 && a / 2 / 2 == a / 4
  {
  }

  /** Four bits, given the exclusive or of those before them. */
  /** The two lowest digits. */
  lemma {:induction false} XorPair(a: nat, b: nat, bits: nat, rest: nat)
    requires bits >= 2 && XorBits(a / 4, b / 4, bits - 2) == rest
    ensures XorBits(a, b, bits) == 4 * rest + 2 * ((a / 2 + b / 2) % 2) + (a + b) % 2
  {
    assert a / 2 / 2 == a / 4 && b / 2 / 2 == b / 4;
    XorDigit(a / 2, b / 2, bits - 1, rest);
    XorDigit(a, b, bits, 2 * rest + (a / 2 + b / 2) % 2);
  }

  lemma {:induction false} XorNibble(a: nat, b: nat, bits: nat, rest: nat)
    requires bits >= 4 && XorBits(a / 16, b / 16, bits - 4) == rest
    ensures XorBits(a, b, bits) ==
      16 * rest + 8 * ((a / 8 + b / 8) % 2) + 4 * ((a / 4 + b / 4) % 2) + 2 * ((a / 2 + b / 2) % 2) + (a + b) % 2
  {
    Halved(a);
    Halved(b);
    assert a / 4 / 4 == a / 16 && b / 4 / 4 == b / 16;
    XorPair(a / 4, b / 4, bits - 2, rest);
    XorPair(a, b, bits, 4 * rest + 2 * ((a / 8 + b / 8) % 2) + (a / 4 + b / 4) % 2);
  }

  lemma {:induction false} MaskedHell()
    ensures XorBits(0x48, 0x37, 8) == 0x7f && XorBits(0x65, 0xfa, 8) == 0x9f && XorBits(0x6c, 0x21, 8) == 0x4d
  {
    XorNibble(0x4, 0x3, 4, 0);
    XorNibble(0x48, 0x37, 8, 0x7);
    XorNibble(0x6, 0xf, 4, 0);
    XorNibble(0x65, 0xfa, 8, 0x9);
    XorNibble(0x6, 0x2, 4, 0);
    XorNibble(0x6c, 0x21, 8, 0x4);
  }

  lemma {:induction false} MaskedLo()
    ensures XorBits(0x6c, 0x3d, 8) == 0x51 && XorBits(0x6f, 0x37, 8) == 0x58
  {
    XorNibble(0x6, 0x3, 4, 0);
    XorNibble(0x6c, 0x3d, 8, 0x5);
    XorNibble(0x6f, 0x37, 8, 0x5);
  }

  lemma {:induction false} MaskedFive(d: Data, k: Key)
    requires |d| == 5
    ensures Mask(d, k) == [XorBits(d[0], k[0], 8), XorBits(d[1], k[1], 8), XorBits(d[2], k[2], 8),
                           XorBits(d[3], k[3], 8), XorBits(d[4], k[0], 8)]
  {
    var m := Mask(d, k);
    assert m[0] == Xor(d[0], k[0 % 4]) && m[1] == Xor(d[1], k[1 % 4]) && m[2] == Xor(d[2], k[2 % 4]);
    assert m[3] == Xor(d[3], k[3 % 4]) && m[4] == Xor(d[4], k[4 % 4]);
  }

  lemma {:induction false} MaskedHello()
    ensures Mask(HELLO, KEY) == [0x7f, 0x9f, 0x4d, 0x51, 0x58]
  {
    MaskedHell();
    MaskedLo();
    MaskedFive(HELLO, KEY);
  }

  /** A frame of at most 125 bytes, byte for byte. */
  lemma {:induction false} ShortWire(f: Frame)
    requires |f.payload| <= 125
    ensures Wire(f) == [(if f.fin then 128 else 0) + f.opcode, (if f.key.Some? then 128 else 0) + |f.payload|] + Tail(f)
  {
    assert Extended(|f.payload|) == [];
  }

  /** Text, a ping and two fragments, byte for byte. */
  lemma {:induction false} PlainExamples()
    ensures Wire(Frame(true, OpcodeOf(Text), HELLO, None)) == [0x81, 0x05, 0x48, 0x65, 0x6c, 0x6c, 0x6f]
    ensures Wire(Frame(true, OpcodeOf(Ping), HELLO, None)) == [0x89, 0x05, 0x48, 0x65, 0x6c, 0x6c, 0x6f]
    ensures Wire(Frame(false, OpcodeOf(Text), HELLO[..3], None)) == [0x01, 0x03, 0x48, 0x65, 0x6c]
    ensures Wire(Frame(true, 0, HELLO[3..], None)) == [0x80, 0x02, 0x6c, 0x6f]
  {
    ShortWire(Frame(true, OpcodeOf(Text), HELLO, None));
    ShortWire(Frame(true, OpcodeOf(Ping), HELLO, None));
    ShortWire(Frame(false, OpcodeOf(Text), HELLO[..3], None));
    ShortWire(Frame(true, 0, HELLO[3..], None));
    assert HELLO[..3] == [0x48, 0x65, 0x6c] && HELLO[3..] == [0x6c, 0x6f];
  }

  /** Masked text and a masked pong. */
  lemma {:induction false} MaskedExamples(opcode: Opcode)
    ensures Wire(Frame(true, opcode, HELLO, Some(KEY))) ==
      [128 + opcode, 0x85, 0x37, 0xfa, 0x21, 0x3d, 0x7f, 0x9f, 0x4d, 0x51, 0x58]
    ensures OpcodeOf(Text) == 0x1 && OpcodeOf(Pong) == 0xa
  {
    MaskedHello();
    ShortWire(Frame(true, opcode, HELLO, Some(KEY)));
  }

  /** 256 bytes and 64K of binary data, and a close. */
  lemma {:induction false} LongExamples(data: Data)
    ensures |data| == 256 ==> Head(Frame(true, OpcodeOf(Binary), data, None)) == [0x82, 0x7e, 0x01, 0x00]
    ensures |data| == 65536 ==>
      Head(Frame(true, OpcodeOf(Binary), data, None)) == [0x82, 0x7f, 0, 0, 0, 0, 0, 0x01, 0, 0]
    ensures data == [] ==> Head(Frame(true, OpcodeOf(Close), data, None)) == [0x88, 0x00]
  {
    assert BigEndian(256, 2) == [0x01, 0x00] by {
      BigEndianAt(256, 2, 0);
      BigEndianAt(256, 2, 1);
      assert Pow256(1) == 256;
    }
    assert BigEndian(65536, 8) == [0, 0, 0, 0, 0, 0x01, 0, 0];
  }

  // ---------------------------------------------------------------- refused frames

  /**
   A whole frame is refused exactly when its opcode is unknown, when it is a control frame in fragments or
   longer than 125 bytes, or when it is masked and longer than the limit.
   */
  predicate Refused(f: Frame, limit: nat) {
    || f.opcode !in {0, 1, 2, 8, 9, 10}
    || (f.opcode in {8, 9, 10} && (!f.fin || |f.payload| > 125))
    || (f.key.Some? && |f.payload| > limit)
  }

  lemma {:induction false} HeaderRead(f: Frame, rest: Data)
    requires |f.payload| < LENGTHS
    ensures var buf := Wire(f) + rest;
      && |buf| >= |Head(f)| == FirstMask(Marker(|f.payload|)) && LengthOf(buf) == |f.payload|
      && buf[0] % 16 == f.opcode && (buf[0] >= 128 <==> f.fin)
      && buf[1] % 128 == Marker(|f.payload|) && (buf[1] >= 128 <==> f.key.Some?)
  {
    FrameAt(f, rest);
    HeadLength(f);
    LengthField(f, Wire(f) + rest);
  }

  lemma {:induction false} RefusedExactlyWhen(p: Parser, f: Frame, rest: Data, limit: nat)
    requires |f.payload| < LENGTHS
    ensures Parse(p, Wire(f) + rest, limit).Bad? <==> Refused(f, limit)
  {
    HeaderRead(f, rest);
  }

  /** A refused frame closes the connection for writing and delivers nothing, whatever is behind it. */
  lemma {:induction false} RefusalCloses(e: Endpoint, f: Frame, rest: Data, limit: nat)
    requires |f.payload| < LENGTHS && Refused(f, limit)
    ensures var o := OnMessage(e, Wire(f) + rest, limit);
      !o.e.writing && o.e.delivered == e.delivered && o.e.pongs == e.pongs
  {
    RefusedExactlyWhen(e.parser, f, rest, limit);
  }

  /**
   A continuation that continues nothing is dropped: nobody hears of it, and what came behind it in the same
   read stays unread until more arrives.
   */
  lemma {:induction false} StrayContinuation(e: Endpoint, f: Frame, behind: Data, limit: nat)
    requires e.parser.kind == Unknown && f.opcode == 0 && f.fin && Acceptable(f, limit)
    ensures var o := OnMessage(e, Wire(f) + behind, limit);
      && o.rest == behind && o.e.parser.message == []
      && o.e.delivered == e.delivered && o.e.pongs == e.pongs && o.e.writing == e.writing
  {
    WholeFrame(e.parser, f, behind, limit);
  }
}
