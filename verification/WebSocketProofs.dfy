/** What a receiver makes of a stream of frames. */
module WebSocketProofs {
  import opened Wrappers
  import opened WebSocket

  // ---------------------------------------------------------------- one frame

  lemma HeadLength(f: Frame)
    requires |f.payload| < LENGTHS
    ensures |Head(f)| == FirstMask(Marker(|f.payload|))
    ensures Head(f)[0] % 16 == f.opcode && (Head(f)[0] >= 128 <==> f.fin)
    ensures Head(f)[1] % 128 == Marker(|f.payload|) && (Head(f)[1] >= 128 <==> f.key.Some?)
  {
  }

  lemma LengthField(f: Frame, buf: Data)
    requires |f.payload| < LENGTHS && |Head(f)| <= |buf| && buf[..|Head(f)|] == Head(f)
    ensures LengthOf(buf) == |f.payload|
  {
    HeadLength(f);
    var n, first := |f.payload|, |Head(f)|;
    assert buf[1] == Head(f)[1];
    if n > 125 {
      assert buf[2..first] == Head(f)[2..] == Extended(n);
      if n <= 65535 {
        assert Pow256(2) == 65536;
        LengthRoundTrip(n, 2);
      } else {
        assert Pow256(8) == LENGTHS;
        LengthRoundTrip(n, 8);
      }
    }
  }

  function Started(p: Parser, f: Frame): Parser {
    p.(kind := KindAfter(p.kind, f.opcode), gotAll := false)
  }

  /** Where the parts of a frame lie in a read. */
  lemma {:induction false} FrameAt(f: Frame, rest: Data)
    requires |f.payload| < LENGTHS
    ensures var buf, h, n := Wire(f) + rest, Head(f), |f.payload|;
      && |buf| >= |Wire(f)| && buf[0] == h[0] && buf[1] == h[1] && buf[..|h|] == h && buf[|Wire(f)|..] == rest
      && (match f.key
          case Some(key) => |Wire(f)| == |h| + 4 + n && buf[|h|..|h| + 4] == key
            && buf[|h| + 4..|h| + 4 + n] == Mask(f.payload, key)
          case None => |Wire(f)| == |h| + n && buf[|h|..|h| + n] == f.payload)
  {
    var h, t, n := Head(f), Tail(f), |f.payload|;
    HeadLength(f);
    ThreeParts(h, t, rest);
    match f.key {
      case Some(key) =>
        var m := Mask(f.payload, key);
        assert t[..4] == key && t[4..] == m;
        assert (h + t + rest)[|h|..|h| + 4] == t[..4];
        assert (h + t + rest)[|h| + 4..|h| + 4 + n] == t[4..];
      case None =>
        assert (h + t + rest)[|h|..|h| + n] == t;
    }
  }

  lemma ThreeParts(h: Data, t: Data, rest: Data)
    requires |h| >= 2
    ensures var buf := h + t + rest;
      buf[0] == h[0] && buf[1] == h[1] && buf[..|h|] == h && buf[|h + t|..] == rest && |buf| >= |h + t|
  {
  }

  lemma TailTaken(p: Parser, f: Frame, rest: Data, limit: nat)
    requires Acceptable(f, limit)
    ensures TakePayload(p, Wire(f) + rest, limit) == Fine(p.(message := p.message + f.payload, gotAll := f.fin), rest)
  {
    FrameAt(f, rest);
    HeadLength(f);
    LengthField(f, Wire(f) + rest);
    if f.key.Some? {
      MaskTwice(f.payload, f.key.value);
    }
  }

  /** A whole frame is taken, whatever is behind it. */
  lemma WholeFrame(p: Parser, f: Frame, rest: Data, limit: nat)
    requires Acceptable(f, limit)
    ensures Parse(p, Wire(f) + rest, limit) ==
      Fine(Started(p, f).(message := p.message + f.payload, gotAll := f.fin), rest)
  {
    var buf := Wire(f) + rest;
    HeadLength(f);
    assert buf[0] == Head(f)[0] && buf[1] == Head(f)[1];
    TailTaken(Started(p, f), f, rest, limit);
  }

  predicate StrictPrefix(a: Data, b: Data) {
    |a| < |b| && a == b[..|a|]
  }

  lemma PartialPayload(p: Parser, f: Frame, part: Data, limit: nat)
    requires Acceptable(f, limit) && StrictPrefix(part, Wire(f)) && |part| >= 2
    ensures TakePayload(p, part, limit) == Fine(p, part)
  {
    HeadLength(f);
    assert part[0] == Head(f)[0] && part[1] == Head(f)[1];
    if |part| >= |Head(f)| {
      assert part[..|Head(f)|] == Head(f);
      LengthField(f, part);
    }
  }

  /** A strict prefix of a frame is never consumed. */
  lemma PartialFrame(p: Parser, f: Frame, part: Data, limit: nat)
    requires Acceptable(f, limit) && StrictPrefix(part, Wire(f))
    ensures Parse(p, part, limit) == Fine(if |part| < 2 then p.(gotAll := false) else Started(p, f), part)
  {
    if |part| >= 2 {
      HeadLength(f);
      assert part[0] == Head(f)[0] && part[1] == Head(f)[1];
      PartialPayload(Started(p, f), f, part, limit);
    }
  }

  // ---------------------------------------------------------------- messages

  /** What a stream of frames means: the message being put together, and the effects of those complete. */
  datatype Stream = Stream(partial: Option<Delivery>, delivered: seq<Delivery>, pongs: seq<Data>, writing: bool)

  /** A control or first frame starts a message, a continuation needs one; no control frame comes in between. */
  predicate Fitting(s: Stream, f: Frame) {
    if f.opcode == 0 then s.partial.Some? else s.partial.None?
  }

  function Finish(s: Stream, d: Delivery): Stream {
    s.(partial := None,
       delivered := s.delivered + [d],
       pongs := if d.kind == Ping && s.writing then s.pongs + [d.payload] else s.pongs,
       writing := s.writing && d.kind != Close)
  }

  /** The message so far; a stray continuation, which has none, counts as a message of unknown kind. */
  function Gathered(s: Stream, f: Frame): Delivery {
    if f.opcode != 0 then Delivery(f.payload, KindAfter(Unknown, f.opcode))
    else if s.partial.Some? then Delivery(s.partial.value.payload + f.payload, s.partial.value.kind)
    else Delivery(f.payload, Unknown)
  }

  function Next(s: Stream, f: Frame): Stream {
    if f.fin then Finish(s, Gathered(s, f)) else s.(partial := Some(Gathered(s, f)))
  }

  /** What the first `k` frames mean. */
  function Meaning(s: Stream, frames: seq<Frame>, k: nat): Stream
    requires k <= |frames|
  {
    if k == 0 then s else Next(Meaning(s, frames, k - 1), frames[k - 1])
  }

  predicate LegalAt(s: Stream, frames: seq<Frame>, k: nat, limit: nat)
    requires k < |frames|
  {
    Acceptable(frames[k], limit) && Fitting(Meaning(s, frames, k), frames[k])
  }

  predicate Legal(s: Stream, frames: seq<Frame>, limit: nat) {
    forall k :: 0 <= k < |frames| ==> LegalAt(s, frames, k, limit)
  }

  /** The bytes of the frames from the `k`-th on. */
  function WiresFrom(frames: seq<Frame>, k: nat): Data
    requires k <= |frames|
    decreases |frames| - k
  {
    if k == |frames| then [] else Wire(frames[k]) + WiresFrom(frames, k + 1)
  }

  predicate KnownPartial(s: Stream) {
    s.partial.Some? ==> s.partial.value.kind != Unknown
  }

  /** An endpoint that has taken what `s` describes. */
  predicate Agrees(e: Endpoint, s: Stream) {
    && e.delivered == s.delivered && e.pongs == s.pongs && e.writing == s.writing
    && KnownPartial(s)
    && e.parser.message == (if s.partial.Some? then s.partial.value.payload else [])
    && (s.partial.Some? ==> e.parser.kind == s.partial.value.kind)
  }

  /** The endpoint after one whole frame at the front of a read. */
  lemma FrameTaken(e: Endpoint, s: Stream, f: Frame, behind: Data, limit: nat)
    requires Agrees(e, s) && Acceptable(f, limit) && Fitting(s, f)
    ensures var p := Parse(e.parser, Wire(f) + behind, limit);
      && p == Fine(Started(e.parser, f).(message := Gathered(s, f).payload, gotAll := f.fin), behind)
      && p.p.kind == Gathered(s, f).kind != Unknown
  {
    WholeFrame(e.parser, f, behind, limit);
    assert [] + f.payload == f.payload;
  }

  /** The endpoint when a message is complete. */
  function Completed(e: Endpoint, d: Delivery): Endpoint {
    Deliver(e.(parser := Parser([], d.kind, true)), d)
  }

  lemma FinalFrame(e: Endpoint, s: Stream, f: Frame, behind: Data, limit: nat)
    requires Agrees(e, s) && Acceptable(f, limit) && Fitting(s, f) && f.fin
    ensures var e1 := Completed(e, Gathered(s, f));
      Agrees(e1, Next(s, f)) && OnMessage(e, Wire(f) + behind, limit) == OnMessage(e1, behind, limit)
  {
    FrameTaken(e, s, f, behind, limit);
  }

  lemma FragmentFrame(e: Endpoint, s: Stream, f: Frame, behind: Data, limit: nat)
    requires Agrees(e, s) && Acceptable(f, limit) && Fitting(s, f) && !f.fin
    ensures var o := OnMessage(e, Wire(f) + behind, limit); o.rest == behind && Agrees(o.e, Next(s, f))
  {
    FrameTaken(e, s, f, behind, limit);
  }

  lemma PartTaken(e: Endpoint, s: Stream, part: Data, next: Frame, limit: nat)
    requires Agrees(e, s) && Acceptable(next, limit) && StrictPrefix(part, Wire(next))
    requires Fitting(s, next)
    ensures var o := OnMessage(e, part, limit); o.rest == part && Agrees(o.e, s)
  {
    if part != [] {
      PartialFrame(e.parser, next, part, limit);
    }
  }

  /** Where two ways to cut the same bytes meet. */
  lemma FrontCut(w: Data, tail: Data, bytes: Data, behind: Data)
    requires w + tail == bytes + behind
    ensures |bytes| < |w| ==> StrictPrefix(bytes, w)
    ensures |bytes| >= |w| ==> bytes == w + bytes[|w|..] && tail == bytes[|w|..] + behind
  {
    var all := bytes + behind;
    if |bytes| < |w| {
      assert all[..|bytes|] == bytes && (w + tail)[..|bytes|] == w[..|bytes|];
    } else {
      assert (w + tail)[..|w|] == w && all[..|w|] == bytes[..|w|];
      assert (w + tail)[|w|..] == tail && all[|w|..] == bytes[|w|..] + behind;
    }
  }

  /** `o` has taken the first `k` frames of a stream of which `behind` is still to come. */
  predicate Took(o: Outcome, s: Stream, frames: seq<Frame>, k: nat, behind: Data) {
    k <= |frames| && Agrees(o.e, Meaning(s, frames, k)) && WiresFrom(frames, k) == o.rest + behind
  }

  /** Less than one frame is left. */
  predicate CaughtUp(rest: Data, frames: seq<Frame>, k: nat) {
    k <= |frames| && if k < |frames| then StrictPrefix(rest, Wire(frames[k])) else rest == []
  }

  /**
   From frame `i`, a read takes frames that end their messages, and then stops for want of bytes or at
   one that does not.
   */
  predicate StopsAt(frames: seq<Frame>, i: nat, k: nat, rest: Data) {
    && i <= k <= |frames|
    && (forall j :: i <= j < k - 1 ==> frames[j].fin)
    && (CaughtUp(rest, frames, k) || (k > i && !frames[k - 1].fin))
  }

  lemma StopsLater(frames: seq<Frame>, i: nat, k: nat, rest: Data)
    requires i < |frames| && frames[i].fin && StopsAt(frames, i + 1, k, rest)
    ensures StopsAt(frames, i, k, rest)
  {
  }

  lemma ReadPart(e: Endpoint, s: Stream, frames: seq<Frame>, i: nat, bytes: Data, behind: Data, limit: nat)
    requires i < |frames| && Legal(s, frames, limit) && Took(Outcome(e, bytes), s, frames, i, behind)
    requires |bytes| < |Wire(frames[i])|
    ensures var o := OnMessage(e, bytes, limit); Took(o, s, frames, i, behind) && CaughtUp(o.rest, frames, i)
  {
    assert LegalAt(s, frames, i, limit);
    FrontCut(Wire(frames[i]), WiresFrom(frames, i + 1), bytes, behind);
    PartTaken(e, Meaning(s, frames, i), bytes, frames[i], limit);
  }

  lemma ReadFinal(e: Endpoint, s: Stream, frames: seq<Frame>, i: nat, bytes: Data, behind: Data, limit: nat)
    returns (e1: Endpoint, tail: Data)
    requires i < |frames| && Legal(s, frames, limit) && Took(Outcome(e, bytes), s, frames, i, behind)
    requires |bytes| >= |Wire(frames[i])| && frames[i].fin
    ensures Took(Outcome(e1, tail), s, frames, i + 1, behind)
    ensures OnMessage(e, bytes, limit) == OnMessage(e1, tail, limit)
  {
    assert LegalAt(s, frames, i, limit);
    FrontCut(Wire(frames[i]), WiresFrom(frames, i + 1), bytes, behind);
    tail := bytes[|Wire(frames[i])|..];
    e1 := Completed(e, Gathered(Meaning(s, frames, i), frames[i]));
    FinalFrame(e, Meaning(s, frames, i), frames[i], tail, limit);
  }

  lemma ReadFragment(e: Endpoint, s: Stream, frames: seq<Frame>, i: nat, bytes: Data, behind: Data, limit: nat)
    requires i < |frames| && Legal(s, frames, limit) && Took(Outcome(e, bytes), s, frames, i, behind)
    requires |bytes| >= |Wire(frames[i])| && !frames[i].fin
    ensures Took(OnMessage(e, bytes, limit), s, frames, i + 1, behind)
  {
    assert LegalAt(s, frames, i, limit);
    FrontCut(Wire(frames[i]), WiresFrom(frames, i + 1), bytes, behind);
    FragmentFrame(e, Meaning(s, frames, i), frames[i], bytes[|Wire(frames[i])|..], limit);
  }

  /**
   One read, from the `i`-th frame on: it takes the whole frames up to the first that does not end its
   message, with their meaning, and leaves the bytes behind them.
   */
  lemma {:induction false} OneRead(e: Endpoint, s: Stream, frames: seq<Frame>, i: nat, bytes: Data, behind: Data,
                                   limit: nat)
    returns (k: nat)
    requires Legal(s, frames, limit) && Took(Outcome(e, bytes), s, frames, i, behind)
    ensures i <= k && Took(OnMessage(e, bytes, limit), s, frames, k, behind)
    ensures StopsAt(frames, i, k, OnMessage(e, bytes, limit).rest)
    decreases |frames| - i
  {
    k := i;
    if i == |frames| {
      assert bytes == [];
    } else if |bytes| < |Wire(frames[i])| {
      ReadPart(e, s, frames, i, bytes, behind, limit);
    } else if frames[i].fin {
      var e1, tail := ReadFinal(e, s, frames, i, bytes, behind, limit);
      k := OneRead(e1, s, frames, i + 1, tail, behind, limit);
      StopsLater(frames, i, k, OnMessage(e, bytes, limit).rest);
    } else {
      ReadFragment(e, s, frames, i, bytes, behind, limit);
      k := i + 1;
    }
  }

  // ---------------------------------------------------------------- many reads

  function Joined(pieces: seq<Data>): Data {
    if pieces == [] then [] else pieces[0] + Joined(pieces[1..])
  }

  lemma Regroup(a: Data, b: Data, c: Data, d: Data)
    ensures a + ((b + c) + d) == (a + b) + (c + d)
  {
  }

  lemma NextBytes(pending: Data, pieces: seq<Data>, behind: Data)
    requires pieces != []
    ensures pending + (Joined(pieces) + behind) == (pending + pieces[0]) + (Joined(pieces[1..]) + behind)
  {
    Regroup(pending, pieces[0], Joined(pieces[1..]), behind);
  }

  lemma NoBytes(pending: Data, behind: Data)
    ensures pending + (Joined([]) + behind) == pending + behind
  {
    assert [] + behind == behind;
  }

  /**
   Any legal stream, cut anywhere: what has been delivered is always the meaning of some first frames,
   and the unread bytes are the rest of the stream so far.
   */
  lemma {:induction false} ReadsFollow(e: Endpoint, s: Stream, frames: seq<Frame>, i: nat, pending: Data,
                                       pieces: seq<Data>, behind: Data, limit: nat) returns (k: nat)
    requires Legal(s, frames, limit) && Took(Outcome(e, pending), s, frames, i, Joined(pieces) + behind)
    ensures i <= k && Took(Reads(e, pending, pieces, limit), s, frames, k, behind)
    decreases |pieces|
  {
    if pieces == [] {
      k := i;
      NoBytes(pending, behind);
    } else {
      NextBytes(pending, pieces, behind);
      var bytes := pending + pieces[0];
      var j := OneRead(e, s, frames, i, bytes, Joined(pieces[1..]) + behind, limit);
      var o := OnMessage(e, bytes, limit);
      k := ReadsFollow(o.e, s, frames, j, o.rest, pieces[1..], behind, limit);
    }
  }

  // ---------------------------------------------------------------- unfragmented messages

  predicate AllFinal(frames: seq<Frame>) {
    forall i :: 0 <= i < |frames| ==> frames[i].fin
  }

  /** Without fragments every read delivers all that is whole, and keeps less than one frame. */
  lemma {:induction false} PromptReads(e: Endpoint, s: Stream, frames: seq<Frame>, i: nat, pending: Data,
                                       pieces: seq<Data>, behind: Data, limit: nat) returns (k: nat)
    requires Legal(s, frames, limit) && AllFinal(frames)
    requires Took(Outcome(e, pending), s, frames, i, Joined(pieces) + behind) && CaughtUp(pending, frames, i)
    ensures i <= k && Took(Reads(e, pending, pieces, limit), s, frames, k, behind)
    ensures CaughtUp(Reads(e, pending, pieces, limit).rest, frames, k)
    decreases |pieces|
  {
    if pieces == [] {
      k := i;
      NoBytes(pending, behind);
    } else {
      NextBytes(pending, pieces, behind);
      var bytes := pending + pieces[0];
      var j := OneRead(e, s, frames, i, bytes, Joined(pieces[1..]) + behind, limit);
      var o := OnMessage(e, bytes, limit);
      k := PromptReads(o.e, s, frames, j, o.rest, pieces[1..], behind, limit);
    }
  }

  /** A message to send, and the masking key if it is sent by a client. */
  datatype Sent = Sent(d: Delivery, key: Option<Key>)

  function OpcodeOf(kind: Kind): Opcode {
    match kind
    case Text => 1
    case Binary => 2
    case Close => 8
    case Ping => 9
    case Pong => 10
    case Unknown => 0
  }

  function FrameOf(m: Sent): Frame {
    Frame(true, OpcodeOf(m.d.kind), m.d.payload, m.key)
  }

  function FramesOf(ms: seq<Sent>): (fs: seq<Frame>)
    ensures |fs| == |ms| && forall i :: 0 <= i < |ms| ==> fs[i] == FrameOf(ms[i])
  {
    seq(|ms|, i requires 0 <= i < |ms| => FrameOf(ms[i]))
  }

  predicate Sendable(m: Sent, limit: nat) {
    && m.d.kind != Unknown && |m.d.payload| < LENGTHS
    && (m.d.kind in {Close, Ping, Pong} ==> |m.d.payload| <= 125)
    && (m.key.Some? ==> |m.d.payload| <= limit)
  }

  predicate AllSendable(ms: seq<Sent>, limit: nat) {
    forall i :: 0 <= i < |ms| ==> Sendable(ms[i], limit)
  }

  function Deliveries(ms: seq<Sent>, k: nat): (ds: seq<Delivery>)
    requires k <= |ms|
    ensures |ds| == k && forall i :: 0 <= i < k ==> ds[i] == ms[i].d
  {
    seq(k, i requires 0 <= i < k => ms[i].d)
  }

  predicate NoClose(ms: seq<Sent>, k: nat)
    requires k <= |ms|
  {
    forall i :: 0 <= i < k ==> ms[i].d.kind != Close
  }

  /** One pong for each ping that comes before the first close. */
  function Pongs(ms: seq<Sent>, k: nat): seq<Data>
    requires k <= |ms|
  {
    if k == 0 then []
    else if ms[k - 1].d.kind == Ping && NoClose(ms, k - 1) then Pongs(ms, k - 1) + [ms[k - 1].d.payload]
    else Pongs(ms, k - 1)
  }

  lemma MessageMeans(s: Stream, m: Sent, limit: nat)
    requires s.partial.None? && Sendable(m, limit)
    ensures Acceptable(FrameOf(m), limit) && Fitting(s, FrameOf(m))
    ensures Next(s, FrameOf(m)) == Finish(s, m.d)
  {
  }

  lemma {:induction false} MessagesMean(s: Stream, ms: seq<Sent>, k: nat, limit: nat)
    requires s.partial.None? && s.writing && AllSendable(ms, limit) && k <= |ms|
    ensures Meaning(s, FramesOf(ms), k) ==
      Stream(None, s.delivered + Deliveries(ms, k), s.pongs + Pongs(ms, k), NoClose(ms, k))
  {
    if k == 0 {
      assert s.delivered + [] == s.delivered && s.pongs + [] == s.pongs;
    } else {
      MessagesMean(s, ms, k - 1, limit);
      MessageMeans(Meaning(s, FramesOf(ms), k - 1), ms[k - 1], limit);
      var d := ms[k - 1].d;
      assert Deliveries(ms, k) == Deliveries(ms, k - 1) + [d];
      assert (s.delivered + Deliveries(ms, k - 1)) + [d] == s.delivered + Deliveries(ms, k);
      assert (s.pongs + Pongs(ms, k - 1)) + [d.payload] == s.pongs + (Pongs(ms, k - 1) + [d.payload]);
      assert NoClose(ms, k) <==> NoClose(ms, k - 1) && d.kind != Close;
    }
  }

  lemma MessagesLegal(s: Stream, ms: seq<Sent>, limit: nat)
    requires s.partial.None? && s.writing && AllSendable(ms, limit)
    ensures Legal(s, FramesOf(ms), limit)
  {
    forall k | 0 <= k < |ms| ensures LegalAt(s, FramesOf(ms), k, limit) {
      MessagesMean(s, ms, k, limit);
      MessageMeans(Meaning(s, FramesOf(ms), k), ms[k], limit);
    }
  }

  function Fresh(e: Endpoint): Stream {
    Stream(None, e.delivered, e.pongs, e.writing)
  }

  /**
   Messages framed one by one and cut anywhere: after all bytes exactly these messages were delivered,
   in order, each ping before a close got its pong, and nothing is left.
   */
  lemma {:induction false} StreamArrives(e: Endpoint, ms: seq<Sent>, pieces: seq<Data>, limit: nat)
    requires e.parser.message == [] && e.writing && AllSendable(ms, limit)
    requires Joined(pieces) == WiresFrom(FramesOf(ms), 0)
    ensures var o := Reads(e, [], pieces, limit);
      && o.rest == []
      && o.e.delivered == e.delivered + Deliveries(ms, |ms|)
      && o.e.pongs == e.pongs + Pongs(ms, |ms|)
      && (o.e.writing <==> NoClose(ms, |ms|))
  {
    var s, frames := Fresh(e), FramesOf(ms);
    MessagesLegal(s, ms, limit);
    assert [] + (Joined(pieces) + []) == Joined(pieces);
    var k := PromptReads(e, s, frames, 0, [], pieces, [], limit);
    var o := Reads(e, [], pieces, limit);
    assert o.rest + [] == o.rest;
    MessagesMean(s, ms, k, limit);
  }

  // ---------------------------------------------------------------- fragmented messages

  datatype Fragment = Fragment(payload: Data, key: Option<Key>)

  /** A message in one or more fragments; only the first carries the opcode, only the last ends it. */
  function Fragments(kind: Kind, parts: seq<Fragment>): (fs: seq<Frame>)
    ensures |fs| == |parts|
    ensures forall i :: 0 <= i < |parts| ==>
      fs[i] == Frame(i == |parts| - 1, if i == 0 then OpcodeOf(kind) else 0, parts[i].payload, parts[i].key)
  {
    seq(|parts|, i requires 0 <= i < |parts| =>
      Frame(i == |parts| - 1, if i == 0 then OpcodeOf(kind) else 0, parts[i].payload, parts[i].key))
  }

  /** The payload of the first `k` fragments. */
  function Whole(parts: seq<Fragment>, k: nat): Data
    requires k <= |parts|
  {
    if k == 0 then [] else Whole(parts, k - 1) + parts[k - 1].payload
  }

  predicate AllFit(parts: seq<Fragment>, limit: nat) {
    forall i :: 0 <= i < |parts| ==>
      |parts[i].payload| < LENGTHS && (parts[i].key.Some? ==> |parts[i].payload| <= limit)
  }

  /** The first fragments mean their concatenation so far, of the kind of the first; the last one finishes it. */
  lemma {:induction false} FragmentsMean(s: Stream, kind: Kind, parts: seq<Fragment>, k: nat)
    requires s.partial.None? && kind in {Text, Binary} && k <= |parts|
    ensures Meaning(s, Fragments(kind, parts), k) ==
      if k == 0 then s
      else if k < |parts| then s.(partial := Some(Delivery(Whole(parts, k), kind)))
      else Finish(s, Delivery(Whole(parts, k), kind))
  {
    if k > 0 {
      FragmentsMean(s, kind, parts, k - 1);
      assert [] + parts[0].payload == parts[0].payload;
    }
  }

  lemma FragmentsLegal(s: Stream, kind: Kind, parts: seq<Fragment>, limit: nat)
    requires s.partial.None? && kind in {Text, Binary} && AllFit(parts, limit)
    ensures Legal(s, Fragments(kind, parts), limit)
  {
    var frames := Fragments(kind, parts);
    forall k | 0 <= k < |frames| ensures LegalAt(s, frames, k, limit) {
      FragmentsMean(s, kind, parts, k);
    }
  }

  /** The bytes of the frames from the `i`-th up to the `k`-th. */
  function Span(frames: seq<Frame>, i: nat, k: nat): int
    requires i <= k <= |frames|
  {
    |WiresFrom(frames, i)| - |WiresFrom(frames, k)|
  }

  /** Which of the reads brings the last of so many bytes. */
  function ReadWith(pieces: seq<Data>, bytes: int): nat
    decreases |pieces|
  {
    if pieces == [] || bytes <= |pieces[0]| then 0 else 1 + ReadWith(pieces[1..], bytes - |pieces[0]|)
  }

  /**
   From the read that completes the `k`-th frame on there are as many reads as frames from that one on;
   reading begins with the `i`-th, and `pending` bytes are there already.
   */
  predicate ReadsSuffice(frames: seq<Frame>, i: nat, pending: nat, pieces: seq<Data>, k: nat)
    requires i <= k < |frames|
  {
    |frames| - k <= |pieces| - ReadWith(pieces, Span(frames, i, k + 1) - pending)
  }

  predicate InTime(frames: seq<Frame>, i: nat, pending: nat, pieces: seq<Data>) {
    forall k :: i <= k < |frames| ==> ReadsSuffice(frames, i, pending, pieces, k)
  }

  lemma {:induction false} SpanAtLeast(frames: seq<Frame>, i: nat, k: nat)
    requires i < k <= |frames|
    ensures Span(frames, i, k) >= |Wire(frames[i])|
    ensures Span(frames, i, k) == |Wire(frames[i])| + Span(frames, i + 1, k)
    decreases k - i
  {
    if i + 1 < k {
      SpanAtLeast(frames, i + 1, k);
    }
  }

  lemma SufficeWaiting(frames: seq<Frame>, i: nat, pending: nat, pieces: seq<Data>, k: nat)
    requires i <= k < |frames| && pieces != [] && pending + |pieces[0]| < |Wire(frames[i])|
    ensures ReadsSuffice(frames, i, pending, pieces, k) <==>
      ReadsSuffice(frames, i, pending + |pieces[0]|, pieces[1..], k)
  {
    SpanAtLeast(frames, i, k + 1);
  }

  /** While the next frame is incomplete, a read changes nothing but the bytes there are. */
  lemma {:induction false} InTimeWaits(frames: seq<Frame>, i: nat, pending: nat, pieces: seq<Data>, more: nat)
    requires i < |frames| && pieces != [] && more == pending + |pieces[0]| < |Wire(frames[i])|
    ensures InTime(frames, i, pending, pieces) <==> InTime(frames, i, more, pieces[1..])
  {
    var tail := pieces[1..];
    forall k: nat | i <= k < |frames|
      ensures ReadsSuffice(frames, i, pending, pieces, k) == ReadsSuffice(frames, i, more, tail, k)
    {
      SufficeWaiting(frames, i, pending, pieces, k);
    }
    AlikeInTime(frames, i, pending, pieces, more, tail);
  }

  lemma {:induction false} AlikeInTime(frames: seq<Frame>, i: nat, pending: nat, pieces: seq<Data>, more: nat,
                                       tail: seq<Data>)
    requires forall k: nat :: i <= k < |frames| ==>
      ReadsSuffice(frames, i, pending, pieces, k) == ReadsSuffice(frames, i, more, tail, k)
    ensures InTime(frames, i, pending, pieces) <==> InTime(frames, i, more, tail)
  {
    if InTime(frames, i, pending, pieces) {
      forall k | i <= k < |frames| ensures ReadsSuffice(frames, i, more, tail, k) {
        assert ReadsSuffice(frames, i, pending, pieces, k);
      }
    }
    if InTime(frames, i, more, tail) {
      forall k | i <= k < |frames| ensures ReadsSuffice(frames, i, pending, pieces, k) {
        assert ReadsSuffice(frames, i, more, tail, k);
      }
    }
  }

  lemma SufficeAfter(frames: seq<Frame>, i: nat, pending: nat, pieces: seq<Data>, left: nat, k: nat)
    requires i < k < |frames| && pieces != [] && left + |Wire(frames[i])| == pending + |pieces[0]|
    requires |frames| - i <= |pieces|
    ensures ReadsSuffice(frames, i, pending, pieces, k) <==> ReadsSuffice(frames, i + 1, left, pieces[1..], k)
  {
    SpanAtLeast(frames, i, k + 1);
    assert Span(frames, i, k + 1) - pending - |pieces[0]| == Span(frames, i + 1, k + 1) - left;
  }

  lemma SufficeNow(frames: seq<Frame>, i: nat, pending: nat, pieces: seq<Data>, left: nat)
    requires i < |frames| && pieces != [] && left + |Wire(frames[i])| == pending + |pieces[0]|
    ensures ReadsSuffice(frames, i, pending, pieces, i) <==> |frames| - i <= |pieces|
  {
    SpanAtLeast(frames, i, i + 1);
  }

  /** Once it is complete, one read is used up for it. */
  lemma {:induction false} InTimeTakes(frames: seq<Frame>, i: nat, pending: nat, pieces: seq<Data>, left: nat)
    requires i < |frames| && pieces != [] && left + |Wire(frames[i])| == pending + |pieces[0]|
    ensures InTime(frames, i, pending, pieces) <==> InTime(frames, i + 1, left, pieces[1..])
  {
    var next, tail := i + 1, pieces[1..];
    SufficeNow(frames, i, pending, pieces, left);
    if InTime(frames, i, pending, pieces) {
      assert ReadsSuffice(frames, i, pending, pieces, i);
      forall k | next <= k < |frames| ensures ReadsSuffice(frames, next, left, tail, k) {
        SufficeAfter(frames, i, pending, pieces, left, k);
      }
    }
    if InTime(frames, next, left, tail) {
      assert next < |frames| ==> ReadsSuffice(frames, next, left, tail, next);
      forall k | i <= k < |frames| ensures ReadsSuffice(frames, i, pending, pieces, k) {
        if k > i {
          SufficeAfter(frames, i, pending, pieces, left, k);
        }
      }
    }
  }

  /** Only the last of the frames ends the message. */
  predicate OneMessage(frames: seq<Frame>) {
    forall i :: 0 <= i < |frames| ==> (frames[i].fin <==> i == |frames| - 1)
  }

  /** A read takes the next fragment if it is complete, and no other. */
  lemma {:induction false} OneFragment(e: Endpoint, s: Stream, frames: seq<Frame>, i: nat, bytes: Data, behind: Data,
                                       limit: nat) returns (k: nat)
    requires Legal(s, frames, limit) && Took(Outcome(e, bytes), s, frames, i, behind) && OneMessage(frames)
      && i < |frames|
    ensures Took(OnMessage(e, bytes, limit), s, frames, k, behind)
    ensures k == if |bytes| >= |Wire(frames[i])| then i + 1 else i
    ensures |OnMessage(e, bytes, limit).rest| == |bytes| - if k == i then 0 else |Wire(frames[i])|
  {
    if |bytes| < |Wire(frames[i])| {
      k := i;
      ReadPart(e, s, frames, i, bytes, behind, limit);
    } else if frames[i].fin {
      k := i + 1;
      var e1, tail := ReadFinal(e, s, frames, i, bytes, behind, limit);
      assert tail == [];
    } else {
      k := i + 1;
      ReadFragment(e, s, frames, i, bytes, behind, limit);
    }
    TookSizes(Outcome(e, bytes), OnMessage(e, bytes, limit), s, frames, i, k, behind);
  }

  /** The first of some reads of a fragmented message. */
  lemma {:induction false} FirstRead(e: Endpoint, s: Stream, frames: seq<Frame>, i: nat, pending: Data,
                                     pieces: seq<Data>, limit: nat) returns (j: nat)
    requires Legal(s, frames, limit) && OneMessage(frames) && i < |frames| && pieces != []
    requires Took(Outcome(e, pending), s, frames, i, Joined(pieces) + [])
    ensures Took(OnMessage(e, pending + pieces[0], limit), s, frames, j, Joined(pieces[1..]) + [])
    ensures InTime(frames, i, |pending|, pieces) <==>
      InTime(frames, j, |OnMessage(e, pending + pieces[0], limit).rest|, pieces[1..])
  {
    NextBytes(pending, pieces, []);
    var bytes, behind := pending + pieces[0], Joined(pieces[1..]) + [];
    j := OneFragment(e, s, frames, i, bytes, behind, limit);
    var o := OnMessage(e, bytes, limit);
    if j == i {
      InTimeWaits(frames, i, |pending|, pieces, |o.rest|);
    } else {
      InTimeTakes(frames, i, |pending|, pieces, |o.rest|);
    }
  }

  /** All fragments are taken exactly when the reads are in time. */
  lemma {:induction false} FragmentsTaken(e: Endpoint, s: Stream, frames: seq<Frame>, i: nat, pending: Data,
                                          pieces: seq<Data>, limit: nat) returns (k: nat)
    requires Legal(s, frames, limit) && OneMessage(frames)
    requires Took(Outcome(e, pending), s, frames, i, Joined(pieces) + [])
    ensures Took(Reads(e, pending, pieces, limit), s, frames, k, [])
    ensures k == |frames| <==> InTime(frames, i, |pending|, pieces)
    decreases |pieces|
  {
    if i == |frames| {
      k := ReadsFollow(e, s, frames, i, pending, pieces, [], limit);
    } else if pieces == [] {
      k := i;
      NoBytes(pending, []);
      assert !ReadsSuffice(frames, i, |pending|, pieces, i);
    } else {
      var j := FirstRead(e, s, frames, i, pending, pieces, limit);
      var o := OnMessage(e, pending + pieces[0], limit);
      k := FragmentsTaken(o.e, s, frames, j, o.rest, pieces[1..], limit);
    }
  }

  lemma {:induction false} TookSizes(o: Outcome, o1: Outcome, s: Stream, frames: seq<Frame>, i: nat, j: nat,
                                     behind: Data)
    requires i < |frames| && i <= j <= i + 1 && Took(o, s, frames, i, behind) && Took(o1, s, frames, j, behind)
    ensures |o1.rest| == |o.rest| - if j == i then 0 else |Wire(frames[i])|
  {
    assert |o.rest + behind| == |o.rest| + |behind| && |o1.rest + behind| == |o1.rest| + |behind|;
  }

  /**
   A fragmented message is delivered whole or not at all, whatever the cut.  It is delivered exactly when,
   for every fragment, there are as many reads from the one that completes it as fragments from it on.
   */
  lemma {:induction false} FragmentsArrive(e: Endpoint, kind: Kind, parts: seq<Fragment>, pieces: seq<Data>, limit: nat)
    requires e.parser.message == [] && kind in {Text, Binary} && parts != [] && AllFit(parts, limit)
    requires Joined(pieces) == WiresFrom(Fragments(kind, parts), 0)
    ensures var o, inTime := Reads(e, [], pieces, limit), InTime(Fragments(kind, parts), 0, 0, pieces);
      && o.e.delivered == e.delivered + (if inTime then [Delivery(Whole(parts, |parts|), kind)] else [])
      && (inTime <==> o.rest == [])
  {
    var s, frames := Fresh(e), Fragments(kind, parts);
    FragmentsLegal(s, kind, parts, limit);
    assert [] + (Joined(pieces) + []) == Joined(pieces);
    var k := FragmentsTaken(e, s, frames, 0, [], pieces, limit);
    var o := Reads(e, [], pieces, limit);
    assert o.rest + [] == o.rest;
    assert o.rest == [] <==> k == |parts|;
    FragmentsMean(s, kind, parts, k);
    assert e.delivered + [] == e.delivered;
  }

  /** Two fragments in one read: the second stays in the buffer, and the message undelivered, until more bytes come. */
  lemma {:induction false} FragmentWaits(limit: nat)
    ensures var first, last := Frame(false, 1, [72], None), Frame(true, 0, [105], None);
      var e := Endpoint(Parser([], Unknown, false), [], [], true);
      var o := OnMessage(e, Wire(first) + Wire(last), limit);
      o.e.delivered == [] && o.rest == Wire(last)
  {
    var first, last := Frame(false, 1, [72], None), Frame(true, 0, [105], None);
    var e := Endpoint(Parser([], Unknown, false), [], [], true);
    FragmentFrame(e, Stream(None, [], [], true), first, Wire(last), limit);
  }
}
