/** The parser's results do not depend on how the stream was cut into reads, and exactly when a cut breaks it. */
module SegmentationProofs {
  import opened Wrappers
  import opened Text
  import opened HttpRequest
  import opened RequestParser
  import Store = BodyStore

  /** The body store is one that the configuration allows, and untouched before the body. */
  predicate Stored(p: Parser, cfg: Config) {
    && Store.Within(p.request.body, cfg.maxMemory)
    && (BeforeBody(p.status) ==> p.request.body == Store.EMPTY)
  }

  /** What is behind the bytes of a turn stays in the buffer. */
  function Extend(t: Turn, more: string): Turn {
    match t
    case More(p, rest) => More(p, rest + more)
    case Leave(p, rest) => Leave(p, rest + more)
    case Reject(code) => t
  }

  lemma FindStable(a: string, b: string, c: char)
    ensures Find(a, c) < |a| ==> Find(a + b, c) == Find(a, c)
  {
    if Find(a, c) < |a| {
      FindIs(a + b, c, Find(a, c));
    }
  }

  lemma SliceExtends(a: string, b: string, i: nat)
    requires i <= |a|
    ensures (a + b)[..i] == a[..i] && (a + b)[i..] == a[i..] + b
  {
  }

  // ---------------------------------------------------------------- one turn

  /** A line that ends in `a` is the same line with more bytes behind. */
  lemma LineExtends(a: string, b: string)
    requires FindCrlf(a).Some?
    ensures FindCrlf(a + b) == FindCrlf(a)
    ensures var crlf := FindCrlf(a).value; (a + b)[..crlf] == a[..crlf] && (a + b)[crlf + 2..] == a[crlf + 2..] + b
  {
    FindCrlfStable(a, b);
    SliceExtends(a, b, FindCrlf(a).value);
    SliceExtends(a, b, FindCrlf(a).value + 2);
  }

  lemma MethodExtends(p: Parser, a: string, b: string)
    requires OnMethod(p, a).More?
    ensures OnMethod(p, a + b) == Extend(OnMethod(p, a), b)
  {
    FindStable(a, b, ' ');
    SliceExtends(a, b, Find(a, ' '));
    SliceExtends(a, b, Find(a, ' ') + 1);
  }

  lemma EmptyLineExtends(p: Parser, rest: string, b: string, cfg: Config)
    ensures OnEmptyLine(p, rest + b, cfg) == Extend(OnEmptyLine(p, rest, cfg), b)
  {
  }

  lemma {:induction false} HeaderExtends(p: Parser, a: string, b: string, cfg: Config)
    requires FindCrlf(a).Some?
    ensures OnHeader(p, a + b, cfg) == Extend(OnHeader(p, a, cfg), b)
  {
    LineExtends(a, b);
    EmptyLineExtends(p, a[FindCrlf(a).value + 2..], b, cfg);
  }

  lemma {:induction false} ChunkLengthExtends(p: Parser, a: string, b: string, cfg: Config)
    requires FindCrlf(a).Some?
    ensures OnChunkLength(p, a + b, cfg) == Extend(OnChunkLength(p, a, cfg), b)
  {
    LineExtends(a, b);
  }

  lemma ChunkBodyExtends(p: Parser, a: string, b: string, cfg: Config)
    requires |a| >= p.chunkLength + 2
    ensures OnChunkBody(p, a + b, cfg) == Extend(OnChunkBody(p, a, cfg), b)
  {
    SliceExtends(a, b, p.chunkLength);
    SliceExtends(a, b, p.chunkLength + 2);
  }

  /** Outside the body, a turn that consumed something does the same with more bytes behind. */
  lemma TurnExtends(p: Parser, a: string, b: string, cfg: Config)
    requires Sound(p) && p.status != ExpectBody
    requires var t := TakeTurn(p, a, cfg); t.More? || (t.Leave? && t.p.status == GotAll)
    ensures TakeTurn(p, a + b, cfg) == Extend(TakeTurn(p, a, cfg), b)
  {
    match p.status
    case ExpectMethod => MethodExtends(p, a, b);
    case ExpectRequestLine => LineExtends(a, b);
    case ExpectHeaders => HeaderExtends(p, a, b, cfg);
    case ExpectChunkLen => ChunkLengthExtends(p, a, b, cfg);
    case ExpectChunkBody => ChunkBodyExtends(p, a, b, cfg);
    case ExpectLastEmptyChunk => LineExtends(a, b);
  }

  /** A turn that waits for more bytes changes nothing. */
  lemma WaitingTurn(p: Parser, a: string, cfg: Config)
    requires Sound(p)
    ensures var t := TakeTurn(p, a, cfg); t.Leave? && t.p.status != GotAll ==> t == Leave(p, a)
  {
  }

  /** The body takes bytes as they come: two reads or one make no difference. */
  lemma BodyMerges(p: Parser, a: string, b: string, cfg: Config)
    requires Sound(p) && Stored(p, cfg) && p.status == ExpectBody
    requires 0 < |a| < p.contentLength && b != ""
    ensures var q := TakeBody(p, a, cfg).(contentLength := p.contentLength - |a|);
      TakeTurn(p, a, cfg) == More(q, "") && TakeTurn(p, a + b, cfg) == TakeTurn(q, b, cfg)
  {
    var q := TakeBody(p, a, cfg).(contentLength := p.contentLength - |a|);
    assert a[..|a|] == a && a[|a|..] == "";
    var n := if q.contentLength >= |b| then |b| else q.contentLength;
    assert (a + b)[..|a| + n] == a + b[..n] && (a + b)[|a| + n..] == b[n..];
    Store.AppendTwice(p.request.body, a, b[..n], cfg.maxMemory);
  }

  /** A body that is complete in `a` is complete in `a + b`, with `b` left. */
  lemma BodyCompletes(p: Parser, a: string, b: string, cfg: Config)
    requires Sound(p) && p.status == ExpectBody && |a| >= p.contentLength
    ensures TakeTurn(p, a + b, cfg) == Extend(TakeTurn(p, a, cfg), b)
    ensures TakeTurn(p, a, cfg).Leave? && TakeTurn(p, a, cfg).p.status == GotAll
  {
    SliceExtends(a, b, p.contentLength);
  }

  lemma EmptyLineStores(p: Parser, rest: string, cfg: Config)
    requires p.status == ExpectHeaders && Sound(p) && Stored(p, cfg) && !OnEmptyLine(p, rest, cfg).Reject?
    ensures Stored(OnEmptyLine(p, rest, cfg).p, cfg)
    ensures OnEmptyLine(p, rest, cfg).More? ==> Sound(OnEmptyLine(p, rest, cfg).p)
  {
  }

  lemma HeaderStores(p: Parser, a: string, cfg: Config)
    requires p.status == ExpectHeaders && Sound(p) && Stored(p, cfg) && !OnHeader(p, a, cfg).Reject?
    ensures Stored(OnHeader(p, a, cfg).p, cfg)
    ensures OnHeader(p, a, cfg).More? ==> Sound(OnHeader(p, a, cfg).p)
  {
    if FindCrlf(a).Some? {
      var crlf := FindCrlf(a).value;
      if Find(a[..crlf], ':') == crlf {
        EmptyLineStores(p, a[crlf + 2..], cfg);
      }
    }
  }

  lemma BodyStores(p: Parser, data: string, cfg: Config)
    requires Store.Within(p.request.body, cfg.maxMemory)
    ensures Store.Within(TakeBody(p, data, cfg).request.body, cfg.maxMemory)
  {
    Store.AppendViews(p.request.body, data, cfg.maxMemory);
  }

  lemma TurnStores(p: Parser, a: string, cfg: Config)
    requires Sound(p) && Stored(p, cfg) && !TakeTurn(p, a, cfg).Reject?
    ensures Stored(TakeTurn(p, a, cfg).p, cfg)
    ensures TakeTurn(p, a, cfg).More? ==> Sound(TakeTurn(p, a, cfg).p)
  {
    match p.status
    case ExpectHeaders => HeaderStores(p, a, cfg);
    case ExpectBody => BodyStores(p, a[..if p.contentLength >= |a| then |a| else p.contentLength], cfg);
    case ExpectChunkBody =>
      if |a| >= p.chunkLength { BodyStores(p, a[..p.chunkLength], cfg); }
    case _ =>
  }

  // ---------------------------------------------------------------- one parse

  lemma ParseGoesOn(p: Parser, buf: string, q: Parser, rest: string, cfg: Config)
    requires p.status != GotAll && TakeTurn(p, buf, cfg) == More(q, rest)
    ensures q.status != GotAll && Parse(p, buf, cfg) == Parse(q, rest, cfg)
  {
  }

  /**
   A request that is complete in `a` is the same one in `a + b`; otherwise parsing `a` and then
   what is left with `b` gives what parsing `a + b` gives.
   */
  lemma {:induction false} ParseResumes(p: Parser, a: string, b: string, cfg: Config)
    requires Sound(p) && Stored(p, cfg) && Parse(p, a, cfg).Leave?
    ensures var t := Parse(p, a, cfg);
      && Stored(t.p, cfg)
      && (t.p.status == GotAll ==> Parse(p, a + b, cfg) == Leave(t.p, t.rest + b))
      && (t.p.status != GotAll ==> Sound(t.p) && Parse(p, a + b, cfg) == Parse(t.p, t.rest + b, cfg))
    decreases |a|
  {
    var t := TakeTurn(p, a, cfg);
    TurnStores(p, a, cfg);
    if p.status == ExpectBody && a != "" {
      if |a| >= p.contentLength {
        BodyCompletes(p, a, b, cfg);
      } else {
        BodyPauses(p, a, b, cfg);
      }
    } else if t.More? {
      TurnExtends(p, a, b, cfg);
      ParseResumes(t.p, t.rest, b, cfg);
    } else if t.p.status == GotAll {
      TurnExtends(p, a, b, cfg);
    } else {
      WaitingTurn(p, a, cfg);
    }
  }

  /** A body that needs more than `a`. */
  lemma BodyPauses(p: Parser, a: string, b: string, cfg: Config)
    requires Sound(p) && Stored(p, cfg) && p.status == ExpectBody && 0 < |a| < p.contentLength
    ensures var t := Parse(p, a, cfg);
      && t.Leave? && t.rest == "" && Sound(t.p) && Stored(t.p, cfg)
      && Parse(p, a + b, cfg) == Parse(t.p, t.rest + b, cfg)
  {
    var q := TakeBody(p, a, cfg).(contentLength := p.contentLength - |a|);
    assert a[..|a|] == a && a[|a|..] == "";
    BodyStores(p, a, cfg);
    assert TakeTurn(p, a, cfg) == More(q, "");
    assert TakeTurn(q, "", cfg) == Leave(q, "");
    assert Parse(p, a, cfg) == Leave(q, "");
    assert "" + b == b;
    if b == "" {
      assert a + b == a;
    } else {
      BodyMerges(p, a, b, cfg);
    }
  }

  // ---------------------------------------------------------------- reads

  /** Two reads after each other; an error hides the requests of its own read. */
  function Chain(f: Fed, g: Fed): Fed {
    if g.session.Closed? then g else Fed(f.requests + g.requests, g.session)
  }

  lemma PrependChain(r: Request, f: Fed, g: Fed)
    requires f.session.Open?
    ensures Prepend(r, Chain(f, g)) == Chain(Prepend(r, f), g)
  {
    assert [r] + (f.requests + g.requests) == ([r] + f.requests) + g.requests;
  }

  lemma FeedCompletes(p: Parser, a: string, b: string, t: Turn, cfg: Config)
    requires Sound(p) && a != "" && t == Parse(p, a, cfg) && t.Leave? && t.p.status == GotAll
    requires Parse(p, a + b, cfg) == Leave(t.p, t.rest + b)
    ensures Feed(p, a, cfg) == Prepend(t.p.request, Feed(Reset(t.p), t.rest, cfg))
    ensures Feed(p, a + b, cfg) == Prepend(t.p.request, Feed(Reset(t.p), t.rest + b, cfg))
  {
  }

  /** If everything up to `a` parsed without error, what `b` adds does not depend on the cut. */
  lemma {:induction false} FeedSplits(p: Parser, a: string, b: string, cfg: Config)
    requires Sound(p) && Stored(p, cfg) && Feed(p, a, cfg).session.Open?
    ensures var f := Feed(p, a, cfg);
      && Sound(f.session.p) && Stored(f.session.p, cfg)
      && Feed(p, a + b, cfg) == Chain(f, Feed(f.session.p, f.session.pending + b, cfg))
    decreases |a|
  {
    if a == "" {
      assert a + b == b && "" + b == b;
      assert [] + Feed(p, b, cfg).requests == Feed(p, b, cfg).requests;
    } else {
      var t := Parse(p, a, cfg);
      ParseProgress(p, a, cfg);
      ParseResumes(p, a, b, cfg);
      if t.p.status == GotAll {
        FeedCompletes(p, a, b, t, cfg);
        FeedSplits(Reset(t.p), t.rest, b, cfg);
        var f := Feed(Reset(t.p), t.rest, cfg);
        PrependChain(t.p.request, f, Feed(f.session.p, f.session.pending + b, cfg));
      } else {
        FeedPauses(p, a, b, t, cfg);
        var g := Feed(t.p, t.rest + b, cfg);
        assert [] + g.requests == g.requests;
      }
    }
  }

  lemma FeedPauses(p: Parser, a: string, b: string, t: Turn, cfg: Config)
    requires Sound(p) && a != "" && t == Parse(p, a, cfg) && t.Leave? && t.p.status != GotAll
    requires Sound(t.p) && Parse(p, a + b, cfg) == Parse(t.p, t.rest + b, cfg)
    ensures Feed(p, a, cfg) == Fed([], Open(t.p, t.rest))
    ensures Feed(p, a + b, cfg) == Feed(t.p, t.rest + b, cfg)
  {
    if t.rest + b == "" {
      assert b == "" && a + b == a;
    }
  }

  /** Nothing more can be made of the bytes that are left over. */
  predicate Settled(p: Parser, pending: string, cfg: Config)
    requires Sound(p)
  {
    Feed(p, pending, cfg) == Fed([], Open(p, pending))
  }

  lemma FeedSettles(p: Parser, a: string, cfg: Config)
    requires Sound(p) && Stored(p, cfg) && Feed(p, a, cfg).session.Open?
    ensures var s := Feed(p, a, cfg).session; Sound(s.p) && Stored(s.p, cfg) && Settled(s.p, s.pending, cfg)
  {
    FeedSplits(p, a, "", cfg);
    var f := Feed(p, a, cfg);
    assert a + "" == a && f.session.pending + "" == f.session.pending;
    var g := Feed(f.session.p, f.session.pending, cfg);
    assert g.session == f.session;
    assert |f.requests + g.requests| == |f.requests|;
  }

  function Joined(pieces: seq<string>): string {
    if pieces == [] then "" else pieces[0] + Joined(pieces[1..])
  }

  lemma ReadsChain(p: Parser, pending: string, pieces: seq<string>, f: Fed, cfg: Config)
    requires Sound(p) && pieces != [] && f == Feed(p, pending + pieces[0], cfg)
    requires f.session.Open? && Sound(f.session.p)
    requires Reads(p, pending, pieces, cfg).session.Open?
    ensures var g := Reads(f.session.p, f.session.pending, pieces[1..], cfg);
      g.session.Open? && Reads(p, pending, pieces, cfg) == Chain(f, g)
  {
  }

  lemma ReadsOpen(p: Parser, pending: string, pieces: seq<string>, cfg: Config)
    requires Sound(p) && pieces != [] && Reads(p, pending, pieces, cfg).session.Open?
    ensures Feed(p, pending + pieces[0], cfg).session.Open?
  {
  }

  /**
   However a stream was cut, if reading the pieces raised no error, then reading it at once hands
   over the same requests and leaves the same state and the same bytes.
   */
  lemma {:induction false} CutsDoNotMatter(p: Parser, pending: string, pieces: seq<string>, cfg: Config)
    requires Sound(p) && Stored(p, cfg) && Settled(p, pending, cfg)
    requires Reads(p, pending, pieces, cfg).session.Open?
    ensures Feed(p, pending + Joined(pieces), cfg) == Reads(p, pending, pieces, cfg)
    decreases |pieces|
  {
    if pieces == [] {
      assert pending + "" == pending;
    } else {
      CutOnce(p, pending, pieces, cfg);
      var f := Feed(p, pending + pieces[0], cfg);
      CutsDoNotMatter(f.session.p, f.session.pending, pieces[1..], cfg);
    }
  }

  lemma CutOnce(p: Parser, pending: string, pieces: seq<string>, cfg: Config)
    requires Sound(p) && Stored(p, cfg) && pieces != []
    requires Reads(p, pending, pieces, cfg).session.Open?
    ensures var f, rest := Feed(p, pending + pieces[0], cfg), pieces[1..];
      && f.session.Open? && Sound(f.session.p) && Stored(f.session.p, cfg)
      && Settled(f.session.p, f.session.pending, cfg)
      && Reads(f.session.p, f.session.pending, rest, cfg).session.Open?
      && Reads(p, pending, pieces, cfg) == Chain(f, Reads(f.session.p, f.session.pending, rest, cfg))
      && Feed(p, pending + Joined(pieces), cfg) == Chain(f, Feed(f.session.p, f.session.pending + Joined(rest), cfg))
  {
    var a, rest := pending + pieces[0], Joined(pieces[1..]);
    ReadsOpen(p, pending, pieces, cfg);
    FeedSettles(p, a, cfg);
    ReadsChain(p, pending, pieces, Feed(p, a, cfg), cfg);
    JoinedAfter(pending, pieces);
    FeedSplits(p, a, rest, cfg);
  }

  lemma JoinedAfter(pending: string, pieces: seq<string>)
    requires pieces != []
    ensures pending + Joined(pieces) == (pending + pieces[0]) + Joined(pieces[1..])
  {
  }

  /** From a new connection: the result depends only on the bytes, for all cuts that raise no error. */
  lemma SegmentationIndependence(pieces: seq<string>, cfg: Config)
    ensures Reads(START, "", pieces, cfg).session.Open? ==>
      Reads(START, "", pieces, cfg) == Feed(START, Joined(pieces), cfg)
    ensures Feed(START, Joined(pieces), cfg).session.Open? ==>
      (Reads(START, "", pieces, cfg) == Feed(START, Joined(pieces), cfg) <==> !ReadsStarve(START, "", pieces, cfg))
  {
    assert "" + Joined(pieces) == Joined(pieces);
    if Reads(START, "", pieces, cfg).session.Open? {
      CutsDoNotMatter(START, "", pieces, cfg);
    }
    if Feed(START, Joined(pieces), cfg).session.Open? {
      CutsThatWork(START, "", pieces, cfg);
    }
  }

  // ---------------------------------------------------------------- when a cut breaks the stream

  /** The parser gives up on a method or line only because its end has not come yet. */
  predicate StarvedTurn(p: Parser, buf: string) {
    || (p.status == ExpectMethod && Find(buf, ' ') == |buf| && |buf| >= 7)
    || ((p.status == ExpectRequestLine || p.status == ExpectHeaders) && FindCrlf(buf).None? && |buf| >= LINE_LIMIT)
  }

  predicate ParseStarves(p: Parser, buf: string, cfg: Config)
    requires p.status != GotAll
    decreases |buf|
  {
    || StarvedTurn(p, buf)
    || (match TakeTurn(p, buf, cfg)
        case More(q, rest) => ParseStarves(q, rest, cfg)
        case _ => false)
  }

  predicate FeedStarves(p: Parser, buf: string, cfg: Config)
    requires Sound(p)
    decreases |buf|
  {
    buf != "" &&
    (ParseStarves(p, buf, cfg) ||
     (ParseProgress(p, buf, cfg);
      match Parse(p, buf, cfg)
      case Leave(q, rest) => q.status == GotAll && FeedStarves(Reset(q), rest, cfg)
      case _ => false))
  }

  /** Some read ends where the parser gives up on an unfinished method or line. */
  predicate ReadsStarve(p: Parser, pending: string, pieces: seq<string>, cfg: Config)
    requires Sound(p)
    decreases |pieces|
  {
    pieces != [] &&
    (FeedStarves(p, pending + pieces[0], cfg) ||
     (FeedSound(p, pending + pieces[0], cfg);
      match Feed(p, pending + pieces[0], cfg).session
      case Open(q, rest) => ReadsStarve(q, rest, pieces[1..], cfg)
      case Closed => false))
  }

  /** An error that is not starvation stays an error whatever follows. */
  lemma RejectStays(p: Parser, a: string, b: string, cfg: Config)
    requires Sound(p) && TakeTurn(p, a, cfg).Reject? && !StarvedTurn(p, a)
    ensures TakeTurn(p, a + b, cfg) == TakeTurn(p, a, cfg)
  {
    match p.status
    case ExpectMethod =>
      FindStable(a, b, ' ');
      SliceExtends(a, b, Find(a, ' '));
    case ExpectRequestLine => LineExtends(a, b);
    case ExpectHeaders => HeaderExtends(p, a, b, cfg);
    case ExpectChunkLen => ChunkLengthExtends(p, a, b, cfg);
    case ExpectChunkBody => ChunkBodyExtends(p, a, b, cfg);
  }

  lemma {:induction false} ParseRejectStays(p: Parser, a: string, b: string, cfg: Config)
    requires Sound(p) && Stored(p, cfg) && Parse(p, a, cfg).Reject? && !ParseStarves(p, a, cfg)
    ensures Parse(p, a + b, cfg).Reject?
    decreases |a|
  {
    var t := TakeTurn(p, a, cfg);
    if t.Reject? {
      RejectStays(p, a, b, cfg);
    } else {
      TurnStores(p, a, cfg);
      if p.status == ExpectBody {
        BodyPauses(p, a, b, cfg);
      } else {
        TurnExtends(p, a, b, cfg);
        ParseRejectStays(t.p, t.rest, b, cfg);
      }
    }
  }

  lemma {:induction false} ParseStarvesRejects(p: Parser, a: string, cfg: Config)
    requires p.status != GotAll && ParseStarves(p, a, cfg)
    ensures Parse(p, a, cfg).Reject?
    decreases |a|
  {
    if !StarvedTurn(p, a) {
      var t := TakeTurn(p, a, cfg);
      ParseStarvesRejects(t.p, t.rest, cfg);
    }
  }

  /** When the whole stream is fine, its first part fails exactly by starving. */
  lemma {:induction false} FailsByStarving(p: Parser, a: string, b: string, cfg: Config)
    requires Sound(p) && Stored(p, cfg) && Feed(p, a + b, cfg).session.Open?
    ensures Feed(p, a, cfg).session.Closed? <==> FeedStarves(p, a, cfg)
    decreases |a|
  {
    if a != "" {
      ParseProgress(p, a, cfg);
      var t := Parse(p, a, cfg);
      if ParseStarves(p, a, cfg) {
        ParseStarvesRejects(p, a, cfg);
      } else if t.Reject? {
        ParseRejectStays(p, a, b, cfg);
      } else {
        ParseResumes(p, a, b, cfg);
        if t.p.status == GotAll {
          FailsByStarving(Reset(t.p), t.rest, b, cfg);
        }
      }
    }
  }

  /** A stream that is fine in one read is fine in pieces exactly when no piece ends in starvation. */
  lemma {:induction false} CutsThatWork(p: Parser, pending: string, pieces: seq<string>, cfg: Config)
    requires Sound(p) && Stored(p, cfg) && Settled(p, pending, cfg)
    requires Feed(p, pending + Joined(pieces), cfg).session.Open?
    ensures Reads(p, pending, pieces, cfg).session.Open? <==> !ReadsStarve(p, pending, pieces, cfg)
    decreases |pieces|
  {
    if pieces != [] {
      var a, rest := pending + pieces[0], Joined(pieces[1..]);
      assert pending + Joined(pieces) == a + rest;
      FailsByStarving(p, a, rest, cfg);
      if Feed(p, a, cfg).session.Open? {
        FeedSettles(p, a, cfg);
        FeedSplits(p, a, rest, cfg);
        var s := Feed(p, a, cfg).session;
        CutsThatWork(s.p, s.pending, pieces[1..], cfg);
        StarvedReject(p, a, cfg);
      }
    }
  }

  lemma {:induction false} StarvedReject(p: Parser, a: string, cfg: Config)
    requires Sound(p)
    ensures FeedStarves(p, a, cfg) ==> Feed(p, a, cfg).session.Closed?
    decreases |a|
  {
    if a != "" {
      ParseProgress(p, a, cfg);
      var t := Parse(p, a, cfg);
      if ParseStarves(p, a, cfg) {
        ParseStarvesRejects(p, a, cfg);
      } else if t.Leave? && t.p.status == GotAll {
        StarvedReject(Reset(t.p), t.rest, cfg);
      }
    }
  }

  /** The only method that can starve is OPTIONS, cut right before the blank behind it. */
  lemma StarvedMethodIsOptions(p: Parser, a: string, b: string, cfg: Config)
    requires p.status == ExpectMethod && StarvedTurn(p, a) && !TakeTurn(p, a + b, cfg).Reject?
    ensures a == "OPTIONS" && b != "" && b[0] == ' '
  {
    var space := Find(a + b, ' ');
    assert forall j :: 0 <= j < |a| ==> (a + b)[j] == a[j] && a[j] != ' ';
    var token := (a + b)[..space];
    assert MethodOf(token) != Invalid;
    assert |token| == 7 && token == "OPTIONS";
    assert a == token[..|a|];
  }
}
