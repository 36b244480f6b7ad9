/** The responses read do not depend on how the stream was cut into reads. */
module ResponseSegmentation {
  import opened Wrappers
  import opened Text
  import opened ResponseParser
  import Seg = SegmentationProofs

  function Extend(t: Turn, more: string): Turn {
    match t
    case More(p, rest) => More(p, rest + more)
    case Leave(p, rest) => Leave(p, rest + more)
    case Reject => t
  }

  /** A turn that waits for more bytes changes nothing. */
  predicate Waits(t: Turn, p: Parser, a: string) {
    t == Leave(p, a)
  }

  lemma EmptyLineExtends(p: Parser, rest: string, b: string)
    ensures OnEmptyLine(p, rest + b) == Extend(OnEmptyLine(p, rest), b)
  {
  }

  lemma {:induction false} HeaderExtends(p: Parser, a: string, b: string)
    requires FindCrlf(a).Some?
    ensures OnHeader(p, a + b) == Extend(OnHeader(p, a), b)
  {
    Seg.LineExtends(a, b);
    var crlf := FindCrlf(a).value;
    var line := a[..crlf];
    if Find(line, ':') == crlf {
      EmptyLineExtends(p, a[crlf + 2..], b);
    } else {
      var q := p.(response := AddHeader(p.response, line[..Find(line, ':')], line[Find(line, ':') + 1..]));
      assert OnHeader(p, a) == More(q, a[crlf + 2..]);
      assert OnHeader(p, a + b) == More(q, a[crlf + 2..] + b);
    }
  }

  lemma {:induction false} ChunkLengthExtends(p: Parser, a: string, b: string)
    requires FindCrlf(a).Some?
    ensures OnChunkLength(p, a + b) == Extend(OnChunkLength(p, a), b)
  {
    Seg.LineExtends(a, b);
  }

  lemma ChunkBodyExtends(p: Parser, a: string, b: string)
    requires |a| >= p.chunk + 2
    ensures OnChunkBody(p, a + b) == Extend(OnChunkBody(p, a), b)
  {
    Seg.SliceExtends(a, b, p.chunk);
    Seg.SliceExtends(a, b, p.chunk + 2);
  }

  predicate TakesBytes(p: Parser) {
    p.status == ExpectBody || p.status == ExpectClose
  }

  /** Outside the body, a turn either waits or does the same with more bytes behind. */
  lemma TurnExtends(p: Parser, a: string, b: string)
    requires p.status != GotAll && !TakesBytes(p)
    ensures Waits(TakeTurn(p, a), p, a) || TakeTurn(p, a + b) == Extend(TakeTurn(p, a), b)
  {
    match p.status
    case ExpectLine => if FindCrlf(a).Some? { Seg.LineExtends(a, b); }
    case ExpectHeaders => if FindCrlf(a).Some? { HeaderExtends(p, a, b); }
    case ExpectChunkLen => if FindCrlf(a).Some? { ChunkLengthExtends(p, a, b); }
    case ExpectChunkBody => if |a| >= p.chunk + 2 { ChunkBodyExtends(p, a, b); }
    case ExpectLastEmptyChunk => if FindCrlf(a).Some? { Seg.LineExtends(a, b); }
  }

  lemma BodyCompletes(p: Parser, a: string, b: string)
    requires p.status == ExpectBody && |a| >= p.left
    ensures TakeTurn(p, a + b) == Extend(TakeTurn(p, a), b)
    ensures TakeTurn(p, a).Leave? && TakeTurn(p, a).p.status == GotAll
  {
    Seg.SliceExtends(a, b, p.left);
  }

  /** The body takes bytes as they come: two reads or one make no difference. */
  lemma BodyMerges(p: Parser, a: string, b: string)
    requires p.status == ExpectBody && 0 < |a| < p.left && b != ""
    ensures TakeTurn(p, a + b) == TakeTurn(TakeBody(p, a).(left := p.left - |a|), b)
  {
    var q := TakeBody(p, a).(left := p.left - |a|);
    var n := if q.left >= |b| then |b| else q.left;
    assert (a + b)[..|a| + n] == a + b[..n] && (a + b)[|a| + n..] == b[n..];
    assert p.response.body + (a + b[..n]) == (p.response.body + a) + b[..n];
  }

  lemma BodyTakesAll(p: Parser, a: string)
    requires p.status == ExpectBody && 0 < |a| < p.left
    ensures Parse(p, a) == Leave(TakeBody(p, a).(left := p.left - |a|), "")
  {
    var q := TakeBody(p, a).(left := p.left - |a|);
    assert a[..|a|] == a && a[|a|..] == "";
    assert TakeTurn(p, a) == More(q, "");
    assert q.response.body + "" == q.response.body;
    assert TakeTurn(q, "") == Leave(q, "");
  }

  /** Whatever the body takes now, it takes the rest later. */
  lemma BodyPauses(p: Parser, a: string, b: string)
    requires p.status == ExpectBody && 0 < |a| < p.left
    ensures var q := TakeBody(p, a).(left := p.left - |a|);
      Parse(p, a) == Leave(q, "") && Parse(p, a + b) == Parse(q, b)
  {
    BodyTakesAll(p, a);
    if b == "" {
      var q := TakeBody(p, a).(left := p.left - |a|);
      assert a + b == a && q.response.body + "" == q.response.body;
      assert TakeTurn(q, "") == Leave(q, "");
    } else {
      BodyMerges(p, a, b);
    }
  }

  lemma CloseMerges(p: Parser, a: string, b: string)
    requires p.status == ExpectClose
    ensures Parse(p, a) == Leave(TakeBody(p, a), "") && Parse(p, a + b) == Parse(TakeBody(p, a), b)
  {
    assert p.response.body + (a + b) == (p.response.body + a) + b;
  }

  /** A response complete in `a` is the same in `a + b`, an error stays one, and otherwise parsing resumes. */
  lemma {:induction false} ParseResumes(p: Parser, a: string, b: string)
    requires p.status != GotAll
    ensures var t := Parse(p, a);
      match t {
        case Reject => Parse(p, a + b) == Reject
        case Leave(q, rest) => Parse(p, a + b) == if q.status == GotAll then Leave(q, rest + b) else Parse(q, rest + b)
        case More(_, _) => false
      }
    decreases |a|
  {
    if p.status == ExpectClose {
      CloseMerges(p, a, b);
      assert "" + b == b;
    } else if p.status == ExpectBody {
      if |a| >= p.left {
        BodyCompletes(p, a, b);
      } else if a == "" {
        assert p.response.body + "" == p.response.body;
        assert a + b == b;
      } else {
        BodyPauses(p, a, b);
        assert "" + b == b;
      }
    } else {
      TurnExtends(p, a, b);
      var t := TakeTurn(p, a);
      if !Waits(t, p, a) && t.More? {
        ParseResumes(t.p, t.rest, b);
      }
    }
  }

  /** Two reads after each other; nothing comes after a failure. */
  function Chain(f: Fed, g: Fed): Fed {
    if f.session.Failed? then f else Fed(f.responses + g.responses, g.session)
  }

  lemma ChainFirst(r: Response, f: Fed, g: Fed)
    ensures Chain(Fed([r] + f.responses, f.session), g) == Fed([r] + Chain(f, g).responses, Chain(f, g).session)
  {
    assert [r] + (f.responses + g.responses) == ([r] + f.responses) + g.responses;
  }

  lemma FeedPauses(p: Parser, a: string, b: string, count: nat, heads: Heads)
    requires Waiting(p) && a != ""
    requires var t := Parse(Marked(p, heads(count)), a); t.Leave? && t.p.status != GotAll
    ensures var t := Parse(Marked(p, heads(count)), a);
      && Waiting(t.p) && Feed(p, a, count, heads) == Fed([], Open(t.p, t.rest, count))
      && Feed(p, a + b, count, heads) == Feed(t.p, t.rest + b, count, heads)
  {
    var m := Marked(p, heads(count));
    ParseProgress(m, a);
    var t := Parse(m, a);
    ParseResumes(m, a, b);
    MarkStays(m, a);
    if t.rest + b == "" {
      assert b == "" && a + b == a;
    } else {
      assert Marked(t.p, heads(count)) == t.p;
    }
  }

  /** Parsing does not change whether a response belongs to a HEAD request. */
  lemma {:induction false} MarkStays(p: Parser, a: string)
    requires p.status != GotAll
    ensures Parse(p, a).Leave? ==> Parse(p, a).p.forHead == p.forHead
    decreases |a|
  {
    var t := TakeTurn(p, a);
    if t.More? {
      MarkStays(t.p, t.rest);
    }
  }

  lemma {:induction false} FeedSplits(p: Parser, a: string, b: string, count: nat, heads: Heads)
    requires Waiting(p)
    ensures var f := Feed(p, a, count, heads);
      if f.session.Failed? then Feed(p, a + b, count, heads) == f
      else
        && Waiting(f.session.p)
        && Feed(p, a + b, count, heads) == Chain(f, Feed(f.session.p, f.session.pending + b, f.session.count, heads))
    decreases |a|
  {
    if a == "" {
      assert a + b == b && "" + b == b;
      assert [] + Feed(p, b, count, heads).responses == Feed(p, b, count, heads).responses;
    } else {
      var m := Marked(p, heads(count));
      var t := Parse(m, a);
      ParseProgress(m, a);
      ParseResumes(m, a, b);
      if t.Leave? && t.p.status == GotAll {
        FeedSplits(START, t.rest, b, count + 1, heads);
        FeedOn(p, a, b, count, heads);
      } else if t.Leave? {
        FeedPauses(p, a, b, count, heads);
        var g := Feed(t.p, t.rest + b, count, heads);
        assert [] + g.responses == g.responses;
      }
    }
  }

  lemma FeedOn(p: Parser, a: string, b: string, count: nat, heads: Heads)
    requires Waiting(p) && a != ""
    requires var t := Parse(Marked(p, heads(count)), a); t.Leave? && t.p.status == GotAll
    requires var t := Parse(Marked(p, heads(count)), a); var f := Feed(START, t.rest, count + 1, heads);
      if f.session.Failed? then Feed(START, t.rest + b, count + 1, heads) == f
      else
        && Waiting(f.session.p)
        && Feed(START, t.rest + b, count + 1, heads) ==
            Chain(f, Feed(f.session.p, f.session.pending + b, f.session.count, heads))
    ensures var f := Feed(p, a, count, heads);
      if f.session.Failed? then Feed(p, a + b, count, heads) == f
      else
        && Waiting(f.session.p)
        && Feed(p, a + b, count, heads) == Chain(f, Feed(f.session.p, f.session.pending + b, f.session.count, heads))
  {
    var m := Marked(p, heads(count));
    var t := Parse(m, a);
    ParseProgress(m, a);
    ParseResumes(m, a, b);
    var f := Feed(START, t.rest, count + 1, heads);
    if f.session.Open? {
      ChainFirst(t.p.response, f, Feed(f.session.p, f.session.pending + b, f.session.count, heads));
    }
  }

  /** Nothing more can be made of the bytes that are left over. */
  predicate Settled(p: Parser, pending: string, count: nat, heads: Heads)
    requires Waiting(p)
  {
    Feed(p, pending, count, heads) == Fed([], Open(p, pending, count))
  }

  lemma FeedSettles(p: Parser, a: string, count: nat, heads: Heads)
    requires Waiting(p) && Feed(p, a, count, heads).session.Open?
    ensures var s := Feed(p, a, count, heads).session; Waiting(s.p) && Settled(s.p, s.pending, s.count, heads)
  {
    FeedSplits(p, a, "", count, heads);
    var f := Feed(p, a, count, heads);
    assert a + "" == a && f.session.pending + "" == f.session.pending;
    var g := Feed(f.session.p, f.session.pending, f.session.count, heads);
    assert g.session == f.session;
    assert |f.responses + g.responses| == |f.responses|;
  }

  lemma JoinedAfter(pending: string, pieces: seq<string>)
    requires pieces != []
    ensures pending + Seg.Joined(pieces) == (pending + pieces[0]) + Seg.Joined(pieces[1..])
  {
  }

  /** However the stream is cut, the same responses are handed over, and the state or the failure is the same. */
  lemma {:induction false} CutsNeverMatter(p: Parser, pending: string, count: nat, pieces: seq<string>, heads: Heads)
    requires Waiting(p) && Settled(p, pending, count, heads)
    ensures Reads(p, pending, count, pieces, heads) == Feed(p, pending + Seg.Joined(pieces), count, heads)
    decreases |pieces|
  {
    if pieces == [] {
      assert pending + "" == pending;
    } else {
      JoinedAfter(pending, pieces);
      FeedSplits(p, pending + pieces[0], Seg.Joined(pieces[1..]), count, heads);
      var f := Feed(p, pending + pieces[0], count, heads);
      if f.session.Open? {
        FeedSettles(p, pending + pieces[0], count, heads);
        CutsNeverMatter(f.session.p, f.session.pending, f.session.count, pieces[1..], heads);
      }
    }
  }

  lemma ResponsesSurviveCuts(pieces: seq<string>, heads: Heads)
    ensures Reads(START, "", 0, pieces, heads) == Feed(START, Seg.Joined(pieces), 0, heads)
  {
    assert "" + Seg.Joined(pieces) == Seg.Joined(pieces);
    CutsNeverMatter(START, "", 0, pieces, heads);
  }
}
