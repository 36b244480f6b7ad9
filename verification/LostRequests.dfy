/** Which requests of a stream with an error in it are handed over, and which the error takes with it. */
module LostRequests {
  import opened Wrappers
  import opened Text
  import opened HttpRequest
  import opened RequestParser
  import opened SegmentationProofs
  import opened RequestPrinter
  import opened PrinterProofs

  /** The requests that are complete before the first error of some bytes, or before their end. */
  function Completed(p: Parser, buf: string, cfg: Config): seq<Request>
    requires Sound(p)
    decreases |buf|
  {
    if buf == "" then []
    else
      ParseProgress(p, buf, cfg);
      match Parse(p, buf, cfg)
      case Reject(_) => []
      case Leave(p1, rest) => if p1.status != GotAll then [] else [p1.request] + Completed(Reset(p1), rest, cfg)
  }

  /** A read without error hands over what it completes; one with an error hands over nothing. */
  lemma {:induction false} FeedCompleted(p: Parser, buf: string, cfg: Config)
    requires Sound(p)
    ensures Feed(p, buf, cfg).requests == if Feed(p, buf, cfg).session.Open? then Completed(p, buf, cfg) else []
    decreases |buf|
  {
    if buf != "" {
      ParseProgress(p, buf, cfg);
      var t := Parse(p, buf, cfg);
      if t.Leave? && t.p.status == GotAll {
        FeedCompleted(Reset(t.p), t.rest, cfg);
      }
    }
  }

  /** A parse that leaves a request unfinished completes none by itself. */
  predicate Counts(before: nat, t: Turn) {
    t.Reject? || t.p.requests == before + if t.p.status == GotAll then 1 else 0
  }

  lemma {:induction false} BlankLineCounts(p: Parser, rest: string, cfg: Config)
    requires p.status == ExpectHeaders && Sound(p)
    ensures Counts(p.requests, OnEmptyLine(p, rest, cfg))
  {
  }

  lemma {:induction false} TurnCounts(p: Parser, buf: string, cfg: Config)
    requires Sound(p)
    ensures Counts(p.requests, TakeTurn(p, buf, cfg))
  {
    match p.status
    case ExpectHeaders =>
      if FindCrlf(buf).Some? {
        BlankLineCounts(p, buf[FindCrlf(buf).value + 2..], cfg);
      }
    case _ =>
  }

  lemma {:induction false} OneCounted(p: Parser, buf: string, cfg: Config)
    requires Sound(p)
    ensures Counts(p.requests, Parse(p, buf, cfg))
    decreases |buf|
  {
    TurnCounts(p, buf, cfg);
    var t := TakeTurn(p, buf, cfg);
    if t.More? {
      TurnSound(p, buf, cfg);
      OneCounted(t.p, t.rest, cfg);
    }
  }

  lemma {:induction false} TurnSound(p: Parser, buf: string, cfg: Config)
    requires Sound(p) && TakeTurn(p, buf, cfg).More?
    ensures Sound(TakeTurn(p, buf, cfg).p)
  {
  }

  lemma {:induction false} FeedCounts(p: Parser, buf: string, cfg: Config)
    requires Sound(p)
    ensures var f := Feed(p, buf, cfg);
      f.session.Open? ==> f.session.p.requests == p.requests + |f.requests|
    decreases |buf|
  {
    if buf != "" {
      ParseProgress(p, buf, cfg);
      var t := Parse(p, buf, cfg);
      if t.Leave? {
        OneCounted(p, buf, cfg);
        if t.p.status == GotAll {
          FeedCounts(Reset(t.p), t.rest, cfg);
        }
      }
    }
  }

  /** The parser's count is the number of requests handed over, which the limit of a connection is compared with. */
  lemma {:induction false} ReadsCount(p: Parser, pending: string, pieces: seq<string>, cfg: Config)
    requires Sound(p)
    ensures var f := Reads(p, pending, pieces, cfg);
      f.session.Open? ==> f.session.p.requests == p.requests + |f.requests|
    decreases |pieces|
  {
    if pieces != [] {
      var f := Feed(p, pending + pieces[0], cfg);
      FeedSound(p, pending + pieces[0], cfg);
      FeedCounts(p, pending + pieces[0], cfg);
      if f.session.Open? {
        ReadsCount(f.session.p, f.session.pending, pieces[1..], cfg);
      }
    }
  }

  lemma CompletedPauses(p: Parser, a: string, b: string, t: Turn, cfg: Config)
    requires Sound(p) && a != "" && t == Parse(p, a, cfg) && t.Leave? && t.p.status != GotAll
    requires Sound(t.p) && Parse(p, a + b, cfg) == Parse(t.p, t.rest + b, cfg)
    ensures Completed(p, a, cfg) == [] && Completed(p, a + b, cfg) == Completed(t.p, t.rest + b, cfg)
  {
    if t.rest + b == "" {
      assert b == "" && a + b == a;
    }
  }

  lemma CompletedNext(p: Parser, a: string, b: string, t: Turn, cfg: Config)
    requires Sound(p) && a != "" && t == Parse(p, a, cfg) && t.Leave? && t.p.status == GotAll
    requires Parse(p, a + b, cfg) == Leave(t.p, t.rest + b)
    ensures Completed(p, a, cfg) == [t.p.request] + Completed(Reset(t.p), t.rest, cfg)
    ensures Completed(p, a + b, cfg) == [t.p.request] + Completed(Reset(t.p), t.rest + b, cfg)
  {
  }

  lemma Assoc(a: seq<Request>, b: seq<Request>, c: seq<Request>)
    ensures a + (b + c) == (a + b) + c
  {
  }

  /** After a read without error, more bytes complete more requests, as if they had come at once. */
  lemma {:induction false} CompletedSplits(p: Parser, a: string, b: string, cfg: Config)
    requires Sound(p) && Stored(p, cfg) && Feed(p, a, cfg).session.Open?
    ensures var s := Feed(p, a, cfg).session;
      Sound(s.p) && Completed(p, a + b, cfg) == Completed(p, a, cfg) + Completed(s.p, s.pending + b, cfg)
    decreases |a|
  {
    if a == "" {
      assert a + b == b && "" + b == b;
    } else {
      var t := Parse(p, a, cfg);
      ParseProgress(p, a, cfg);
      ParseResumes(p, a, b, cfg);
      if t.p.status == GotAll {
        FeedCompletes(p, a, b, t, cfg);
        CompletedNext(p, a, b, t, cfg);
        CompletedSplits(Reset(t.p), t.rest, b, cfg);
        var s := Feed(Reset(t.p), t.rest, cfg).session;
        Assoc([t.p.request], Completed(Reset(t.p), t.rest, cfg), Completed(s.p, s.pending + b, cfg));
      } else {
        SegmentationProofs.FeedPauses(p, a, b, t, cfg);
        CompletedPauses(p, a, b, t, cfg);
      }
    }
  }

  /** Behind an error that is not starvation nothing completes. */
  lemma {:induction false} CompletedStays(p: Parser, a: string, b: string, cfg: Config)
    requires Sound(p) && Stored(p, cfg) && Feed(p, a, cfg).session.Closed? && !FeedStarves(p, a, cfg)
    ensures Completed(p, a + b, cfg) == Completed(p, a, cfg)
    decreases |a|
  {
    ParseProgress(p, a, cfg);
    var t := Parse(p, a, cfg);
    if t.Reject? {
      ParseRejectStays(p, a, b, cfg);
    } else {
      ParseResumes(p, a, b, cfg);
      CompletedStays(Reset(t.p), t.rest, b, cfg);
    }
  }

  // ---------------------------------------------------------------- reads

  /** How many reads come before the one that fails, if one does. */
  function GoodReads(p: Parser, pending: string, pieces: seq<string>, cfg: Config): (j: nat)
    requires Sound(p)
    ensures j <= |pieces|
    decreases |pieces|
  {
    if pieces == [] then 0
    else
      FeedSound(p, pending + pieces[0], cfg);
      match Feed(p, pending + pieces[0], cfg).session
      case Closed => 0
      case Open(q, rest) => 1 + GoodReads(q, rest, pieces[1..], cfg)
  }

  /** The requests that are complete in the read that fails. */
  function Lost(p: Parser, pending: string, pieces: seq<string>, cfg: Config): seq<Request>
    requires Sound(p)
    decreases |pieces|
  {
    if pieces == [] then []
    else
      FeedSound(p, pending + pieces[0], cfg);
      match Feed(p, pending + pieces[0], cfg).session
      case Closed => Completed(p, pending + pieces[0], cfg)
      case Open(q, rest) => Lost(q, rest, pieces[1..], cfg)
  }

  /**
   Handed over are the requests complete in the first `j` reads, all reads unless one fails; `lost` are
   those complete in that one, and unless it starved, these are all that come before the error.
   */
  ghost predicate Splits(p: Parser, pending: string, pieces: seq<string>, cfg: Config,
                         f: Fed, j: nat, lost: seq<Request>, starves: bool)
    requires Sound(p) && j <= |pieces|
  {
    && f.requests == Completed(p, pending + Joined(pieces[..j]), cfg)
    && (f.session.Open? <==> j == |pieces|)
    && (j < |pieces| ==> Completed(p, pending + Joined(pieces[..j + 1]), cfg) == f.requests + lost)
    && (!starves ==> Completed(p, pending + Joined(pieces), cfg) == f.requests + lost)
  }

  ghost predicate HandsOver(p: Parser, pending: string, pieces: seq<string>, cfg: Config)
    requires Sound(p)
  {
    Splits(p, pending, pieces, cfg, Reads(p, pending, pieces, cfg), GoodReads(p, pending, pieces, cfg),
           Lost(p, pending, pieces, cfg), ReadsStarve(p, pending, pieces, cfg))
  }

  lemma JoinedPrefix(pending: string, pieces: seq<string>, j: nat)
    requires 0 < j <= |pieces|
    ensures pending + Joined(pieces[..j]) == (pending + pieces[0]) + Joined(pieces[1..][..j - 1])
  {
    assert pieces[..j][1..] == pieces[1..][..j - 1];
    JoinedAfter(pending, pieces[..j]);
  }

  lemma {:induction false} FailsAtOnce(p: Parser, pending: string, pieces: seq<string>, cfg: Config)
    requires Sound(p) && Stored(p, cfg) && Settled(p, pending, cfg) && pieces != []
    requires Feed(p, pending + pieces[0], cfg).session.Closed?
    ensures HandsOver(p, pending, pieces, cfg)
  {
    var a := pending + pieces[0];
    FeedCompleted(p, pending, cfg);
    FeedCompleted(p, a, cfg);
    assert pieces[..0] == [] && pending + "" == pending;
    JoinedPrefix(pending, pieces, 1);
    assert pieces[1..][..0] == [] && a + "" == a;
    JoinedAfter(pending, pieces);
    if !FeedStarves(p, a, cfg) {
      CompletedStays(p, a, Joined(pieces[1..]), cfg);
    }
  }

  /** One more read in front of others. */
  lemma {:induction false} SplitsLater(p: Parser, pending: string, pieces: seq<string>, f: Fed, g: Fed, j: nat,
                                       lost: seq<Request>, starves: bool, cfg: Config)
    requires Sound(p) && Stored(p, cfg) && pieces != [] && f == Feed(p, pending + pieces[0], cfg)
    requires f.session.Open? && Sound(f.session.p) && j < |pieces|
    requires Splits(f.session.p, f.session.pending, pieces[1..], cfg, g, j, lost, starves)
    ensures Splits(p, pending, pieces, cfg, Fed(f.requests + g.requests, g.session), j + 1, lost, starves)
  {
    var a, tail := pending + pieces[0], pieces[1..];
    FeedCompleted(p, a, cfg);
    JoinedPrefix(pending, pieces, j + 1);
    CompletedSplits(p, a, Joined(tail[..j]), cfg);
    Assoc(f.requests, g.requests, lost);
    if j < |tail| {
      JoinedPrefix(pending, pieces, j + 2);
      CompletedSplits(p, a, Joined(tail[..j + 1]), cfg);
    }
    JoinedAfter(pending, pieces);
    CompletedSplits(p, a, Joined(tail), cfg);
  }

  lemma {:induction false} GoodThenMore(p: Parser, pending: string, pieces: seq<string>, f: Fed, cfg: Config)
    requires Sound(p) && Stored(p, cfg) && pieces != [] && f == Feed(p, pending + pieces[0], cfg)
    requires f.session.Open? && Sound(f.session.p)
    requires HandsOver(f.session.p, f.session.pending, pieces[1..], cfg)
    ensures HandsOver(p, pending, pieces, cfg)
  {
    var q, rest, tail := f.session.p, f.session.pending, pieces[1..];
    var j := GoodReads(q, rest, tail, cfg);
    SplitsLater(p, pending, pieces, f, Reads(q, rest, tail, cfg), j, Lost(q, rest, tail, cfg),
      ReadsStarve(q, rest, tail, cfg), cfg);
    StarvedReject(p, pending + pieces[0], cfg);
  }

  lemma {:induction false} ReadsHandOver(p: Parser, pending: string, pieces: seq<string>, cfg: Config)
    requires Sound(p) && Stored(p, cfg) && Settled(p, pending, cfg)
    ensures HandsOver(p, pending, pieces, cfg)
    decreases |pieces|
  {
    if pieces == [] {
      FeedCompleted(p, pending, cfg);
      assert pending + "" == pending;
    } else if Feed(p, pending + pieces[0], cfg).session.Closed? {
      FailsAtOnce(p, pending, pieces, cfg);
    } else {
      FeedSettles(p, pending + pieces[0], cfg);
      var f := Feed(p, pending + pieces[0], cfg);
      ReadsHandOver(f.session.p, f.session.pending, pieces[1..], cfg);
      GoodThenMore(p, pending, pieces, f, cfg);
    }
  }

  /**
   Of any stream in any cut, exactly the requests complete in the reads before the failing one are handed
   over, and those complete in the failing read are lost.  Unless that read only starved, these are all
   that precede the error: all are handed over exactly when none completes in the failing read.
   */
  lemma {:induction false} HandedOver(pieces: seq<string>, cfg: Config)
    ensures var f, j, lost := Reads(START, "", pieces, cfg), GoodReads(START, "", pieces, cfg),
      Lost(START, "", pieces, cfg);
      && f.requests == Completed(START, Joined(pieces[..j]), cfg)
      && (f.session.Open? <==> j == |pieces|)
      && (j < |pieces| ==> Completed(START, Joined(pieces[..j + 1]), cfg) == f.requests + lost)
      && (!ReadsStarve(START, "", pieces, cfg) ==>
            && Completed(START, Joined(pieces), cfg) == f.requests + lost
            && (f.requests == Completed(START, Joined(pieces), cfg) <==> lost == []))
  {
    ReadsHandOver(START, "", pieces, cfg);
    FromNothing(pieces, GoodReads(START, "", pieces, cfg));
    var got, lost := Reads(START, "", pieces, cfg).requests, Lost(START, "", pieces, cfg);
    assert got + lost == got <==> |lost| == 0;
  }

  lemma FromNothing(pieces: seq<string>, j: nat)
    requires j <= |pieces|
    ensures "" + Joined(pieces[..j]) == Joined(pieces[..j]) && "" + Joined(pieces) == Joined(pieces)
    ensures j < |pieces| ==> "" + Joined(pieces[..j + 1]) == Joined(pieces[..j + 1])
  {
  }

  // ---------------------------------------------------------------- the same stream in one read and in two

  /** No method is called X. */
  const JUNK := "X "

  lemma {:induction false} JunkFails(p: Parser, cfg: Config)
    requires Sound(p) && p.status == ExpectMethod
    ensures Parse(p, JUNK, cfg) == Reject(Some(405)) && Feed(p, JUNK, cfg) == Fed([], Closed)
  {
    FindIs(JUNK, ' ', 1);
    assert JUNK[..1] == "X";
    assert OnMethod(p, JUNK) == Reject(Some(405));
  }

  /** A request is lost if an error follows in the same read, and handed over if it comes in the next. */
  lemma {:induction false} RequestLost(s: Sent, cfg: Config)
    requires PrinterProofs.Sendable(s, cfg)
    ensures Reads(START, "", [Print(s.m, s.keys, s.names) + JUNK], cfg) == Fed([], Closed)
    ensures var f := Reads(START, "", [Print(s.m, s.keys, s.names), JUNK], cfg);
      f.session == Closed && |f.requests| == 1 && Recovers(f.requests[0], s.m, s.keys, cfg)
  {
    var r, q := FeedOne(START, s, JUNK, cfg);
    JunkFails(q, cfg);
    OneReading(START, Print(s.m, s.keys, s.names) + JUNK, cfg);
    HandedOverAlone(s, cfg);
  }

  lemma {:induction false} HandedOverAlone(s: Sent, cfg: Config)
    requires PrinterProofs.Sendable(s, cfg)
    ensures var f := Reads(START, "", [Print(s.m, s.keys, s.names), JUNK], cfg);
      f.session == Closed && |f.requests| == 1 && Recovers(f.requests[0], s.m, s.keys, cfg)
  {
    var text := Print(s.m, s.keys, s.names);
    var r, q := FeedOne(START, s, "", cfg);
    assert text + "" == text;
    assert Feed(START, text, cfg) == Fed([r], Open(q, ""));
    JunkFails(q, cfg);
    TwoReadings(START, text, JUNK, q, cfg);
  }

  lemma {:induction false} OneReading(p: Parser, a: string, cfg: Config)
    requires Sound(p) && Feed(p, a, cfg) == Fed([], Closed)
    ensures Reads(p, "", [a], cfg) == Fed([], Closed)
  {
    assert "" + a == a;
  }

  lemma {:induction false} TwoReadings(p: Parser, a: string, b: string, q: Parser, cfg: Config)
    requires Sound(p) && Feed(p, a, cfg).session == Open(q, "") && Sound(q) && Feed(q, b, cfg) == Fed([], Closed)
    ensures Reads(p, "", [a, b], cfg) == Fed(Feed(p, a, cfg).requests, Closed)
  {
    assert "" + a == a && [a, b][1..] == [b];
    OneReading(q, b, cfg);
    assert Feed(p, a, cfg).requests + [] == Feed(p, a, cfg).requests;
  }
}
