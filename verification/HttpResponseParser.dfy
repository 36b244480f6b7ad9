/** HttpResponseParser as the source writes it, proved against the functions of ResponseParser. */
module HttpResponseParser {
  import opened Wrappers
  import opened Text
  import opened Buffers
  import opened ResponseParser
  import HttpRequest
  import RequestParser

  class ResponseReader {
    var status: Status
    var response: Response
    var left: nat
    var chunk: nat
    var forHead: bool

    ghost function State(): Parser
      reads this
    {
      Parser(status, response, left, chunk, forHead)
    }

    constructor ()
      ensures State() == START
    {
      status, response, left, chunk, forHead := ExpectLine, BLANK, 0, 0, false;
    }

    method Reset()
      modifies this
      ensures State() == START
    {
      status, response, left, chunk, forHead := ExpectLine, BLANK, 0, 0, false;
    }

    method SetForHeadMethod()
      modifies this
      ensures State() == Marked(old(State()), true)
    {
      forHead := true;
    }

    /** The outcome of one turn of the loop, or of the whole loop. */
    ghost predicate Did(t: Turn, ok: bool, hasMore: bool, buf: MsgBuffer<char>)
      reads this, buf
    {
      match t
      case More(p, rest) => ok && hasMore && State() == p && buf.data == rest
      case Leave(p, rest) => ok && !hasMore && State() == p && buf.data == rest
      case Reject => !ok
    }

    method ProcessResponseLine(line: string) returns (ok: bool)
      modifies this`response
      ensures ok == ParseLine(old(response), line).Some?
      ensures ok ==> response == ParseLine(old(response), line).value
    {
      var space := Find(line, ' ');
      if space == |line| || space == 0 {
        return false;
      }
      if line[space - 1] == '1' {
        response := response.(version := HttpRequest.Http11);
      } else if line[space - 1] == '0' {
        response := response.(version := HttpRequest.Http10);
      } else {
        return false;
      }
      var tail := line[space + 1..];
      var next := Find(tail, ' ');
      if next == |tail| {
        return false;
      }
      response := response.(code := Atoi(tail[..next]));
      return true;
    }

    method ParseStatusLine(buf: MsgBuffer<char>) returns (ok: bool, hasMore: bool)
      modifies this, buf
      ensures Did(OnLine(old(State()), old(buf.data)), ok, hasMore, buf)
    {
      ok, hasMore := true, true;
      match FindCrlf(buf.data)
      case Some(crlf) =>
        ok := ProcessResponseLine(buf.data[..crlf]);
        if ok {
          buf.Retrieve(crlf + 2);
          status := ExpectHeaders;
        } else {
          hasMore := false;
        }
      case None =>
        hasMore := false;
    }

    method AddHeaderLine(line: string, colon: nat)
      requires colon < |line|
      modifies this`response
      ensures response == AddHeader(old(response), line[..colon], line[colon + 1..])
    {
      var field := Lower(line[..colon]);
      var text := line[colon + 1..];
      var start := 0;
      while start < |text| && IsSpace(text[start])
        invariant 0 <= start <= |text|
        invariant TrimLeft(text[start..]) == TrimLeft(text)
      {
        assert text[start..][1..] == text[start + 1..];
        start := start + 1;
      }
      var value := text[start..];
      assert value == TrimLeft(text);
      while value != "" && IsSpace(value[|value| - 1])
        invariant TrimRight(value) == TrimRight(TrimLeft(text))
        decreases |value|
      {
        value := value[..|value| - 1];
      }
      if field == "set-cookie" {
        response := response.(cookies := response.cookies + [value]);
      } else {
        response := response.(headers := response.headers[field := value]);
      }
    }

    /** What follows the headers. */
    method EndOfHeaders() returns (hasMore: bool)
      modifies this
      ensures match OnEmptyLine(old(State()), "") {
        case More(p, _) => hasMore && State() == p
        case Leave(p, _) => !hasMore && State() == p
        case Reject => false
      }
    {
      hasMore := true;
      var len := HeaderBy(response, "content-length");
      if len != "" {
        left := Atoi(len);
        status := ExpectBody;
      } else if HeaderBy(response, "transfer-encoding") == "chunked" {
        status := ExpectChunkLen;
      } else if response.code == 204 || (response.code == 101 && HeaderBy(response, "upgrade") == "websocket") {
        status := GotAll;
        hasMore := false;
      } else {
        status := ExpectClose;
      }
      if forHead {
        left, status, hasMore := 0, GotAll, false;
      }
    }

    method ParseHeader(buf: MsgBuffer<char>) returns (ok: bool, hasMore: bool)
      modifies this, buf
      ensures Did(OnHeader(old(State()), old(buf.data)), ok, hasMore, buf)
    {
      ok, hasMore := true, true;
      match FindCrlf(buf.data)
      case Some(crlf) =>
        var line := buf.data[..crlf];
        var colon := Find(line, ':');
        if colon != crlf {
          AddHeaderLine(line, colon);
        } else {
          hasMore := EndOfHeaders();
        }
        buf.Retrieve(crlf + 2);
      case None =>
        hasMore := false;
    }

    method AppendToBody(data: string)
      modifies this`response
      ensures response == old(response).(body := old(response).body + data)
    {
      response := response.(body := response.body + data);
    }

    method ParseBody(buf: MsgBuffer<char>) returns (ok: bool, hasMore: bool)
      modifies this, buf
      ensures Did(OnBody(old(State()), old(buf.data)), ok, hasMore, buf)
    {
      ok, hasMore := true, true;
      assert response.body + "" == response.body;
      if |buf.data| == 0 {
        if left == 0 {
          status := GotAll;
        }
        return ok, false;
      }
      if left >= |buf.data| {
        left := left - |buf.data|;
        assert buf.data[..|buf.data|] == buf.data && buf.data[|buf.data|..] == "";
        AppendToBody(buf.data);
        buf.RetrieveAll();
      } else {
        AppendToBody(buf.data[..left]);
        buf.Retrieve(left);
        left := 0;
      }
      if left == 0 {
        status := GotAll;
        hasMore := false;
      }
    }

    method ParseChunkLength(buf: MsgBuffer<char>) returns (ok: bool, hasMore: bool)
      modifies this, buf
      ensures Did(OnChunkLength(old(State()), old(buf.data)), ok, hasMore, buf)
    {
      ok, hasMore := true, true;
      match FindCrlf(buf.data)
      case Some(crlf) =>
        chunk := RequestParser.ChunkSize(buf.data[..crlf]);
        if chunk != 0 {
          status := ExpectChunkBody;
        } else {
          status := ExpectLastEmptyChunk;
        }
        buf.Retrieve(crlf + 2);
      case None =>
        hasMore := false;
    }

    method ParseChunkBody(buf: MsgBuffer<char>) returns (ok: bool, hasMore: bool)
      modifies this, buf
      ensures Did(OnChunkBody(old(State()), old(buf.data)), ok, hasMore, buf)
    {
      ok, hasMore := true, true;
      if |buf.data| >= chunk + 2 {
        if buf.data[chunk] == '\r' && buf.data[chunk + 1] == '\n' {
          AppendToBody(buf.data[..chunk]);
          buf.Retrieve(chunk + 2);
          chunk, status := 0, ExpectChunkLen;
        } else {
          buf.RetrieveAll();
          ok := false;
        }
      } else {
        hasMore := false;
      }
    }

    method ParseLastChunk(buf: MsgBuffer<char>) returns (ok: bool, hasMore: bool)
      modifies this, buf
      ensures Did(OnLastChunk(old(State()), old(buf.data)), ok, hasMore, buf)
    {
      ok, hasMore := true, false;
      match FindCrlf(buf.data)
      case Some(crlf) =>
        buf.Retrieve(crlf + 2);
        status := GotAll;
        response := response.(headers := response.headers["content-length" := Decimal(|response.body|)]);
        response := response.(headers := response.headers - {"transfer-encoding"});
      case None =>
    }

    method TurnOnce(buf: MsgBuffer<char>) returns (ok: bool, hasMore: bool)
      requires status != GotAll
      modifies this, buf
      ensures Did(TakeTurn(old(State()), old(buf.data)), ok, hasMore, buf)
    {
      match status
      case ExpectLine => ok, hasMore := ParseStatusLine(buf);
      case ExpectHeaders => ok, hasMore := ParseHeader(buf);
      case ExpectBody => ok, hasMore := ParseBody(buf);
      case ExpectClose =>
        AppendToBody(buf.data);
        buf.RetrieveAll();
        ok, hasMore := true, false;
      case ExpectChunkLen => ok, hasMore := ParseChunkLength(buf);
      case ExpectChunkBody => ok, hasMore := ParseChunkBody(buf);
      case ExpectLastEmptyChunk => ok, hasMore := ParseLastChunk(buf);
    }

    method ParseResponse(buf: MsgBuffer<char>) returns (ok: bool)
      requires status != GotAll
      modifies this, buf
      ensures Did(Parse(old(State()), old(buf.data)), ok, false, buf)
    {
      ghost var t := Parse(State(), buf.data);
      var hasMore := true;
      ok := true;
      while hasMore
        invariant ok && hasMore ==> status != GotAll && Parse(State(), buf.data) == t
        invariant !hasMore ==> Did(t, ok, false, buf)
        invariant hasMore ==> ok
        decreases hasMore, |buf.data|
      {
        ok, hasMore := TurnOnce(buf);
        if !ok {
          return;
        }
      }
    }

    /** One pass of the read loop: a complete response is taken out and the parser made ready for the next. */
    method ReadOne(buf: MsgBuffer<char>, head: bool) returns (ok: bool, complete: Option<Response>)
      requires status != GotAll
      modifies this, buf
      ensures match Parse(Marked(old(State()), head), old(buf.data)) {
        case Reject => !ok
        case Leave(p, rest) =>
          && ok && buf.data == rest
          && if p.status == GotAll then complete == Some(p.response) && State() == START
             else complete == None && State() == p
        case More(_, _) => false
      }
    {
      complete := None;
      if head {
        SetForHeadMethod();
      }
      assert State() == Marked(old(State()), head);
      ok := ParseResponse(buf);
      if ok && status == GotAll {
        complete := Some(response);
        Reset();
      }
    }

    /** One pass, seen from the responses of the whole read `f`. */
    method Pass(buf: MsgBuffer<char>, received: seq<Response>, n: nat, heads: Heads, ghost f: Fed)
      returns (got: seq<Response>, more: bool, ok: bool)
      requires Waiting(State()) && buf.data != "" && f == After(received, Feed(State(), buf.data, n, heads))
      modifies this, buf
      ensures more ==>
        && ok && Waiting(State()) && |buf.data| < |old(buf.data)| && |got| == |received| + 1
        && f == After(got, Feed(State(), buf.data, n + 1, heads))
      ensures !more ==> got == received && f == Fed(received, if ok then Open(State(), buf.data, n) else Failed)
    {
      ghost var p, bytes := State(), buf.data;
      ParseProgress(Marked(p, heads(n)), bytes);
      var complete;
      ok, complete := ReadOne(buf, heads(n));
      got, more := received, ok && complete.Some?;
      if more {
        FeedGoesOn(received, p, bytes, n, heads);
        got := got + [complete.value];
      } else {
        FeedStops(received, p, bytes, n, heads);
      }
    }

    /** The read loop of onRecvMessage: `heads` tells the methods of the requests in flight. */
    method OnRecvMessage(buf: MsgBuffer<char>, count: nat, heads: Heads) returns (received: seq<Response>, open: bool)
      requires Waiting(State())
      modifies this, buf
      ensures Feed(old(State()), old(buf.data), count, heads) ==
        Fed(received, if open then Open(State(), buf.data, count + |received|) else Failed)
    {
      ghost var f := Feed(State(), buf.data, count, heads);
      received := [];
      FeedStarts(f);
      while |buf.data| > 0
        invariant Waiting(State())
        invariant f == After(received, Feed(State(), buf.data, count + |received|, heads))
        decreases |buf.data|
      {
        var more;
        received, more, open := Pass(buf, received, count + |received|, heads, f);
        if !more {
          return;
        }
      }
      FeedEnds(received, State(), count + |received|, heads);
      open := true;
    }
  }

  lemma FeedStarts(f: Fed)
    ensures f == After([], f)
  {
  }

  lemma FeedEnds(received: seq<Response>, p: Parser, count: nat, heads: Heads)
    requires Waiting(p)
    ensures After(received, Feed(p, "", count, heads)) == Fed(received, Open(p, "", count))
  {
    assert received + [] == received;
  }

  ghost function After(received: seq<Response>, f: Fed): Fed {
    Fed(received + f.responses, f.session)
  }

  lemma FeedStops(received: seq<Response>, p: Parser, bytes: string, count: nat, heads: Heads)
    requires Waiting(p) && bytes != ""
    requires var t := Parse(Marked(p, heads(count)), bytes); t.Leave? ==> t.p.status != GotAll
    ensures After(received, Feed(p, bytes, count, heads)) ==
      match Parse(Marked(p, heads(count)), bytes) {
        case Leave(q, rest) => Fed(received, Open(q, rest, count))
        case _ => Fed(received, Failed)
      }
  {
    assert received + [] == received;
  }

  lemma FeedGoesOn(received: seq<Response>, p: Parser, bytes: string, count: nat, heads: Heads)
    requires Waiting(p) && bytes != ""
    requires var t := Parse(Marked(p, heads(count)), bytes); t.Leave? && t.p.status == GotAll
    ensures var t := Parse(Marked(p, heads(count)), bytes);
      After(received, Feed(p, bytes, count, heads)) ==
        After(received + [t.p.response], Feed(START, t.rest, count + 1, heads))
  {
    var t := Parse(Marked(p, heads(count)), bytes);
    var g := Feed(START, t.rest, count + 1, heads);
    assert received + ([t.p.response] + g.responses) == received + [t.p.response] + g.responses;
  }
}
