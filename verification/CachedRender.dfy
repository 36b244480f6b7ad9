/** HttpResponseImpl::renderToBuffer: a rendered response is kept, and only its date is brought up to date. */
module CachedRender {
  import opened Wrappers
  import opened Buffers

  /** Dates always have the same length. */
  const DATE_LENGTH := 29

  type DateText = s: string | |s| == DATE_LENGTH witness seq(DATE_LENGTH, _ => ' ')

  /** What a response consists of while it is left unchanged, and how a second is written as a date. */
  datatype Content = Content(head: string, body: string, dated: bool, date: int -> DateText)

  const DATE_NAME := "Date: "

  /** The response rendered from nothing at some second. */
  function Uncached(r: Content, second: int): string {
    if r.dated then r.head + DATE_NAME + r.date(second) + "\r\n\r\n" + r.body
    else r.head + "\r\n" + r.body
  }

  /**
   The cache: the expiry time, the second that the kept text shows, whether the date position is known,
   and the second recorded by the last patch, at first -1.
   */
  datatype Cache = Cache(expired: int, shown: Option<int>, located: bool, mark: int)

  const START := Cache(-1, None, false, -1)

  predicate Kept(r: Content, c: Cache) {
    c.expired >= 0 && (if r.dated then c.located else c.shown.Some?)
  }

  /** The source asserts this. */
  predicate Sound(r: Content, c: Cache) {
    Kept(r, c) ==> c.shown.Some?
  }

  /** The second that a render at `now` shows. */
  function Shown(r: Content, c: Cache, now: int): int
    requires Sound(r, c)
  {
    if Kept(r, c) && (!r.dated || now == c.mark) then c.shown.value else now
  }

  function AfterRender(r: Content, c: Cache, now: int): Cache
    requires Sound(r, c)
  {
    if Kept(r, c) then
      if r.dated && now != c.mark then c.(shown := Some(now), mark := now) else c
    else c.(shown := if c.expired >= 0 then Some(now) else c.shown, located := c.located || r.dated)
  }

  function AfterExpiry(c: Cache, expired: int): Cache {
    c.(expired := expired, located := false)
  }

  // ---------------------------------------------------------------- the object

  class Response {
    const content: Content
    var expired: int
    var httpString: MsgBuffer?<char>
    var datePos: Option<nat>
    var httpStringDate: int
    ghost var shown: Option<int>

    ghost function State(): Cache
      reads this
    {
      Cache(expired, shown, datePos.Some?, httpStringDate)
    }

    ghost predicate Valid()
      reads this, httpString
    {
      && Sound(content, State())
      && (shown.Some? <==> httpString != null)
      && (httpString != null ==> httpString.data == Uncached(content, shown.value))
      && (datePos.Some? ==> content.dated && datePos.value == |content.head| + |DATE_NAME|)
    }

    constructor (content: Content)
      ensures Valid() && State() == START && this.content == content
    {
      this.content := content;
      expired, httpString, datePos, httpStringDate, shown := -1, null, None, -1, None;
    }

    method SetExpiredTime(time: int)
      requires Valid()
      modifies this
      ensures Valid() && State() == AfterExpiry(old(State()), time)
    {
      expired, datePos := time, None;
    }

    /** Only this object changes: no buffer handed out before is touched. */
    method RenderToBuffer(now: int) returns (out: MsgBuffer<char>)
      requires Valid()
      modifies this
      ensures Valid() && State() == AfterRender(content, old(State()), now)
      ensures out.data == Uncached(content, Shown(content, old(State()), now))
    {
      if expired >= 0 {
        if content.dated {
          if datePos.Some? {
            if now != httpStringDate {
              httpStringDate := now;
              var patched := new MsgBuffer<char>(httpString.data);
              DateAt(content, shown.value, now);
              patched.Overwrite(datePos.value, content.date(now));
              httpString, shown := patched, Some(now);
            }
            return httpString;
          }
        } else if httpString != null {
          return httpString;
        }
      }
      out := RenderAnew(now);
    }

    method RenderAnew(now: int) returns (out: MsgBuffer<char>)
      requires Valid() && !Kept(content, State())
      modifies this
      ensures Valid() && State() == AfterRender(content, old(State()), now)
      ensures fresh(out) && out.data == Uncached(content, now)
    {
      out := new MsgBuffer<char>(content.head);
      if content.dated {
        out.Append(DATE_NAME);
        datePos := Some(|out.data|);
        out.Append(content.date(now));
        out.Append("\r\n\r\n");
      } else {
        out.Append("\r\n");
      }
      out.Append(content.body);
      if expired >= 0 {
        httpString, shown := out, Some(now);
      }
    }
  }

  /** The date lies where it was found, whatever second is shown. */
  lemma DateAt(r: Content, before: int, now: int)
    requires r.dated
    ensures var pos := |r.head| + |DATE_NAME|;
      && pos + DATE_LENGTH <= |Uncached(r, before)|
      && Uncached(r, before)[..pos] + r.date(now) + Uncached(r, before)[pos + DATE_LENGTH..] == Uncached(r, now)
  {
    var pos, s := |r.head| + |DATE_NAME|, Uncached(r, before);
    assert s == (r.head + DATE_NAME) + r.date(before) + ("\r\n\r\n" + r.body);
    assert s[..pos] == r.head + DATE_NAME && s[pos + DATE_LENGTH..] == "\r\n\r\n" + r.body;
  }

  // ---------------------------------------------------------------- over time

  datatype Event = Render(now: int) | SetExpiry(time: int)

  function Step(r: Content, c: Cache, e: Event): Cache
    requires Sound(r, c)
  {
    match e
    case Render(now) => AfterRender(r, c, now)
    case SetExpiry(time) => AfterExpiry(c, time)
  }

  lemma StepSound(r: Content, c: Cache, e: Event)
    requires Sound(r, c)
    ensures Sound(r, Step(r, c, e))
  {
  }

  /** The texts rendered. */
  function Rendered(r: Content, c: Cache, events: seq<Event>): seq<string>
    requires Sound(r, c)
    decreases |events|
  {
    if events == [] then []
    else
      var e := events[0];
      StepSound(r, c, e);
      (if e.Render? then [Uncached(r, Shown(r, c, e.now))] else []) + Rendered(r, Step(r, c, e), events[1..])
  }

  /** The texts that a response without cache would render. */
  function Renewed(r: Content, events: seq<Event>): seq<string> {
    if events == [] then []
    else (if events[0].Render? then [Uncached(r, events[0].now)] else []) + Renewed(r, events[1..])
  }

  /** The clock shows again the second of the last patch, and the kept text another date. */
  predicate Stale(r: Content, c: Cache, now: int)
    requires Sound(r, c)
  {
    r.dated && Kept(r, c) && now == c.mark && r.date(c.shown.value) != r.date(now)
  }

  lemma RightExactlyWhen(r: Content, c: Cache, now: int)
    requires Sound(r, c)
    ensures Uncached(r, Shown(r, c, now)) == Uncached(r, now) <==> !Stale(r, c, now)
  {
    if Stale(r, c, now) {
      DateDiffers(r, c.shown.value, now);
    }
  }

  /** No render finds the kept text stale. */
  predicate NeverStale(r: Content, c: Cache, events: seq<Event>)
    requires Sound(r, c)
    decreases |events|
  {
    if events == [] then true
    else
      StepSound(r, c, events[0]);
      && (events[0].Render? ==> !Stale(r, c, events[0].now))
      && NeverStale(r, Step(r, c, events[0]), events[1..])
  }

  lemma {:induction false} RightFrom(r: Content, c: Cache, events: seq<Event>)
    requires Sound(r, c)
    ensures Rendered(r, c, events) == Renewed(r, events) <==> NeverStale(r, c, events)
    decreases |events|
  {
    if events != [] {
      var e, tail := events[0], events[1..];
      StepSound(r, c, e);
      RightFrom(r, Step(r, c, e), tail);
      if e.Render? {
        RightExactlyWhen(r, c, e.now);
        SameBehind(Uncached(r, Shown(r, c, e.now)), Uncached(r, e.now), Rendered(r, Step(r, c, e), tail),
                   Renewed(r, tail));
      } else {
        assert [] + Rendered(r, Step(r, c, e), tail) == Rendered(r, Step(r, c, e), tail);
        assert [] + Renewed(r, tail) == Renewed(r, tail);
      }
    }
  }

  lemma SameBehind(x: string, y: string, a: seq<string>, b: seq<string>)
    ensures [x] + a == [y] + b <==> x == y && a == b
  {
    assert ([x] + a)[1..] == a && ([y] + b)[1..] == b;
    assert ([x] + a)[0] == x && ([y] + b)[0] == y;
  }

  /** Over any renders and expiry changes, every text is what an uncached render gives, unless one finds it stale. */
  lemma RightThroughout(r: Content, events: seq<Event>)
    ensures Rendered(r, START, events) == Renewed(r, events) <==> NeverStale(r, START, events)
  {
    RightFrom(r, START, events);
  }

  lemma DateDiffers(r: Content, a: int, b: int)
    requires r.dated && r.date(a) != r.date(b)
    ensures Uncached(r, a) != Uncached(r, b)
  {
    var pos := |r.head| + |DATE_NAME|;
    DateIs(r, a);
    DateIs(r, b);
  }

  lemma DateIs(r: Content, a: int)
    requires r.dated
    ensures var pos := |r.head| + |DATE_NAME|;
      pos + DATE_LENGTH <= |Uncached(r, a)| && Uncached(r, a)[pos..pos + DATE_LENGTH] == r.date(a)
  {
    var s := Uncached(r, a);
    assert s == (r.head + DATE_NAME) + r.date(a) + ("\r\n\r\n" + r.body);
  }

  predicate OnlyRenders(events: seq<Event>) {
    forall i :: 0 <= i < |events| ==> events[i].Render? && events[i].now >= 0
  }

  lemma {:induction false} AnyClock(r: Content, c: Cache, events: seq<Event>)
    requires Sound(r, c) && OnlyRenders(events)
    requires c.mark >= 0 ==> Kept(r, c) && c.shown == Some(c.mark)
    ensures NeverStale(r, c, events)
    decreases |events|
  {
    if events != [] {
      StepSound(r, c, events[0]);
      AnyClock(r, Step(r, c, events[0]), events[1..]);
    }
  }

  /** With the expiry set once, every render shows its own second, however the clock jumps. */
  lemma CacheIsInvisible(r: Content, expired: int, events: seq<Event>)
    requires OnlyRenders(events)
    ensures Rendered(r, AfterExpiry(START, expired), events) == Renewed(r, events)
  {
    AnyClock(r, AfterExpiry(START, expired), events);
    RightFrom(r, AfterExpiry(START, expired), events);
  }

  /** The clock never goes back. */
  predicate Monotone(events: seq<Event>, last: int) {
    events == [] ||
    (if events[0].Render? then events[0].now >= last && Monotone(events[1..], events[0].now)
     else Monotone(events[1..], last))
  }

  lemma {:induction false} MonotoneClock(r: Content, c: Cache, events: seq<Event>, last: int)
    requires Sound(r, c) && Monotone(events, last) && last >= 0
    requires c.mark <= last && (c.shown.Some? ==> c.mark <= c.shown.value <= last)
    ensures NeverStale(r, c, events)
    decreases |events|
  {
    if events != [] {
      var e := events[0];
      StepSound(r, c, e);
      MonotoneClock(r, Step(r, c, e), events[1..], if e.Render? then e.now else last);
    }
  }

  /** With the expiry changed at any time, the same holds while the clock never goes back. */
  lemma CacheIsInvisibleOverChanges(r: Content, events: seq<Event>)
    requires Monotone(events, 0)
    ensures Rendered(r, START, events) == Renewed(r, events)
  {
    MonotoneClock(r, START, events, 0);
    RightThroughout(r, events);
  }

  /** Setting the expiry again does not forget the last patch: a clock set back to it shows the wrong date. */
  lemma {:induction false} SetBackClock(r: Content)
    requires r.dated && r.date(2) != r.date(3)
    ensures var events := [SetExpiry(0), Render(1), Render(2), SetExpiry(0), Render(3), Render(2)];
      Rendered(r, START, events) != Renewed(r, events)
  {
    var c1 := Step(r, START, SetExpiry(0));
    var c2 := Step(r, c1, Render(1));
    var c3 := Step(r, c2, Render(2));
    var c4 := Step(r, c3, SetExpiry(0));
    var c5 := Step(r, c4, Render(3));
    assert c5 == Cache(0, Some(3), true, 2) && Stale(r, c5, 2);
    assert !NeverStale(r, c5, [Render(2)]);
    StaleLater(r, c4, Render(3), [Render(2)]);
    StaleLater(r, c3, SetExpiry(0), [Render(3), Render(2)]);
    StaleLater(r, c2, Render(2), [SetExpiry(0), Render(3), Render(2)]);
    StaleLater(r, c1, Render(1), [Render(2), SetExpiry(0), Render(3), Render(2)]);
    StaleLater(r, START, SetExpiry(0), [Render(1), Render(2), SetExpiry(0), Render(3), Render(2)]);
    RightThroughout(r, [SetExpiry(0), Render(1), Render(2), SetExpiry(0), Render(3), Render(2)]);
  }

  lemma StaleLater(r: Content, c: Cache, e: Event, rest: seq<Event>)
    requires Sound(r, c)
    ensures Sound(r, Step(r, c, e))
    ensures !NeverStale(r, Step(r, c, e), rest) ==> !NeverStale(r, c, [e] + rest)
  {
    StepSound(r, c, e);
    assert ([e] + rest)[1..] == rest;
  }
}
