/**
 Whom a campaign reaches, said of the filters as the configuration lists them: for every run of the auction,
 which campaigns can win a request and which requests find one.
 */
module Targeting {
  import opened Wrappers
  import opened Text
  import opened Campagne
  import opened Auction
  import opened CampagnesManager

  // ---------------------------------------------------------------- what the configuration means

  /** The filters of a campaign as its owner wrote them. */
  datatype Listed = Listed(includes: Filters, excludes: Filters)

  predicate LoadedAs(f: Filters, listed: Filters) {
    && f.Keys == listed.Keys
    && forall k :: k in listed ==>
         |f[k]| == |listed[k]| && forall i :: 0 <= i < |listed[k]| ==> f[k][i] == LoadedValue(k, listed[k][i])
  }

  predicate Loaded(t: Terms, l: Listed) {
    LoadedAs(t.includes, l.includes) && LoadedAs(t.excludes, l.excludes)
  }

  predicate OneIs(values: seq<string>, text: string) {
    exists i :: 0 <= i < |values| && SameButCase(values[i], text)
  }

  /** `part` stands in `s` at i, letter by letter. */
  predicate StandsAt(part: string, s: string, i: int) {
    0 <= i && i + |part| <= |s| && forall j :: 0 <= j < |part| ==> s[i + j] == part[j]
  }

  predicate IsPart(part: string, s: string) {
    exists i :: 0 <= i <= |s| && StandsAt(part, s, i)
  }

  predicate OneIsPart(values: seq<string>, text: string) {
    exists i :: 0 <= i < |values| && IsPart(values[i], text)
  }

  /** Each include filter has a value for the request; an unnamed application or device is never included. */
  predicate Wanted(f: Filters, r: BidRequest) {
    && ("language" in f ==> OneIs(f["language"], r.lang))
    && ("application" in f ==> r.app != "" && OneIsPart(f["application"], r.app))
    && ("ifa" in f ==> r.ifa != "" && OneIs(f["ifa"], r.ifa))
  }

  /** No exclude filter has one; an unnamed application or device is excluded by any filter on it. */
  predicate Unwanted(f: Filters, r: BidRequest) {
    || ("language" in f && OneIs(f["language"], r.lang))
    || ("application" in f && (r.app == "" || OneIsPart(f["application"], r.app)))
    || ("ifa" in f && (r.ifa == "" || OneIs(f["ifa"], r.ifa)))
  }

  /** Same size, or for a responsive campaign the same proportions. */
  predicate FitsScreen(t: Terms, r: BidRequest) {
    (t.width == r.width && t.height == r.height) || (t.responsive && r.height * t.width == t.height * r.width)
  }

  predicate Targets(t: Terms, l: Listed, r: BidRequest) {
    FitsScreen(t, r) && !(t.bidPrice < r.bidFloor) && Wanted(l.includes, r) && !Unwanted(l.excludes, r)
  }

  // ---------------------------------------------------------------- the code's checks mean that

  lemma {:induction false} ContainsIs(s: string, part: string)
    ensures Contains(s, part) <==> IsPart(part, s)
  {
    if Contains(s, part) {
      var i :| 0 <= i <= |s| && ContainsAt(s, part, i);
      forall j | 0 <= j < |part| ensures s[i + j] == part[j] {
        assert s[i..i + |part|][j] == s[i + j];
      }
      assert StandsAt(part, s, i);
    }
    if IsPart(part, s) {
      var i :| 0 <= i <= |s| && StandsAt(part, s, i);
      assert s[i..i + |part|] == part;
      assert ContainsAt(s, part, i);
    }
  }

  lemma {:induction false} HitsAre(f: Filters, listed: Filters, k: string, r: BidRequest)
    requires LoadedAs(f, listed) && k in listed
    ensures k == "language" ==> (AnyHit(k, f[k], r) <==> OneIs(listed[k], r.lang))
    ensures k == "ifa" ==> (AnyHit(k, f[k], r) <==> OneIs(listed[k], r.ifa))
    ensures k == "application" ==> (AnyHit(k, f[k], r) <==> OneIsPart(listed[k], r.app))
  {
    FiltersIgnoreCase(k, listed[k], f[k], r);
    forall i | 0 <= i < |listed[k]| ensures Contains(r.app, listed[k][i]) <==> IsPart(listed[k][i], r.app) {
      ContainsIs(r.app, listed[k][i]);
    }
  }

  lemma {:induction false} IncludedIs(f: Filters, listed: Filters, r: BidRequest)
    requires LoadedAs(f, listed)
    ensures Included(f, r) <==> Wanted(listed, r)
  {
    if "language" in listed { HitsAre(f, listed, "language", r); }
    if "application" in listed { HitsAre(f, listed, "application", r); }
    if "ifa" in listed { HitsAre(f, listed, "ifa", r); }
  }

  lemma {:induction false} ExcludedIs(f: Filters, listed: Filters, r: BidRequest)
    requires LoadedAs(f, listed)
    ensures NotExcluded(f, r) <==> !Unwanted(listed, r)
  {
    if "language" in listed { HitsAre(f, listed, "language", r); }
    if "application" in listed { HitsAre(f, listed, "application", r); }
    if "ifa" in listed { HitsAre(f, listed, "ifa", r); }
  }

  lemma {:induction false} SameRatio(a: int, b: int, c: int, d: int)
    requires b != 0 && d != 0
    ensures a as real / b as real == c as real / d as real <==> a * d == c * b
  {
    var x, y := a as real / b as real, c as real / d as real;
    assert x * b as real == a as real && y * d as real == c as real;
    assert (a * d) as real == a as real * d as real && (c * b) as real == c as real * b as real;
    if x == y {
      assert a as real * d as real == x * b as real * d as real;
      assert c as real * b as real == x * d as real * b as real;
    }
    if a * d == c * b {
      assert x * (b as real * d as real) == y * (b as real * d as real);
    }
  }

  /** A campaign suits a request exactly when the filters as written, the price and the screen say so. */
  lemma {:induction false} SuitsMeans(t: Terms, l: Listed, r: BidRequest)
    requires Loaded(t, l) && t.width != 0 && r.width != 0
    ensures Suits(t, r) <==> Targets(t, l, r)
  {
    IncludedIs(t.includes, l.includes, r);
    ExcludedIs(t.excludes, l.excludes, r);
    SameRatio(r.height, r.width, t.height, t.width);
  }

  // ---------------------------------------------------------------- every run

  predicate AllLoaded(ts: seq<Terms>, ls: seq<Listed>) {
    |ts| == |ls| && forall i :: 0 <= i < |ts| ==> Loaded(ts[i], ls[i])
  }

  /** What a request has to bring along. */
  predicate Complete(r: BidRequest) {
    |r.id| > 0 && |r.lang| > 0 && (r.bidFloor < 0.0 || r.bidFloor > 0.0)
    && (r.width < 0 || r.width > 0) && (r.height < 0 || r.height > 0)
  }

  predicate WonRightly(ts: seq<Terms>, ls: seq<Listed>, arrivals: seq<Input>, reply: Reply) {
    reply.Won? ==>
      && reply.n < |arrivals| && arrivals[reply.n] == Read(reply.r) && Complete(reply.r)
      && reply.i < |ts| == |ls| && Targets(ts[reply.i], ls[reply.i], reply.r)
  }

  /** Whatever the threads do: a campaign wins only the requests that its owner's filters let through. */
  lemma {:induction false} WinnersAreTargeted(ts: seq<Terms>, ls: seq<Listed>, budgets: seq<real>, events: seq<Event>)
    requires Funded(ts, budgets) && AllLoaded(ts, ls)
    ensures var m := Run(ts, Opened(budgets), events);
      forall k :: 0 <= k < |m.replies| ==> WonRightly(ts, ls, m.arrivals, m.replies[k])
  {
    AuctionIsSafe(ts, budgets, events);
    var m := Run(ts, Opened(budgets), events);
    forall k | 0 <= k < |m.replies| ensures WonRightly(ts, ls, m.arrivals, m.replies[k]) {
      var reply := m.replies[k];
      if reply.Won? {
        assert ReplyOk(ts, reply);
        SuitsMeans(ts[reply.i], ls[reply.i], reply.r);
      }
    }
  }

  /** A campaign that the request reaches and that still has its price. */
  predicate Reachable(ts: seq<Terms>, ls: seq<Listed>, budgets: seq<real>, r: BidRequest, i: int) {
    0 <= i < |ts| == |ls| == |budgets| && Targets(ts[i], ls[i], r) && ts[i].bidPrice <= budgets[i]
  }

  lemma {:induction false} ChoiceIsReachable(ts: seq<Terms>, ls: seq<Listed>, b: seq<real>, r: BidRequest, draw: int)
    requires ValidTerms(ts) && AllLoaded(ts, ls) && |ts| == |b| && r.width != 0
    ensures var c := Choice(ts, b, r, draw);
      && (c.Some? <==> exists i :: Reachable(ts, ls, b, r, i))
      && (c.Some? ==> Reachable(ts, ls, b, r, c.value))
  {
    ChoiceIsEligible(ts, b, r, draw);
    forall i: nat | i < |ts| ensures Eligible(ts[i], b[i], r) <==> Reachable(ts, ls, b, r, i) {
      EligibleMeans(ts, ls, b, r, i);
    }
  }

  /** The campaign i, which the request reaches, answers and pays. */
  ghost predicate Pays(ts: seq<Terms>, ls: seq<Listed>, m: Market, m1: Market, r: BidRequest, i: nat) {
    && Reachable(ts, ls, m.budgets, r, i)
    && m1.replies == m.replies + [Won(|m.arrivals|, r, i)]
    && m1.budgets == m.budgets[i := m.budgets[i] - ts[i].bidPrice]
  }

  ghost predicate NobodyPays(m: Market, m1: Market) {
    m1.replies == m.replies + [NoContent(|m.arrivals|)] && m1.budgets == m.budgets
  }

  ghost predicate AnsweredWell(ts: seq<Terms>, ls: seq<Listed>, m: Market, m1: Market, r: BidRequest) {
    if exists i :: Reachable(ts, ls, m.budgets, r, i) then exists i: nat :: Pays(ts, ls, m, m1, r, i)
    else NobodyPays(m, m1)
  }

  lemma {:induction false} SettledWell(ts: seq<Terms>, ls: seq<Listed>, m: Market, m1: Market, r: BidRequest,
                                       c: Option<nat>)
    requires |m.budgets| == |ts| && (c.Some? ==> c.value < |ts|)
    requires m1 == Settled(ts, m.(arrivals := m.arrivals + [Read(r)]), |m.arrivals|, r, c)
    requires c.Some? <==> exists i :: Reachable(ts, ls, m.budgets, r, i)
    requires c.Some? ==> Reachable(ts, ls, m.budgets, r, c.value)
    ensures AnsweredWell(ts, ls, m, m1, r)
  {
    match c
    case Some(i) => assert Pays(ts, ls, m, m1, r, i);
    case None => assert NobodyPays(m, m1);
  }

  lemma {:induction false} EligibleMeans(ts: seq<Terms>, ls: seq<Listed>, budgets: seq<real>, r: BidRequest, i: nat)
    requires ValidTerms(ts) && AllLoaded(ts, ls) && |ts| == |budgets| && i < |ts| && r.width != 0
    ensures Eligible(ts[i], budgets[i], r) <==> Reachable(ts, ls, budgets, r, i)
  {
    SuitsMeans(ts[i], ls[i], r);
  }

  /**
   A complete request that is handled without another thread in between is answered 200 with a campaign
   that it reaches and that pays, or 204 when there is none.
   */
  lemma {:induction false} AnsweredAlone(ts: seq<Terms>, ls: seq<Listed>, m: Market, t: nat, draw: int, r: BidRequest)
    requires ValidTerms(ts) && AllLoaded(ts, ls) && Shaped(ts, m) && t !in m.threads && Complete(r)
    ensures Shaped(ts, Step(ts, m, Arrive(t, Read(r))))
    ensures AnsweredWell(ts, ls, m, Finish(ts, Step(ts, m, Arrive(t, Read(r))), t, draw), r)
  {
    HandledAlone(ts, m, t, draw, r);
    ChoiceIsReachable(ts, ls, m.budgets, r, draw);
    var m2 := Finish(ts, Step(ts, m, Arrive(t, Read(r))), t, draw);
    SettledWell(ts, ls, m, m2, r, Choice(ts, m.budgets, r, draw));
  }

  /** Anything else is answered 204 as it arrives. */
  lemma {:induction false} Incomplete(ts: seq<Terms>, m: Market, t: nat, input: Input)
    requires ValidTerms(ts) && Shaped(ts, m) && t !in m.threads && !(input.Read? && Complete(input.r))
    ensures var m1 := Step(ts, m, Arrive(t, input));
      && m1.replies == m.replies + [NoContent(|m.arrivals|)]
      && m1.budgets == m.budgets && m1.threads == m.threads && m1.arrivals == m.arrivals + [input]
  {
  }

  // ---------------------------------------------------------------- which campaigns there can be

  /** The filters that exist and how many values each may have. */
  const FILTERS := map["language" := 10, "application" := 100, "ifa" := 100000]

  predicate WithinLimits(f: Filters) {
    f.Keys <= FILTERS.Keys && forall k :: k in f && k in FILTERS ==> 0 < |f[k]| <= FILTERS[k]
  }

  /**
   A campaign exists exactly with all its data, known filters of bounded size, none on both sides, and
   its money in range.
   */
  lemma {:induction false} AcceptedExactlyWhen(t: Terms, budget: real)
    ensures Acceptable(t, budget) <==>
      && |t.id| > 0 && |t.url| > 0 && t.width != 0 && t.height != 0
      && WithinLimits(t.includes) && WithinLimits(t.excludes)
      && (forall k :: k in t.includes ==> k !in t.excludes)
      && !(budget < 1.0) && !(budget > 1000.0) && !(t.bidPrice < 0.01) && !(t.bidPrice > 10.0)
  {
    LimitsAre(t.includes);
    LimitsAre(t.excludes);
    if forall k :: k in t.includes ==> k !in t.excludes {
      assert forall k :: k in t.includes.Keys ==> k !in t.excludes.Keys;
    }
  }

  lemma {:induction false} LimitsAre(f: Filters)
    ensures FiltersFit(f) <==> WithinLimits(f)
  {
    if FiltersFit(f) {
      forall k | k in f ensures k in FILTERS && 0 < |f[k]| <= FILTERS[k] {
        assert FilterFits(k, f[k]);
      }
    }
    if WithinLimits(f) {
      forall k | k in f ensures FilterFits(k, f[k]) {
        assert k in f.Keys && k in FILTERS.Keys;
      }
    }
  }
}
