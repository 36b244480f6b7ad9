/** A campaign, its constructor checks, and whether it suits a bid request. */
module Campagne {
  import opened Wrappers
  import opened Text

  type Filters = map<string, seq<string>>

  /** What never changes about a campaign. */
  datatype Terms = Terms(
    id: string,
    bidPrice: real,
    width: int,
    height: int,
    responsive: bool,
    includes: Filters,
    excludes: Filters,
    url: string)

  datatype BidRequest = BidRequest(
    id: string,
    lang: string,
    app: string,
    ifa: string,
    width: int,
    height: int,
    bidFloor: real)

  // ---------------------------------------------------------------- which campaigns are accepted

  predicate FilterFits(name: string, values: seq<string>) {
    || (name == "language" && 1 <= |values| <= 10)
    || (name == "application" && 1 <= |values| <= 100)
    || (name == "ifa" && 1 <= |values| <= 100000)
  }

  predicate FiltersFit(f: Filters) {
    forall k :: k in f ==> FilterFits(k, f[k])
  }

  predicate Acceptable(t: Terms, budget: real) {
    && t.id != "" && t.url != "" && t.width != 0 && t.height != 0
    && t.includes.Keys !! t.excludes.Keys
    && FiltersFit(t.includes) && FiltersFit(t.excludes)
    && 1.0 <= budget <= 1000.0
    && 0.01 <= t.bidPrice <= 10.0
  }

  // ---------------------------------------------------------------- which requests a campaign suits

  predicate ContainsAt(s: string, part: string, i: nat) {
    i + |part| <= |s| && s[i..i + |part|] == part
  }

  /** std::string::find: also true of the empty string. */
  predicate Contains(s: string, part: string) {
    exists i :: 0 <= i <= |s| && ContainsAt(s, part, i)
  }

  predicate SizeSuits(t: Terms, r: BidRequest)
    requires t.width != 0 && r.width != 0
  {
    || (r.height == t.height && r.width == t.width)
    || (t.responsive && r.height as real / r.width as real == t.height as real / t.width as real)
  }

  predicate Hit(name: string, value: string, r: BidRequest) {
    match name
    case "language" => value == Lower(r.lang)
    case "application" => Contains(r.app, value)
    case "ifa" => value == Lower(r.ifa)
    case _ => false
  }

  predicate AnyHit(name: string, values: seq<string>, r: BidRequest) {
    exists i :: 0 <= i < |values| && Hit(name, values[i], r)
  }

  /** A filter on something that the request does not have rejects it, also when it excludes. */
  predicate Present(name: string, r: BidRequest) {
    (name == "application" ==> r.app != "") && (name == "ifa" ==> r.ifa != "")
  }

  predicate Known(name: string) {
    name == "language" || name == "application" || name == "ifa"
  }

  predicate Included(f: Filters, r: BidRequest) {
    forall k :: k in f && Known(k) ==> Present(k, r) && AnyHit(k, f[k], r)
  }

  predicate NotExcluded(f: Filters, r: BidRequest) {
    forall k :: k in f && Known(k) ==> Present(k, r) && !AnyHit(k, f[k], r)
  }

  /** All that does not depend on the budget left. */
  predicate Suits(t: Terms, r: BidRequest)
    requires t.width != 0 && r.width != 0
  {
    SizeSuits(t, r) && t.bidPrice >= r.bidFloor && Included(t.includes, r) && NotExcluded(t.excludes, r)
  }

  // ---------------------------------------------------------------- the object

  class Campaign {
    const terms: Terms
    var budget: real

    predicate Valid()
      reads this
    {
      terms.bidPrice >= 0.01 && terms.width != 0 && terms.height != 0 && 0.0 <= budget <= 1000.0
    }

    constructor (t: Terms, b: real)
      ensures terms == t && budget == b
    {
      terms, budget := t, b;
    }

    /** Takes the price, unless the budget is too small. */
    method DecrementeBudget() returns (ok: bool)
      requires Valid()
      modifies this
      ensures Valid()
      ensures ok == (old(budget) >= terms.bidPrice)
      ensures budget == if ok then old(budget) - terms.bidPrice else old(budget)
    {
      ok := true;
      if budget >= terms.bidPrice {
        budget := budget - terms.bidPrice;
      } else {
        ok := false;
      }
    }
  }

  /** No filter may be named on both sides. */
  method SharesKey(names: seq<string>, others: seq<string>) returns (shares: bool)
    ensures shares <==> exists i, j :: 0 <= i < |names| && 0 <= j < |others| && names[i] == others[j]
  {
    shares := false;
    for i := 0 to |names|
      invariant forall x, y :: 0 <= x < i && 0 <= y < |others| ==> names[x] != others[y]
    {
      for j := 0 to |others|
        invariant forall y :: 0 <= y < j ==> names[i] != others[y]
      {
        if names[i] == others[j] {
          return true;
        }
      }
    }
  }

  method CountFitting(names: seq<string>, f: Filters) returns (n: nat)
    requires forall k :: k in names ==> k in f
    ensures n <= |names|
    ensures n == |names| <==> forall i :: 0 <= i < |names| ==> FilterFits(names[i], f[names[i]])
  {
    n := 0;
    for i := 0 to |names|
      invariant n <= i
      invariant n == i <==> forall x :: 0 <= x < i ==> FilterFits(names[x], f[names[x]])
    {
      if FilterFits(names[i], f[names[i]]) {
        n := n + 1;
      }
    }
  }

  predicate Lists(names: seq<string>, f: Filters) {
    (set k | k in names) == f.Keys
  }

  lemma ListsIs(names: seq<string>, f: Filters)
    requires Lists(names, f)
    ensures forall k :: k in names <==> k in f
  {
    assert forall k :: k in names <==> k in (set k | k in names);
  }

  lemma FitByName(names: seq<string>, f: Filters)
    requires Lists(names, f)
    ensures forall k :: k in names ==> k in f
    ensures FiltersFit(f) <==> forall i :: 0 <= i < |names| ==> FilterFits(names[i], f[names[i]])
  {
    ListsIs(names, f);
    assert forall i :: 0 <= i < |names| ==> names[i] in names;
    if forall i :: 0 <= i < |names| ==> FilterFits(names[i], f[names[i]]) {
      forall k | k in f ensures FilterFits(k, f[k]) {
        assert k in names;
      }
    }
  }

  /** The constructor with its exceptions; `inc` and `exc` are the iteration orders of the filter maps. */
  method Create(t: Terms, budget: real, inc: seq<string>, exc: seq<string>) returns (c: Option<Campaign>)
    requires Lists(inc, t.includes) && Lists(exc, t.excludes)
    ensures c.Some? <==> Acceptable(t, budget)
    ensures c.Some? ==> fresh(c.value) && c.value.terms == t && c.value.budget == budget && c.value.Valid()
  {
    FitByName(inc, t.includes);
    FitByName(exc, t.excludes);
    if t.id == "" || budget == 0.0 || t.bidPrice == 0.0 || t.width == 0 || t.height == 0 || t.url == "" {
      return None;
    }
    var shares := SharesKey(inc, exc);
    if shares {
      ghost var i, j :| 0 <= i < |inc| && 0 <= j < |exc| && inc[i] == exc[j];
      assert inc[i] in inc && exc[j] in exc;
      return None;
    }
    var n := CountFitting(inc, t.includes);
    var m := CountFitting(exc, t.excludes);
    if n != |inc| || m != |exc| {
      return None;
    }
    if budget < 1.0 || budget > 1000.0 {
      return None;
    }
    if t.bidPrice < 0.01 || t.bidPrice > 10.0 {
      return None;
    }
    ListsIs(inc, t.includes);
    ListsIs(exc, t.excludes);
    var made := new Campaign(t, budget);
    c := Some(made);
  }

  // ---------------------------------------------------------------- the scan of one campaign

  method FindHit(name: string, values: seq<string>, r: BidRequest) returns (found: bool)
    ensures found == AnyHit(name, values, r)
  {
    found := false;
    for i := 0 to |values|
      invariant !found
      invariant forall x :: 0 <= x < i ==> !Hit(name, values[x], r)
    {
      if Hit(name, values[i], r) {
        return true;
      }
    }
  }

  method CheckIncludes(names: seq<string>, f: Filters, r: BidRequest, before: bool) returns (ok: bool)
    requires Lists(names, f)
    ensures ok == (before && Included(f, r))
  {
    ListsIs(names, f);
    ok := before;
    for i := 0 to |names|
      invariant ok == (before && forall x :: 0 <= x < i && Known(names[x]) ==>
        Present(names[x], r) && AnyHit(names[x], f[names[x]], r))
    {
      var name := names[i];
      var hit := FindHit(name, f[name], r);
      if ok && name == "language" {
        ok := hit;
      }
      if ok && name == "application" {
        ok := r.app != "" && hit;
      }
      if ok && name == "ifa" {
        ok := r.ifa != "" && hit;
      }
    }
    if ok {
      forall k | k in f && Known(k) ensures Present(k, r) && AnyHit(k, f[k], r) {
        assert k in names;
      }
    }
  }

  method CheckExcludes(names: seq<string>, f: Filters, r: BidRequest, before: bool) returns (ok: bool)
    requires Lists(names, f)
    ensures ok == (before && NotExcluded(f, r))
  {
    ListsIs(names, f);
    ok := before;
    for i := 0 to |names|
      invariant ok == (before && forall x :: 0 <= x < i && Known(names[x]) ==>
        Present(names[x], r) && !AnyHit(names[x], f[names[x]], r))
    {
      var name := names[i];
      var hit := FindHit(name, f[name], r);
      if ok && name == "language" {
        ok := !hit;
      }
      if ok && name == "application" {
        ok := r.app != "" && !hit;
      }
      if ok && name == "ifa" {
        ok := r.ifa != "" && !hit;
      }
    }
    if ok {
      forall k | k in f && Known(k) ensures Present(k, r) && !AnyHit(k, f[k], r) {
        assert k in names;
      }
    }
  }

  /** One turn of the scan, done under the lock of the campaign. */
  method Compatible(c: Campaign, r: BidRequest, inc: seq<string>, exc: seq<string>) returns (ok: bool)
    requires c.Valid() && r.width != 0
    requires Lists(inc, c.terms.includes) && Lists(exc, c.terms.excludes)
    ensures ok == (Suits(c.terms, r) && c.budget >= c.terms.bidPrice)
  {
    ok := r.height == c.terms.height && r.width == c.terms.width;
    if !ok && c.terms.responsive {
      ok := r.height as real / r.width as real == c.terms.height as real / c.terms.width as real;
    }
    if ok {
      ok := c.budget >= c.terms.bidPrice && c.terms.bidPrice >= r.bidFloor;
    }
    ok := CheckIncludes(inc, c.terms.includes, r, ok);
    ok := CheckExcludes(exc, c.terms.excludes, r, ok);
  }
}
