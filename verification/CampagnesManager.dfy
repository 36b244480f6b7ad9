/** CampagnesManager and RtbCtrl as one thread runs them, proved against the undisturbed choice of Auction. */
module CampagnesManager {
  import opened Wrappers
  import opened Text
  import opened Campagne
  import opened Auction
  import Draw

  /** The names of a filter map in some order. */
  method Names(f: Filters) returns (names: seq<string>)
    ensures Lists(names, f)
  {
    names := [];
    var left := f.Keys;
    while left != {}
      invariant left <= f.Keys
      invariant (set k | k in names) == f.Keys - left
      decreases left
    {
      var k :| k in left;
      ghost var before := names;
      names := names + [k];
      assert (set x | x in names) == (set x | x in before) + {k};
      left := left - {k};
    }
  }

  /** GetFilterFromItr: languages and identifiers are kept in lower case. */
  function LoadedValue(name: string, value: string): string {
    if name == "language" || name == "ifa" then Lower(value) else value
  }

  method LoadValues(name: string, values: seq<string>) returns (loaded: seq<string>)
    ensures |loaded| == |values| && forall i :: 0 <= i < |values| ==> loaded[i] == LoadedValue(name, values[i])
  {
    loaded := [];
    for i := 0 to |values|
      invariant |loaded| == i && forall j :: 0 <= j < i ==> loaded[j] == LoadedValue(name, values[j])
    {
      var value := values[i];
      if name == "language" || name == "ifa" {
        value := Lower(value);
      }
      loaded := loaded + [value];
    }
  }

  predicate SameButCase(a: string, b: string) {
    |a| == |b| && forall i :: 0 <= i < |a| ==> ToLower(a[i]) == ToLower(b[i])
  }

  /** What the configuration lists matches a request whatever the case of either, except for application names. */
  lemma FiltersIgnoreCase(name: string, values: seq<string>, loaded: seq<string>, r: BidRequest)
    requires |loaded| == |values| && forall i :: 0 <= i < |values| ==> loaded[i] == LoadedValue(name, values[i])
    ensures name == "language" ==> (AnyHit(name, loaded, r) <==>
      exists i :: 0 <= i < |values| && SameButCase(values[i], r.lang))
    ensures name == "ifa" ==> (AnyHit(name, loaded, r) <==>
      exists i :: 0 <= i < |values| && SameButCase(values[i], r.ifa))
    ensures name == "application" ==> (AnyHit(name, loaded, r) <==>
      exists i :: 0 <= i < |values| && Contains(r.app, values[i]))
  {
    var text := if name == "language" then r.lang else r.ifa;
    if name == "language" || name == "ifa" {
      forall i | 0 <= i < |values| ensures Hit(name, loaded[i], r) <==> SameButCase(values[i], text) {
        LowerEqual(values[i], text);
      }
    } else if name == "application" {
      assert forall i :: 0 <= i < |values| ==> Hit(name, loaded[i], r) == Contains(r.app, values[i]);
    }
  }

  lemma LowerEqual(a: string, b: string)
    ensures Lower(a) == Lower(b) <==> SameButCase(a, b)
  {
    if Lower(a) == Lower(b) {
      forall i | 0 <= i < |a| ensures ToLower(a[i]) == ToLower(b[i]) {
        assert Lower(a)[i] == Lower(b)[i];
      }
    }
  }

  lemma {:induction false} FoundIs(ts: seq<Terms>, b: seq<real>, r: BidRequest, draw: int)
    requires ValidTerms(ts) && |b| == |ts| && r.width != 0
    ensures forall x :: x in EligibleFrom(ts, b, r, 0) ==> x < |ts|
    ensures EligibleFrom(ts, b, r, 0) == [] ==> Choice(ts, b, r, draw) == None
  {
    EligibleIs(ts, b, r, 0);
  }

  lemma {:induction false} ChosenCanPay(ts: seq<Terms>, b: seq<real>, r: BidRequest, draw: int, found: seq<nat>,
                                        i: nat)
    requires ValidTerms(ts) && |b| == |ts| && r.width != 0
    requires found == EligibleFrom(ts, b, r, 0) && found != [] && forall x :: x in found ==> x < |b|
    requires i == found[Draw.Pick(WeightsOf(b, found), draw)]
    ensures Choice(ts, b, r, draw) == Some(i) && i < |ts| && b[i] >= ts[i].bidPrice
  {
    ChoiceIsEligible(ts, b, r, draw);
  }

  class Manager {
    const campagnes: seq<Campaign>

    ghost function TermsOf(): (ts: seq<Terms>)
      ensures |ts| == |campagnes| && forall i :: 0 <= i < |ts| ==> ts[i] == campagnes[i].terms
    {
      seq(|campagnes|, i requires 0 <= i < |campagnes| => campagnes[i].terms)
    }

    ghost function Budgets(): (b: seq<real>)
      reads campagnes
      ensures |b| == |campagnes| && forall i :: 0 <= i < |b| ==> b[i] == campagnes[i].budget
    {
      seq(|campagnes|, i requires 0 <= i < |campagnes| reads campagnes => campagnes[i].budget)
    }

    ghost predicate Valid()
      reads campagnes
    {
      && (forall i :: 0 <= i < |campagnes| ==> campagnes[i].Valid())
      && (forall i, j :: 0 <= i < j < |campagnes| ==> campagnes[i] != campagnes[j])
    }

    constructor (list: seq<Campaign>)
      requires forall i :: 0 <= i < |list| ==> list[i].Valid()
      requires forall i, j :: 0 <= i < j < |list| ==> list[i] != list[j]
      ensures Valid() && campagnes == list
    {
      campagnes := list;
    }

    /** The scan over all campaigns. */
    method Scan(r: BidRequest) returns (found: seq<nat>)
      requires Valid() && ValidTerms(TermsOf()) && r.width != 0
      ensures found == EligibleFrom(TermsOf(), Budgets(), r, 0)
    {
      found := [];
      ghost var ts, b := TermsOf(), Budgets();
      for k := 0 to |campagnes|
        invariant found + EligibleFrom(ts, b, r, k) == EligibleFrom(ts, b, r, 0)
      {
        var inc := Names(campagnes[k].terms.includes);
        var exc := Names(campagnes[k].terms.excludes);
        var ok := Compatible(campagnes[k], r, inc, exc);
        PieceThenRest(ts, b, r, k, found);
        if ok {
          found := found + [k];
        } else {
          assert found + [] == found;
        }
      }
      assert found + [] == found;
    }

    method RandomSelectCampagne(found: seq<nat>, draw: int) returns (i: nat)
      requires found != [] && 0 <= draw <= 100 && Valid()
      requires forall x :: x in found ==> x < |campagnes|
      ensures i == found[Draw.Pick(WeightsOf(Budgets(), found), draw)]
    {
      if |found| == 1 {
        return found[0];
      }
      var weights: seq<real> := [];
      for k := 0 to |found|
        invariant weights == WeightsOf(Budgets(), found)[..k]
      {
        assert found[k] in found;
        weights := weights + [campagnes[found[k]].budget];
      }
      assert weights == WeightsOf(Budgets(), found);
      forall k | 0 <= k < |weights| ensures weights[k] >= 0.0 {
        assert found[k] in found;
      }
      var k := Draw.Select(weights, draw);
      i := found[k];
    }

    /** Only one campaign changes, so only its entry does. */
    method Charge(i: nat) returns (paid: bool)
      requires Valid() && i < |campagnes|
      modifies campagnes[i]
      ensures Valid() && paid == (old(Budgets())[i] >= campagnes[i].terms.bidPrice)
      ensures Budgets() == if paid then old(Budgets())[i := old(Budgets())[i] - campagnes[i].terms.bidPrice]
        else old(Budgets())
    {
      ghost var before := Budgets();
      paid := campagnes[i].DecrementeBudget();
      forall j | 0 <= j < |campagnes| && j != i ensures campagnes[j].budget == before[j] && campagnes[j].Valid() {
        assert campagnes[j] != campagnes[i];
      }
      assert Budgets()[i] == campagnes[i].budget;
    }

    /** The winner, if there is one, has paid its price, and nobody else anything. */
    ghost predicate Charged(before: seq<real>, winner: Option<nat>)
      reads campagnes
    {
      match winner
      case None => Budgets() == before
      case Some(i) =>
        && i < |campagnes| == |before|
        && Budgets() == before[i := before[i] - campagnes[i].terms.bidPrice]
    }

    method SelectCampagne(r: BidRequest, draw: int) returns (c: Option<nat>)
      requires Valid() && ValidTerms(TermsOf()) && r.width != 0 && 0 <= draw <= 100
      modifies campagnes
      ensures Valid() && c == Choice(TermsOf(), old(Budgets()), r, draw)
      ensures Charged(old(Budgets()), c)
    {
      var found := Scan(r);
      ghost var ts, b := TermsOf(), Budgets();
      FoundIs(ts, b, r, draw);
      if found == [] {
        return None;
      }
      var i := RandomSelectCampagne(found, draw);
      ChosenCanPay(ts, b, r, draw, found, i);
      var paid := Charge(i);
      c := Some(i);
      if !paid {
        assert false;
        c := None;
      }
    }

    /** RtbCtrl: the guard, and 200 with the campaign that pays or 204. */
    method Handle(input: Input, draw: int) returns (winner: Option<nat>)
      requires Valid() && ValidTerms(TermsOf()) && 0 <= draw <= 100
      modifies campagnes
      ensures Valid()
      ensures winner == if input.Read? && Admitted(input.r) then Choice(TermsOf(), old(Budgets()), input.r, draw)
        else None
      ensures Charged(old(Budgets()), winner)
    {
      winner := None;
      if input.Read? {
        var r := input.r;
        if r.id != "" && r.lang != "" && r.bidFloor != 0.0 && r.width != 0 && r.height != 0 {
          winner := SelectCampagne(r, draw);
        }
      }
    }
  }
}
