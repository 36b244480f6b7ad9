/** RandomSelectCampagne: a draw among campaigns, weighted by their budgets. */
module Draw {

  function Sum(b: seq<real>, n: nat): real
    requires n <= |b|
  {
    if n == 0 then 0.0 else Sum(b, n - 1) + b[n - 1]
  }

  /** The total as computed: a float added to an int, and cut off after each campaign. */
  function Total(b: seq<real>, n: nat): int
    requires n <= |b|
  {
    if n == 0 then 0 else (Total(b, n - 1) as real + b[n - 1]).Floor
  }

  predicate Budgets(b: seq<real>) {
    b != [] && forall i :: 0 <= i < |b| ==> b[i] >= 0.0
  }

  function Weight(b: seq<real>, i: nat): real
    requires i < |b| && Total(b, |b|) >= 1
  {
    b[i] / Total(b, |b|) as real * 100.0
  }

  /** The share of the campaigns before the `i`-th, in per cent of the total as computed. */
  function Before(b: seq<real>, i: nat): real
    requires i <= |b| && Total(b, |b|) >= 1
  {
    if i == 0 then 0.0 else Before(b, i - 1) + Weight(b, i - 1)
  }

  /** The draw `d` falls to the `i`-th campaign. */
  predicate Falls(b: seq<real>, d: int, i: nat)
    requires i < |b| && Total(b, |b|) >= 1
  {
    Before(b, i) <= d as real <= Before(b, i + 1)
  }

  /**
   The loop.  With a total of 0 its quotients are infinite or not numbers: the first campaign is taken,
   either because any draw is at most infinity or because no comparison holds.
   */
  method Select(b: seq<real>, d: int) returns (k: nat)
    requires Budgets(b) && 0 <= d <= 100
    ensures k < |b|
    ensures k == Pick(b, d)
    ensures |b| > 1 && Total(b, |b|) >= 1 ==> Falls(b, d, k) && forall i :: 0 <= i < k ==> !Falls(b, d, i)
  {
    k := 0;
    if |b| == 1 {
      return;
    }
    var total := 0;
    for i := 0 to |b|
      invariant total == Total(b, i)
    {
      total := (total as real + b[i]).Floor;
    }
    TotalBounds(b, |b|);
    if total == 0 {
      return;
    }
    var before := 0.0;
    for i := 0 to |b|
      invariant before == Before(b, i)
      invariant forall j :: 0 <= j < i ==> !Falls(b, d, j)
    {
      var weight := b[i] / total as real * 100.0;
      if before <= d as real <= before + weight {
        SelectedIsWinner(b, d, i);
        return i;
      }
      before := before + weight;
    }
    SomeoneWins(b, d);
  }

  // ---------------------------------------------------------------- the total as computed

  /** Each campaign loses less than one unit of the total. */
  lemma {:induction false} TotalBounds(b: seq<real>, n: nat)
    requires Budgets(b) && n <= |b|
    ensures 0 <= Total(b, n)
    ensures if n == 0 then Total(b, n) as real == Sum(b, n)
      else Sum(b, n) - n as real < Total(b, n) as real <= Sum(b, n)
  {
    if n > 0 {
      TotalBounds(b, n - 1);
    }
  }

  lemma {:induction false} ShareOfSum(b: seq<real>, n: nat)
    requires n <= |b| && Total(b, |b|) >= 1
    ensures Before(b, n) == Sum(b, n) / Total(b, |b|) as real * 100.0
  {
    if n > 0 {
      ShareOfSum(b, n - 1);
      var s := Total(b, |b|) as real;
      Distribute(Sum(b, n - 1), b[n - 1], s);
    }
  }

  lemma Distribute(x: real, y: real, s: real)
    requires s > 0.0
    ensures x / s * 100.0 + y / s * 100.0 == (x + y) / s * 100.0
  {
    assert x / s + y / s == (x + y) / s;
  }

  /** The shares add up to at least 100 per cent. */
  lemma SharesReach(b: seq<real>)
    requires Budgets(b) && Total(b, |b|) >= 1
    ensures Before(b, |b|) >= 100.0
  {
    ShareOfSum(b, |b|);
    TotalBounds(b, |b|);
    AtLeastOne(Sum(b, |b|), Total(b, |b|) as real);
  }

  lemma AtLeastOne(x: real, s: real)
    requires x >= s > 0.0
    ensures x / s * 100.0 >= 100.0
  {
    assert x / s >= 1.0;
  }

  lemma WeightPositive(b: seq<real>, i: nat)
    requires Budgets(b) && i < |b| && Total(b, |b|) >= 1
    ensures Weight(b, i) >= 0.0
  {
    assert b[i] / Total(b, |b|) as real >= 0.0;
  }

  lemma {:induction false} BeforeGrows(b: seq<real>, i: nat, j: nat)
    requires Budgets(b) && i <= j <= |b| && Total(b, |b|) >= 1
    ensures 0.0 <= Before(b, i) <= Before(b, j)
  {
    if j > i {
      BeforeGrows(b, i, j - 1);
      WeightPositive(b, j - 1);
    } else if i > 0 {
      BeforeGrows(b, i - 1, j - 1);
      WeightPositive(b, i - 1);
    }
  }

  // ---------------------------------------------------------------- who wins

  predicate Reached(b: seq<real>, d: int, i: nat)
    requires i < |b| && Total(b, |b|) >= 1
  {
    d as real <= Before(b, i + 1)
  }

  /** The first campaign whose shares so far reach the draw. */
  function Winner(b: seq<real>, d: int, i: nat): (k: nat)
    requires i < |b| && Total(b, |b|) >= 1
    ensures i <= k < |b|
    ensures forall j :: i <= j < k ==> !Reached(b, d, j)
    ensures k < |b| - 1 ==> Reached(b, d, k)
    decreases |b| - i
  {
    if i == |b| - 1 || Reached(b, d, i) then i else Winner(b, d, i + 1)
  }

  function Pick(b: seq<real>, d: int): (k: nat)
    requires b != []
    ensures k < |b|
  {
    if |b| == 1 || Total(b, |b|) < 1 then 0 else Winner(b, d, 0)
  }

  /** Every draw falls to someone: the loop always breaks. */
  lemma SomeoneWins(b: seq<real>, d: int)
    requires Budgets(b) && Total(b, |b|) >= 1 && 0 <= d <= 100
    ensures var k := Winner(b, d, 0); Falls(b, d, k) && forall i :: 0 <= i < k ==> !Falls(b, d, i)
  {
    var k := Winner(b, d, 0);
    SharesReach(b);
    assert k == |b| - 1 ==> Before(b, k + 1) >= 100.0;
    if k > 0 {
      assert !Reached(b, d, k - 1);
    }
    forall i | 0 <= i < k ensures !Falls(b, d, i) {
      assert !Reached(b, d, i);
    }
  }

  /** The campaign selected is the first whose cumulative share reaches the draw. */
  lemma SelectedIsWinner(b: seq<real>, d: int, k: nat)
    requires Budgets(b) && Total(b, |b|) >= 1 && 0 <= d <= 100
    requires k < |b| && Falls(b, d, k) && forall i :: 0 <= i < k ==> !Falls(b, d, i)
    ensures k == Winner(b, d, 0)
  {
    SomeoneWins(b, d);
  }

  // ---------------------------------------------------------------- how many draws each campaign owns

  /** The last of the draws 0 to 100 that lies within the first `i` shares. */
  function LastDraw(b: seq<real>, i: nat): int
    requires i <= |b| && Total(b, |b|) >= 1
  {
    if Before(b, i) >= 100.0 then 100 else Before(b, i).Floor
  }

  lemma WithinShare(b: seq<real>, i: nat, d: int)
    requires i <= |b| && Total(b, |b|) >= 1 && 0 <= d <= 100
    ensures d as real <= Before(b, i) <==> d <= LastDraw(b, i)
  {
  }

  /** A draw falls to a campaign exactly when it is behind the last draw of those before it and within its own. */
  lemma Owner(b: seq<real>, d: int, i: nat)
    requires Budgets(b) && Total(b, |b|) >= 1 && 0 <= d <= 100 && i < |b|
    ensures Winner(b, d, 0) == i <==> (i == 0 || LastDraw(b, i) < d) && d <= LastDraw(b, i + 1)
  {
    var k := Winner(b, d, 0);
    SharesReach(b);
    WithinShare(b, i, d);
    WithinShare(b, i + 1, d);
    if k == i {
      assert i > 0 ==> !Reached(b, d, i - 1);
    } else if k < i {
      BeforeGrows(b, k + 1, i);
    } else {
      assert !Reached(b, d, i);
    }
  }

  function Draws(b: seq<real>, i: nat): set<int>
    requires Budgets(b) && Total(b, |b|) >= 1 && i < |b|
  {
    set d: int | 0 <= d <= 100 && Winner(b, d, 0) == i
  }

  function Interval(lo: int, hi: int): (s: set<int>)
    requires lo <= hi + 1
    ensures forall d :: d in s <==> lo <= d <= hi
    ensures |s| == hi - lo + 1
    decreases hi - lo
  {
    if lo > hi then {} else {lo} + Interval(lo + 1, hi)
  }

  /** Of the 101 draws the campaign owns as many as its share, cut off at both ends; the first one more. */
  lemma DrawsOwned(b: seq<real>, i: nat)
    requires Budgets(b) && Total(b, |b|) >= 1 && i < |b|
    ensures |Draws(b, i)| == LastDraw(b, i + 1) - (if i == 0 then -1 else LastDraw(b, i))
  {
    var lo, hi := if i == 0 then 0 else LastDraw(b, i) + 1, LastDraw(b, i + 1);
    BeforeGrows(b, i, i + 1);
    forall d | 0 <= d <= 100 ensures Winner(b, d, 0) == i <==> lo <= d <= hi {
      Owner(b, d, i);
    }
    assert Draws(b, i) == Interval(lo, hi);
  }

  /** A campaign with nothing left can only win if it is the first, and then it owns exactly the draw 0. */
  lemma EmptyBudget(b: seq<real>, i: nat)
    requires Budgets(b) && Total(b, |b|) >= 1 && i < |b| && b[i] == 0.0
    ensures |Draws(b, i)| == if i == 0 then 1 else 0
  {
    DrawsOwned(b, i);
    assert b[i] / Total(b, |b|) as real == 0.0;
    assert Weight(b, i) == 0.0;
    assert Before(b, i + 1) == Before(b, i);
  }

  // ---------------------------------------------------------------- nothing but small budgets

  lemma {:induction false} TotalGrows(b: seq<real>, i: nat, n: nat)
    requires Budgets(b) && i < n <= |b| && b[i] >= 1.0
    ensures Total(b, n) >= 1
  {
    TotalBounds(b, n - 1);
    if i < n - 1 {
      TotalGrows(b, i, n - 1);
    }
  }

  lemma {:induction false} TotalStaysZero(b: seq<real>, n: nat)
    requires Budgets(b) && n <= |b| && forall i :: 0 <= i < n ==> b[i] < 1.0
    ensures Total(b, n) == 0
  {
    if n > 0 {
      TotalStaysZero(b, n - 1);
    }
  }

  /**
   However much they have together: the total as computed is 0 exactly when each campaign has less than 1
   left, and then every draw goes to the first.
   */
  lemma {:induction false} SmallBudgets(b: seq<real>, d: int)
    requires Budgets(b)
    ensures Total(b, |b|) == 0 <==> forall i :: 0 <= i < |b| ==> b[i] < 1.0
    ensures (forall i :: 0 <= i < |b| ==> b[i] < 1.0) ==> Pick(b, d) == 0
  {
    if forall i :: 0 <= i < |b| ==> b[i] < 1.0 {
      TotalStaysZero(b, |b|);
    } else {
      var i :| 0 <= i < |b| && !(b[i] < 1.0);
      TotalGrows(b, i, |b|);
    }
  }
}
