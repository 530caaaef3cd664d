/**
 Sharing an amount over weighted lines without losing the rounding remainder:
 every share is rounded down and the last line takes what is left.
 */
module Allocation {
  function Sum(s: seq<int>): int {
    if s == [] then 0 else Sum(s[..|s| - 1]) + s[|s| - 1]
  }

  function FloorShares(total: int, weights: seq<int>, weightSum: int): (r: seq<int>)
    requires weightSum > 0
    ensures |r| == |weights|
  {
    seq(|weights|, i requires 0 <= i < |weights| => total * weights[i] / weightSum)
  }

  function Allocate(total: int, weights: seq<int>): (shares: seq<int>)
    ensures |shares| == |weights|
  {
    var weightSum := Sum(weights);
    if total <= 0 || weightSum <= 0 then seq(|weights|, _ => 0)
    else
      var floors := FloorShares(total, weights, weightSum);
      var remainder := total - Sum(floors);
      if remainder > 0 && |floors| > 0
      then floors[|floors| - 1 := floors[|floors| - 1] + remainder]
      else floors
  }

  method AllocateProportionally(total: int, weights: seq<int>) returns (result: seq<int>)
    ensures result == Allocate(total, weights)
  {
    var weightSum := SumUp(weights);
    if total <= 0 || weightSum <= 0 {
      return seq(|weights|, _ => 0);
    }
    var shares := new int[|weights|](i requires 0 <= i < |weights| => total * weights[i] / weightSum);
    assert shares[..] == FloorShares(total, weights, weightSum);
    var given := SumUp(shares[..]);
    var remainder := total - given;
    if remainder > 0 && shares.Length > 0 {
      shares[shares.Length - 1] := shares[shares.Length - 1] + remainder;
    }
    result := shares[..];
  }

  method SumUp(s: seq<int>) returns (sum: int)
    ensures sum == Sum(s)
  {
    sum := 0;
    for i := 0 to |s|
      invariant sum == Sum(s[..i])
    {
      assert s[..i + 1][..i] == s[..i];
      sum := sum + s[i];
    }
    assert s[..|s|] == s;
  }

  // ---------------------------------------------------------------------
  // Exactness and error bounds
  // ---------------------------------------------------------------------

  lemma SumAppend(s: seq<int>, x: int)
    ensures Sum(s + [x]) == Sum(s) + x
  {
    assert (s + [x])[..|s|] == s;
  }

  /** What rounding down loses on one line, in units of 1 / weightSum. */
  lemma FloorLoss(total: int, w: int, weightSum: int)
    requires weightSum > 0
    ensures 0 <= total * w - weightSum * (total * w / weightSum) <= weightSum - 1
  {
  }

  lemma {:induction false} FloorLossSum(total: int, weights: seq<int>, weightSum: int)
    requires weightSum > 0
    ensures 0 <= total * Sum(weights) - weightSum * Sum(FloorShares(total, weights, weightSum))
              <= |weights| * (weightSum - 1)
  {
    if weights != [] {
      var n := |weights| - 1;
      var init, w := weights[..n], weights[n];
      var floors := FloorShares(total, init, weightSum);
      var q := total * w / weightSum;
      FloorLossSum(total, init, weightSum);
      FloorLoss(total, w, weightSum);
      assert FloorShares(total, weights, weightSum) == floors + [q];
      SumAppend(floors, q);
      LossStep(total, Sum(init), w, weightSum, Sum(floors), q, n);
    }
  }

  lemma LossStep(t: int, a: int, w: int, m: int, f: int, q: int, n: nat)
    requires 0 <= t * a - m * f <= n * (m - 1)
    requires 0 <= t * w - m * q <= m - 1
    ensures 0 <= t * (a + w) - m * (f + q) <= (n + 1) * (m - 1)
  {
    assert t * (a + w) - m * (f + q) == (t * a - m * f) + (t * w - m * q);
    assert (n + 1) * (m - 1) == n * (m - 1) + (m - 1);
  }

  lemma FactorFits(m: int, x: int)
    requires m > 0 && 0 <= m * x
    ensures 0 <= x
  {
  }

  /** Nothing is lost: the shares add up to the total, whatever the weights. */
  lemma SharesAddUp(total: int, weights: seq<int>)
    ensures Sum(Allocate(total, weights)) == if total > 0 && Sum(weights) > 0 then total else 0
  {
    var m := Sum(weights);
    var shares := Allocate(total, weights);
    if total > 0 && m > 0 {
      var floors := FloorShares(total, weights, m);
      FloorLossSum(total, weights, m);
      assert total * m - m * Sum(floors) == m * (total - Sum(floors));
      FactorFits(m, total - Sum(floors));
      var n := |floors| - 1;
      assert floors == floors[..n] + [floors[n]];
      assert shares == floors[..n] + [floors[n] + (total - Sum(floors))];
      SumAppend(floors[..n], floors[n]);
      SumAppend(floors[..n], floors[n] + (total - Sum(floors)));
    } else {
      SumOfZeros(shares);
    }
  }

  lemma {:induction false} SumOfZeros(s: seq<int>)
    requires forall i | 0 <= i < |s| :: s[i] == 0
    ensures Sum(s) == 0
  {
    if s != [] {
      SumOfZeros(s[..|s| - 1]);
    }
  }

  /** `share` is the exact share `total * w / m`, rounded down. */
  predicate RoundedDown(total: int, w: int, m: int, share: int) {
    0 <= share && m * share <= total * w < m * share + m
  }

  /** The last share, between its exact value and less than one unit more for each other line. */
  predicate RoundedUp(total: int, w: int, m: int, share: int, others: int) {
    0 <= share && 0 <= m * share - total * w <= others * (m - 1)
  }

  /**
   The error bound. Every line but the last gets its exact share rounded down;
   the last is never short-changed and is over its exact share by less than one
   unit for each other line.
   */
  lemma AllocationBounds(total: int, weights: seq<int>)
    requires total > 0 && Sum(weights) > 0 && forall w <- weights :: w >= 0
    ensures var m := Sum(weights); var r := Allocate(total, weights); var n := |weights|;
            && n > 0
            && (forall i | 0 <= i < n - 1 :: RoundedDown(total, weights[i], m, r[i]))
            && RoundedUp(total, weights[n - 1], m, r[n - 1], n - 1)
  {
    forall i | 0 <= i < |weights| - 1
      ensures RoundedDown(total, weights[i], Sum(weights), Allocate(total, weights)[i])
    {
      assert weights[i] in weights;
      EarlyShare(total, weights, i);
    }
    LastIsRoundedUp(total, weights);
  }

  lemma {:induction false} EarlyShare(total: int, weights: seq<int>, i: nat)
    requires total > 0 && Sum(weights) > 0 && i < |weights| - 1 && weights[i] >= 0
    ensures RoundedDown(total, weights[i], Sum(weights), Allocate(total, weights)[i])
  {
    FloorShare(total, weights[i], Sum(weights));
  }

  lemma LastIsRoundedUp(total: int, weights: seq<int>)
    requires total > 0 && Sum(weights) > 0 && forall w <- weights :: w >= 0
    ensures var n := |weights|;
            n > 0 && RoundedUp(total, weights[n - 1], Sum(weights), Allocate(total, weights)[n - 1], n - 1)
  {
    AllocationLast(total, weights);
    var n := |weights|;
    assert weights[n - 1] in weights;
    NonNegativeProduct(total, weights[n - 1]);
    FactorFits(Sum(weights), Allocate(total, weights)[n - 1]);
  }

  lemma AllocationLast(total: int, weights: seq<int>)
    requires total > 0 && Sum(weights) > 0
    ensures var m := Sum(weights); var r := Allocate(total, weights); var n := |weights|;
            n > 0 && 0 <= m * r[n - 1] - total * weights[n - 1] <= (n - 1) * (m - 1)
  {
    var m, r, n := Sum(weights), Allocate(total, weights), |weights|;
    var init := weights[..n - 1];
    var floors := FloorShares(total, weights, m);
    SharesAddUp(total, weights);
    FloorLossSum(total, init, m);
    assert FloorShares(total, init, m) == floors[..n - 1] == r[..n - 1];
    LastShare(total, m, Sum(init), weights[n - 1], Sum(floors[..n - 1]), r[n - 1], n - 1);
  }

  lemma FloorOf(x: int, m: int)
    requires x >= 0 && m > 0
    ensures 0 <= x / m && m * (x / m) <= x < m * (x / m) + m
  {
  }

  lemma FloorShare(t: int, w: int, m: int)
    requires t > 0 && w >= 0 && m > 0
    ensures RoundedDown(t, w, m, t * w / m)
  {
    NonNegativeProduct(t, w);
    var x := t * w;
    FloorOf(x, m);
  }

  lemma NonNegativeProduct(a: int, b: int)
    requires a >= 0 && b >= 0
    ensures a * b >= 0
  {
  }

  lemma LastShare(t: int, m: int, a: int, w: int, f: int, last: int, n: nat)
    requires a + w == m && f + last == t
    requires 0 <= t * a - m * f <= n * (m - 1)
    ensures 0 <= m * last - t * w <= n * (m - 1)
  {
    assert m * last == m * t - m * f;
    assert t * w == t * m - t * a;
  }

  /** The remainder can push the last share above its own line: here a free line gets 2. */
  lemma LastShareMayExceedItsLine()
    ensures Allocate(2, [1, 1, 1, 0]) == [0, 0, 0, 2]
  {
    var ws := [1, 1, 1, 0];
    ThreeUnits();
    var floors := FloorShares(2, ws, 3);
    assert floors == [0, 0, 0, 0];
    SumOfZeros(floors);
  }

  lemma ThreeUnits()
    ensures Sum([1, 1, 1, 0]) == 3
  {
    SumAppend([], 1);
    SumAppend([1], 1);
    SumAppend([1, 1], 1);
    SumAppend([1, 1, 1], 0);
    assert [] + [1] == [1] && [1] + [1] == [1, 1] && [1, 1] + [1] == [1, 1, 1] && [1, 1, 1] + [0] == [1, 1, 1, 0];
  }
}
