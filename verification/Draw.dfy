/** Weighted draws: a pick below the total weight falls into one candidate's interval. */
module Draw {

  function Total(weights: seq<nat>): nat {
    if weights == [] then 0 else Total(weights[..|weights| - 1]) + weights[|weights| - 1]
  }

  /** Where a pick falls when the weights are laid end to end. */
  ghost predicate FallsOn(weights: seq<nat>, pick: int, j: nat)
    requires j < |weights|
  {
    Total(weights[..j]) <= pick < Total(weights[..j]) + weights[j]
  }

  lemma {:induction false} TotalMonotone(weights: seq<nat>, i: nat, j: nat)
    requires i <= j <= |weights|
    ensures Total(weights[..i]) <= Total(weights[..j])
    decreases j
  {
    if i < j {
      assert weights[..j][..j - 1] == weights[..j - 1];
      TotalMonotone(weights, i, j - 1);
    }
  }

  lemma {:induction false} FallsOnUnique(weights: seq<nat>, pick: int, i: nat, j: nat)
    requires i < |weights| && j < |weights| && FallsOn(weights, pick, i) && FallsOn(weights, pick, j)
    ensures i == j
  {
    assert weights[..i + 1][..i] == weights[..i] && weights[..j + 1][..j] == weights[..j];
    if i < j {
      TotalMonotone(weights, i + 1, j);
    } else if j < i {
      TotalMonotone(weights, j + 1, i);
    }
  }

  /** Subtract the weights from the pick until it goes negative. */
  method Choose(weights: seq<nat>, pick: nat) returns (chosen: nat)
    requires pick < Total(weights)
    ensures chosen < |weights| && FallsOn(weights, pick, chosen)
  {
    assert weights[..|weights|] == weights;
    var left: int := pick;
    chosen := 0;
    for j := 0 to |weights|
      invariant left == pick - Total(weights[..j]) && left >= 0
    {
      assert weights[..j + 1][..j] == weights[..j];
      left := left - weights[j];
      if left < 0 {
        chosen := j;
        return;
      }
    }
    assert false;
  }

  ghost function Interval(a: int, b: int): (s: set<int>)
    requires a <= b
    ensures |s| == b - a && forall p :: p in s <==> a <= p < b
    decreases b - a
  {
    if a == b then {} else Interval(a, b - 1) + {b - 1}
  }

  /** The picks among all possible ones that choose candidate j. */
  ghost function PicksFor(weights: seq<nat>, j: nat): set<int>
    requires j < |weights|
  {
    set p: int | 0 <= p < Total(weights) && FallsOn(weights, p, j)
  }

  /** Draws are exactly proportional: of the Total(weights) equally likely picks, candidate j is
      chosen by exactly weights[j]. */
  lemma {:induction false} DrawsAreProportional(weights: seq<nat>, j: nat)
    requires j < |weights|
    ensures |PicksFor(weights, j)| == weights[j]
  {
    var a := Total(weights[..j]);
    assert weights[..j + 1][..j] == weights[..j];
    TotalMonotone(weights, j + 1, |weights|);
    assert weights[..|weights|] == weights;
    assert PicksFor(weights, j) == Interval(a, a + weights[j]);
  }
}
