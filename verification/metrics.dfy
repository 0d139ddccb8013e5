/** The competitive ratio of metrics.py: the fleet's total step count over the
    sum of each agent's distance to its nearest customer.

    Euclidean distances are square roots of whole numbers, so the ratio is
    kept symbolic: the model computes the squared nearest distances exactly
    and leaves the square roots and the division to the reader of the
    result. A sum of square roots of naturals is positive exactly when one of
    the naturals is, which is the test `optimal > 0` makes. */
module Metrics {
  import opened Geometry

  /** What `competitive_ratio` returns: `Steps(total)` when no customer is
      left, `Infinite` for `float('inf')`, and `Quotient(total, nearest)` for
      `total / (sqrt(nearest[0]) + ... + sqrt(nearest[n-1]))`. */
  datatype Ratio = Steps(total: nat) | Infinite | Quotient(total: nat, nearest: seq<nat>)

  /** Python's `sum`, adding from the left. */
  function Sum(xs: seq<nat>): (r: nat)
    ensures forall k :: 0 <= k < |xs| ==> xs[k] <= r
  {
    if xs == [] then 0 else Sum(xs[..|xs| - 1]) + xs[|xs| - 1]
  }

  /** A sum of naturals is positive exactly when one of them is. */
  lemma {:induction false} SumPositive(xs: seq<nat>)
    ensures Sum(xs) > 0 <==> exists k :: 0 <= k < |xs| && xs[k] > 0
  {
    if xs != [] {
      var front := xs[..|xs| - 1];
      SumPositive(front);
      if exists k :: 0 <= k < |front| && front[k] > 0 {
        var k :| 0 <= k < |front| && front[k] > 0;
        assert xs[k] > 0;
      }
      if exists k :: 0 <= k < |xs| && xs[k] > 0 {
        var k :| 0 <= k < |xs| && xs[k] > 0;
        if k < |front| {
          assert front[k] > 0;
        }
      }
    }
  }

  /** One more step by agent `k` adds exactly one to the total. */
  lemma {:induction false} SumStep(xs: seq<nat>, k: nat)
    requires k < |xs|
    ensures Sum(xs[k := xs[k] + 1]) == Sum(xs) + 1
  {
    var ys := xs[k := xs[k] + 1];
    var n := |xs| - 1;
    if k < n {
      assert ys[..n] == xs[..n][k := xs[k] + 1];
      SumStep(xs[..n], k);
    } else {
      assert ys[..n] == xs[..n];
    }
  }

  /** `min(distance.euclidean(p, c) for c in cs)`, squared: the square root is
      monotone, so the nearest customer is the one at the least squared
      distance. */
  function NearestSq(p: Pos, cs: seq<Pos>): (r: nat)
    requires cs != []
    ensures exists i :: 0 <= i < |cs| && r == DistSq(p, cs[i])
    ensures forall i :: 0 <= i < |cs| ==> r <= DistSq(p, cs[i])
  {
    if |cs| == 1 then DistSq(p, cs[0])
    else
      var front := cs[..|cs| - 1];
      var m := NearestSq(p, front);
      assert forall i :: 0 <= i < |front| ==> front[i] == cs[i];
      Min(m, DistSq(p, cs[|cs| - 1]))
  }

  /** An agent is at squared distance zero from its nearest customer exactly
      when it sits on one. */
  lemma NearestZero(p: Pos, cs: seq<Pos>)
    requires cs != []
    ensures NearestSq(p, cs) == 0 <==> exists i :: 0 <= i < |cs| && cs[i] == p
  {
    var i :| 0 <= i < |cs| && NearestSq(p, cs) == DistSq(p, cs[i]);
    DistSqBounds(p, cs[i], 0);
    if exists l :: 0 <= l < |cs| && cs[l] == p {
      var l :| 0 <= l < |cs| && cs[l] == p;
      DistSqBounds(p, cs[l], 0);
    }
  }

  /** The squared nearest-customer distance of every agent, in list order. */
  function Nearest(ps: seq<Pos>, cs: seq<Pos>): (r: seq<nat>)
    requires cs != []
    ensures |r| == |ps|
    ensures forall k :: 0 <= k < |ps| ==> r[k] == NearestSq(ps[k], cs)
  {
    seq(|ps|, k requires 0 <= k < |ps| => NearestSq(ps[k], cs))
  }

  /** `competitive_ratio(agents, env)` for agents with step counters `steps`
      and positions `ps` and the customers `cs`. */
  function CompetitiveRatio(steps: seq<nat>, ps: seq<Pos>, cs: seq<Pos>): (r: Ratio)
    requires |steps| == |ps|
    ensures r.Steps? <==> cs == []
    ensures r.Steps? || r.Quotient? ==> r.total == Sum(steps)
    ensures r.Quotient? ==> |r.nearest| == |ps| && exists k :: 0 <= k < |ps| && r.nearest[k] > 0
    ensures r.Quotient? ==> forall k :: 0 <= k < |ps| ==>
              && (exists i :: 0 <= i < |cs| && r.nearest[k] == DistSq(ps[k], cs[i]))
              && (forall i :: 0 <= i < |cs| ==> r.nearest[k] <= DistSq(ps[k], cs[i]))
  {
    if cs == [] then Steps(Sum(steps))
    else
      var nearest := Nearest(ps, cs);
      SumPositive(nearest);
      if Sum(nearest) > 0 then Quotient(Sum(steps), nearest) else Infinite
  }

  /** The ratio is infinite exactly when customers are left and every agent
      sits on one of them. */
  lemma InfiniteIffAllOnCustomers(steps: seq<nat>, ps: seq<Pos>, cs: seq<Pos>)
    requires |steps| == |ps|
    ensures CompetitiveRatio(steps, ps, cs).Infinite? <==>
            cs != [] && forall k :: 0 <= k < |ps| ==> exists i :: 0 <= i < |cs| && cs[i] == ps[k]
  {
    if cs != [] {
      var nearest := Nearest(ps, cs);
      SumPositive(nearest);
      forall k | 0 <= k < |ps|
        ensures nearest[k] == 0 <==> exists i :: 0 <= i < |cs| && cs[i] == ps[k]
      {
        NearestZero(ps[k], cs);
      }
    }
  }
}
