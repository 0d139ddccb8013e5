/** The consensus pass of consensus.py. Every agent in turn assembles a
    `shared` dictionary from the reports of the other agents within
    communication range, then, for every shared customer id, polls the
    beliefs of the whole fleet and overwrites its own belief with their
    truncated mean when enough of them lie close to that mean. Agents are
    visited in list order and updated in place, so a later agent sees the
    fused beliefs of earlier ones. */
module Consensus {
  import opened Wrappers
  import opened Geometry
  import opened Knowledge
  import opened Agents

  /** Agents exchange reports when their distance is at most 5. */
  const CommunicationRangeSq := 25
  /** A polled belief supports the mean when its distance to it is below 3. */
  const AgreementRadiusSq := 9

  predicate Neighbours(p: Pos, q: Pos)
  {
    DistSq(p, q) <= CommunicationRangeSq
  }

  /** Every belief of every agent lies on the grid. */
  ghost predicate OnGrid(ks: seq<Dict>, size: int)
  {
    forall k :: 0 <= k < |ks| ==> BeliefsOnGrid(ks[k], size)
  }

  // ---------------------------------------------------------------------------
  // The poll and the agreement test

  /** `positions`: the coordinate each agent holds for `cid`, in agent order;
      agents without a belief about `cid` contribute nothing. */
  function Poll(ks: seq<Dict>, cid: nat): (r: seq<Pos>)
    ensures |r| <= |ks|
  {
    if ks == [] then []
    else
      var last := ks[|ks| - 1];
      Poll(ks[..|ks| - 1], cid) + (if cid in last.at then [last.at[cid]] else [])
  }

  /** Every polled coordinate is some agent's belief about `cid`. */
  lemma {:induction false} PollSound(ks: seq<Dict>, cid: nat, p: Pos)
    requires p in Poll(ks, cid)
    ensures exists k :: 0 <= k < |ks| && cid in ks[k].at && ks[k].at[cid] == p
  {
    var front := ks[..|ks| - 1];
    if p in Poll(front, cid) {
      PollSound(front, cid, p);
      var k :| 0 <= k < |front| && cid in front[k].at && front[k].at[cid] == p;
      assert ks[k] == front[k];
    }
  }

  /** Every agent's belief about `cid` is polled. */
  lemma {:induction false} PollComplete(ks: seq<Dict>, cid: nat, k: nat)
    requires k < |ks| && cid in ks[k].at
    ensures ks[k].at[cid] in Poll(ks, cid)
  {
    var front := ks[..|ks| - 1];
    if k < |front| {
      assert ks[k] == front[k];
      PollComplete(front, cid, k);
    }
  }

  /** The poll only depends on the beliefs about `cid`. */
  lemma {:induction false} PollLocal(ks: seq<Dict>, ks': seq<Dict>, cid: nat)
    requires |ks| == |ks'|
    requires forall k :: 0 <= k < |ks| ==> (cid in ks[k].at <==> cid in ks'[k].at)
    requires forall k :: 0 <= k < |ks| && cid in ks[k].at ==> ks[k].at[cid] == ks'[k].at[cid]
    ensures Poll(ks, cid) == Poll(ks', cid)
  {
    if ks != [] {
      PollLocal(ks[..|ks| - 1], ks'[..|ks| - 1], cid);
    }
  }

  /** The agents whose belief about `cid` is `p`. */
  ghost function Holders(ks: seq<Dict>, cid: nat, p: Pos): set<nat>
  {
    set k | 0 <= k < |ks| && cid in ks[k].at && ks[k].at[cid] == p
  }

  /** The agents holding some belief about `cid`. */
  ghost function Knowers(ks: seq<Dict>, cid: nat): set<nat>
  {
    set k | 0 <= k < |ks| && cid in ks[k].at
  }

  /** Every agent believing `p` about `cid` contributes one copy of `p` to the
      poll, so each coordinate occurs exactly as often as agents hold it. */
  lemma {:induction false} PollCount(ks: seq<Dict>, cid: nat, p: Pos)
    ensures multiset(Poll(ks, cid))[p] == |Holders(ks, cid, p)|
  {
    if ks != [] {
      var n := |ks| - 1;
      var front := ks[..n];
      PollCount(front, cid, p);
      var hit := cid in ks[n].at && ks[n].at[cid] == p;
      assert multiset(Poll(ks, cid))[p] == multiset(Poll(front, cid))[p] + (if hit then 1 else 0);
      HoldersStep(ks, cid, p);
    }
  }

  /** Agent `|ks| - 1` joins the holders of `p` exactly when it believes `p`. */
  lemma HoldersStep(ks: seq<Dict>, cid: nat, p: Pos)
    requires ks != []
    ensures var n := |ks| - 1;
            |Holders(ks, cid, p)| ==
            |Holders(ks[..n], cid, p)| + (if cid in ks[n].at && ks[n].at[cid] == p then 1 else 0)
  {
    var n := |ks| - 1;
    var before, hit := Holders(ks[..n], cid, p), cid in ks[n].at && ks[n].at[cid] == p;
    assert Holders(ks, cid, p) == before + (if hit then {n} else {}) by {
      forall k: nat ensures k in Holders(ks, cid, p) <==> k in before || (hit && k == n) {
        if k < n {
          assert ks[..n][k] == ks[k];
        }
      }
    }
    assert n !in before;
  }

  /** The poll holds exactly one coordinate per agent that believes
      anything about `cid`. */
  lemma {:induction false} PollSize(ks: seq<Dict>, cid: nat)
    ensures |Poll(ks, cid)| == |Knowers(ks, cid)|
  {
    if ks != [] {
      PollSize(ks[..|ks| - 1], cid);
      KnowersStep(ks, cid);
    }
  }

  /** Agent `|ks| - 1` joins the knowers of `cid` exactly when it holds a belief. */
  lemma KnowersStep(ks: seq<Dict>, cid: nat)
    requires ks != []
    ensures var n := |ks| - 1;
            |Knowers(ks, cid)| == |Knowers(ks[..n], cid)| + (if cid in ks[n].at then 1 else 0)
  {
    var n := |ks| - 1;
    var before := Knowers(ks[..n], cid);
    assert Knowers(ks, cid) == before + (if cid in ks[n].at then {n} else {}) by {
      forall k: nat ensures k in Knowers(ks, cid) <==> k in before || (cid in ks[n].at && k == n) {
        if k < n {
          assert ks[..n][k] == ks[k];
        }
      }
    }
    assert n !in before;
  }

  function SumX(ps: seq<Pos>): (r: int)
  {
    if ps == [] then 0 else SumX(ps[..|ps| - 1]) + ps[|ps| - 1].x
  }

  function SumY(ps: seq<Pos>): (r: int)
  {
    if ps == [] then 0 else SumY(ps[..|ps| - 1]) + ps[|ps| - 1].y
  }

  /** `distance.euclidean(p, mean) < 3` for the mean `(sx / m, sy / m)`,
      multiplied through by `m` so that it is exact over the integers. */
  predicate NearMean(p: Pos, sx: int, sy: int, m: int)
  {
    (m * p.x - sx) * (m * p.x - sx) + (m * p.y - sy) * (m * p.y - sy) < AgreementRadiusSq * m * m
  }

  /** The integer test is the real one: with `m` polled beliefs summing to
      `(sx, sy)`, `p` satisfies `NearMean` exactly when its squared
      Euclidean distance to the exact mean `(sx / m, sy / m)` is below 9. */
  lemma NearMeanReal(p: Pos, sx: int, sy: int, m: int)
    requires m > 0
    ensures var dx, dy := p.x as real - sx as real / m as real, p.y as real - sy as real / m as real;
            NearMean(p, sx, sy, m) <==> dx * dx + dy * dy < AgreementRadiusSq as real
  {
    var mr := m as real;
    var dx, dy := p.x as real - sx as real / mr, p.y as real - sy as real / mr;
    assert (m * p.x - sx) as real == mr * dx;
    assert (m * p.y - sy) as real == mr * dy;
    var lhs := (m * p.x - sx) * (m * p.x - sx) + (m * p.y - sy) * (m * p.y - sy);
    assert lhs as real == mr * mr * (dx * dx + dy * dy);
    assert (AgreementRadiusSq * m * m) as real == mr * mr * AgreementRadiusSq as real;
    assert mr * mr > 0.0;
  }

  /** How many of `ps` lie within the agreement radius of the mean `(sx / m, sy / m)`. */
  function CountNear(ps: seq<Pos>, sx: int, sy: int, m: int): (r: nat)
    ensures r <= |ps|
    ensures r == |ps| <==> forall k :: 0 <= k < |ps| ==> NearMean(ps[k], sx, sy, m)
  {
    if ps == [] then 0
    else CountNear(ps[..|ps| - 1], sx, sy, m) + (if NearMean(ps[|ps| - 1], sx, sy, m) then 1 else 0)
  }

  /** `tuple(np.mean(positions, axis=0).astype(int))`: the mean truncated
      toward zero per axis. */
  function Mean(ps: seq<Pos>): (r: Pos)
    requires ps != []
    ensures r.x == Trunc(SumX(ps) as real / |ps| as real)
    ensures r.y == Trunc(SumY(ps) as real / |ps| as real)
  {
    TruncDivReal(SumX(ps), |ps|);
    TruncDivReal(SumY(ps), |ps|);
    Pos(TruncDiv(SumX(ps), |ps|), TruncDiv(SumY(ps), |ps|))
  }

  /** The value fusion writes for a poll in a fleet of `fleet` agents: the
      truncated mean, provided the poll is non-empty and at least
      `fleet / 2` polled beliefs lie near the exact mean; `None` otherwise. */
  function Agreed(ps: seq<Pos>, fleet: nat): (r: Option<Pos>)
    ensures ps == [] ==> r.None?
    ensures r.Some? ==> |ps| >= fleet / 2
  {
    if ps == [] then None
    else if CountNear(ps, SumX(ps), SumY(ps), |ps|) >= fleet / 2 then Some(Mean(ps))
    else None
  }

  lemma {:induction false} SumBounds(ps: seq<Pos>, size: int)
    requires forall k :: 0 <= k < |ps| ==> InGrid(ps[k], size)
    ensures 0 <= SumX(ps) <= |ps| * (size - 1)
    ensures 0 <= SumY(ps) <= |ps| * (size - 1)
  {
    if ps != [] {
      var front := ps[..|ps| - 1];
      assert forall k :: 0 <= k < |front| ==> front[k] == ps[k];
      SumBounds(front, size);
      assert |ps| * (size - 1) == |front| * (size - 1) + (size - 1);
    }
  }

  /** The truncated mean of on-grid beliefs lies on the grid. */
  lemma MeanOnGrid(ps: seq<Pos>, size: int)
    requires ps != []
    requires forall k :: 0 <= k < |ps| ==> InGrid(ps[k], size)
    ensures InGrid(Mean(ps), size)
  {
    SumBounds(ps, size);
    var m := |ps|;
    MulCancel(TruncDiv(SumX(ps), m), size - 1, m);
    MulCancel(TruncDiv(SumY(ps), m), size - 1, m);
  }

  lemma MulCancel(a: int, b: int, m: int)
    requires m > 0 && a * m <= b * m
    ensures a <= b
  {
    assert (a - b) * m <= 0;
  }

  lemma MulLess(a: int, b: int, m: int)
    requires m > 0 && a * m < b * m
    ensures a < b
  {
    assert (a - b) * m < 0;
  }

  lemma {:induction false} UniformSums(ps: seq<Pos>, p: Pos)
    requires forall k :: 0 <= k < |ps| ==> ps[k] == p
    ensures SumX(ps) == |ps| * p.x && SumY(ps) == |ps| * p.y
    ensures CountNear(ps, |ps| * p.x, |ps| * p.y, |ps|) == |ps|
  {
    if ps != [] {
      var front := ps[..|ps| - 1];
      assert forall k :: 0 <= k < |front| ==> front[k] == ps[k];
      UniformSums(front, p);
      UniformNear(ps, p);
    }
  }

  lemma {:induction false} UniformNear(ps: seq<Pos>, p: Pos)
    requires forall k :: 0 <= k < |ps| ==> ps[k] == p
    ensures CountNear(ps, |ps| * p.x, |ps| * p.y, |ps|) == |ps|
  {
    var m := |ps|;
    if m > 0 {
      NearOwnMean(p, m);
      CountAll(ps, m * p.x, m * p.y, m);
    }
  }

  /** A point lies near the mean of `m` copies of itself. */
  lemma NearOwnMean(p: Pos, m: int)
    requires m > 0
    ensures NearMean(p, m * p.x, m * p.y, m)
  {
    assert m * m > 0;
  }

  lemma {:induction false} CountAll(ps: seq<Pos>, sx: int, sy: int, m: int)
    ensures (forall k :: 0 <= k < |ps| ==> NearMean(ps[k], sx, sy, m)) ==> CountNear(ps, sx, sy, m) == |ps|
  {
    if ps != [] {
      var front := ps[..|ps| - 1];
      assert forall k :: 0 <= k < |front| ==> front[k] == ps[k];
      CountAll(front, sx, sy, m);
    }
  }

  /** A unanimous poll with at least `fleet / 2` voices fuses to the common
      belief itself. */
  lemma UnanimousAgreement(ps: seq<Pos>, p: Pos, fleet: nat)
    requires ps != [] && |ps| >= fleet / 2
    requires forall k :: 0 <= k < |ps| ==> ps[k] == p
    ensures Agreed(ps, fleet) == Some(p)
  {
    UniformSums(ps, p);
    var m := |ps|;
    assert TruncDiv(m * p.x, m) == p.x by { TruncExact(p.x, m); }
    assert TruncDiv(m * p.y, m) == p.y by { TruncExact(p.y, m); }
  }

  /** When every agent holds the same belief `p` about `cid`, the poll is
      one copy of `p` per agent. */
  lemma {:induction false} PollUniform(ks: seq<Dict>, cid: nat, p: Pos)
    requires forall k :: 0 <= k < |ks| ==> cid in ks[k].at && ks[k].at[cid] == p
    ensures |Poll(ks, cid)| == |ks|
    ensures forall q :: 0 <= q < |Poll(ks, cid)| ==> Poll(ks, cid)[q] == p
  {
    if ks != [] {
      var front := ks[..|ks| - 1];
      assert forall k :: 0 <= k < |front| ==> front[k] == ks[k];
      PollUniform(front, cid, p);
    }
  }

  /** A fleet that agrees on `p` about `cid` fuses `cid` to `p`. */
  lemma FleetUnanimous(ks: seq<Dict>, cid: nat, p: Pos)
    requires ks != []
    requires forall k :: 0 <= k < |ks| ==> cid in ks[k].at && ks[k].at[cid] == p
    ensures Decision(ks, |ks|)(cid) == Some(p)
  {
    PollUniform(ks, cid, p);
    UnanimousAgreement(Poll(ks, cid), p, |ks|);
  }

  lemma TruncExact(v: int, m: int)
    requires m > 0
    ensures TruncDiv(m * v, m) == v
  {
    var r := TruncDiv(m * v, m);
    assert m * v == v * m;
    if v >= 0 {
      MulCancel(r, v, m);
      MulLess(v, r + 1, m);
    } else {
      MulCancel(v, r, m);
      MulLess(r - 1, v, m);
    }
  }

  // ---------------------------------------------------------------------------
  // One agent's turn

  /** Agent `i` asks agent `j` for its knowledge: `j` is another agent
      within communication range. */
  predicate Asks(ps: seq<Pos>, i: nat, j: nat)
    requires i < |ps| && j < |ps|
  {
    Neighbours(ps[i], ps[j]) && j != i
  }

  /** Agent `j` answers agent `i`'s request with a non-empty report: `i`
      asks it, and its report does not fail. */
  predicate Heard(ps: seq<Pos>, bs: seq<real>, roll: (nat, nat) -> real, i: nat, j: nat)
    requires i < |ps| && j < |ps| == |bs|
  {
    Asks(ps, i, j) && !(bs[j] < LowBattery && roll(i, j) < ReportFailureProbability)
  }

  /** What agent `j` contributes to agent `i`'s `shared` dictionary: the
      entries of its report when it is another agent within communication
      range (none when the report fails), nothing otherwise. */
  function Contribution(ks: seq<Dict>, ps: seq<Pos>, bs: seq<real>, roll: (nat, nat) -> real,
                        i: nat, j: nat): (r: Dict)
    requires AllValid(ks) && |ks| == |ps| == |bs| && i < |ks| && j < |ks|
    ensures r.Valid()
    ensures forall c :: c in r.at <==> Heard(ps, bs, roll, i, j) && c in ks[j].at
    ensures forall c :: c in r.at ==> r.at[c] == ks[j].at[c]
  {
    if Asks(ps, i, j) then Report(ks[j], bs[j], roll(i, j)) else Empty
  }

  /** Agent `i`'s `shared` dictionary after asking agents `0 .. n-1`: their
      contributions merged by `update` in list order. */
  function SharedUpTo(ks: seq<Dict>, ps: seq<Pos>, bs: seq<real>, roll: (nat, nat) -> real,
                      i: nat, n: nat): (r: Dict)
    requires AllValid(ks) && |ks| == |ps| == |bs| && i < |ks| && n <= |ks|
    ensures r.Valid()
    decreases n, 0
  {
    if n == 0 then Empty else SharedAfter(ks, ps, bs, roll, i, n - 1)
  }

  /** Agent `i`'s `shared` dictionary right after agent `j`'s contribution is
      merged into it. */
  function SharedAfter(ks: seq<Dict>, ps: seq<Pos>, bs: seq<real>, roll: (nat, nat) -> real,
                       i: nat, j: nat): (r: Dict)
    requires AllValid(ks) && |ks| == |ps| == |bs| && i < |ks| && j < |ks|
    ensures r.Valid()
    decreases j, 1
  {
    Update(SharedUpTo(ks, ps, bs, roll, i, j), Contribution(ks, ps, bs, roll, i, j))
  }

  /** Agent `i`'s `shared` dictionary once every agent has been asked. */
  function Shared(ks: seq<Dict>, ps: seq<Pos>, bs: seq<real>, roll: (nat, nat) -> real, i: nat): (r: Dict)
    requires AllValid(ks) && |ks| == |ps| == |bs| && i < |ks|
    ensures r.Valid()
  {
    SharedUpTo(ks, ps, bs, roll, i, |ks|)
  }

  /** A customer id is shared with agent `i` exactly when some agent it heard
      from knows it. */
  lemma SharedKeys(ks: seq<Dict>, ps: seq<Pos>, bs: seq<real>, roll: (nat, nat) -> real, i: nat, n: nat)
    requires AllValid(ks) && |ks| == |ps| == |bs| && i < |ks| && n <= |ks|
    ensures forall c :: c in SharedUpTo(ks, ps, bs, roll, i, n).at <==>
              exists j :: 0 <= j < n && Heard(ps, bs, roll, i, j) && c in ks[j].at
  {
    forall c
      ensures c in SharedUpTo(ks, ps, bs, roll, i, n).at <==>
              exists j :: 0 <= j < n && Heard(ps, bs, roll, i, j) && c in ks[j].at
    {
      SharedKey(ks, ps, bs, roll, i, n, c);
      HeldSome(ks, ps, bs, roll, i, n, c);
    }
  }

  /** Some agent among `0 .. n-1` that agent `i` heard from holds `c`. */
  predicate HeldUpTo(ks: seq<Dict>, ps: seq<Pos>, bs: seq<real>, roll: (nat, nat) -> real, i: nat, n: nat, c: nat)
    requires |ks| == |ps| == |bs| && i < |ks| && n <= |ks|
  {
    n > 0 && (HeldUpTo(ks, ps, bs, roll, i, n - 1, c) || (Heard(ps, bs, roll, i, n - 1) && c in ks[n - 1].at))
  }

  lemma {:induction false} SharedKey(ks: seq<Dict>, ps: seq<Pos>, bs: seq<real>, roll: (nat, nat) -> real,
                                     i: nat, n: nat, c: nat)
    requires AllValid(ks) && |ks| == |ps| == |bs| && i < |ks| && n <= |ks|
    ensures c in SharedUpTo(ks, ps, bs, roll, i, n).at <==> HeldUpTo(ks, ps, bs, roll, i, n, c)
  {
    if n > 0 {
      SharedKey(ks, ps, bs, roll, i, n - 1, c);
      UpdateEntry(SharedUpTo(ks, ps, bs, roll, i, n - 1), Contribution(ks, ps, bs, roll, i, n - 1), c);
    }
  }

  lemma {:induction false} HeldSome(ks: seq<Dict>, ps: seq<Pos>, bs: seq<real>, roll: (nat, nat) -> real,
                                    i: nat, n: nat, c: nat)
    requires |ks| == |ps| == |bs| && i < |ks| && n <= |ks|
    ensures HeldUpTo(ks, ps, bs, roll, i, n, c) <==>
            exists j :: 0 <= j < n && Heard(ps, bs, roll, i, j) && c in ks[j].at
  {
    if n > 0 {
      HeldSome(ks, ps, bs, roll, i, n - 1, c);
      if exists j :: 0 <= j < n && Heard(ps, bs, roll, i, j) && c in ks[j].at {
        var j :| 0 <= j < n && Heard(ps, bs, roll, i, j) && c in ks[j].at;
        if j < n - 1 {
          assert exists l :: 0 <= l < n - 1 && Heard(ps, bs, roll, i, l) && c in ks[l].at;
        }
      }
    }
  }

  /** The coordinate shared for an id is the one held by the last agent
      heard from that knows it. */
  lemma {:induction false} SharedValue(ks: seq<Dict>, ps: seq<Pos>, bs: seq<real>, roll: (nat, nat) -> real,
                                       i: nat, n: nat, c: nat, j: nat)
    requires AllValid(ks) && |ks| == |ps| == |bs| && i < |ks| && j < n <= |ks|
    requires Heard(ps, bs, roll, i, j) && c in ks[j].at
    requires forall l :: j < l < n && Heard(ps, bs, roll, i, l) ==> c !in ks[l].at
    ensures var shared := SharedUpTo(ks, ps, bs, roll, i, n);
      c in shared.at && shared.at[c] == ks[j].at[c]
  {
    UpdateEntry(SharedUpTo(ks, ps, bs, roll, i, n - 1), Contribution(ks, ps, bs, roll, i, n - 1), c);
    if j < n - 1 {
      SharedValue(ks, ps, bs, roll, i, n - 1, c, j);
    }
  }

  /** The fusion decision for each customer id: the value the fleet's poll
      agrees on, if any. */
  function Decision(ks: seq<Dict>, fleet: nat): (r: nat -> Option<Pos>)
    ensures forall c :: r(c).Some? ==> Poll(ks, c) != [] && |Poll(ks, c)| >= fleet / 2
  {
    (c: nat) => Agreed(Poll(ks, c), fleet)
  }

  /** A dictionary after fusing the ids `cids[..n]` one at a time: an id is
      overwritten with the value `decide` gives it, and left alone when
      `decide` gives none. */
  function FusedUpTo(d: Dict, cids: seq<nat>, n: nat, decide: nat -> Option<Pos>): (r: Dict)
    requires d.Valid() && n <= |cids|
    ensures r.Valid()
  {
    if n == 0 then d
    else
      var prev := FusedUpTo(d, cids, n - 1, decide);
      var a := decide(cids[n - 1]);
      if a.Some? then Put(prev, cids[n - 1], a.value) else prev
  }

  /** Fusing `cids[n - 1]` leaves the belief about any other id as it was. */
  lemma FusedOther(d: Dict, cids: seq<nat>, n: nat, decide: nat -> Option<Pos>, c: nat)
    requires d.Valid() && 0 < n <= |cids| && cids[n - 1] != c
    ensures var r, prev := FusedUpTo(d, cids, n, decide), FusedUpTo(d, cids, n - 1, decide);
      && (c in r.at <==> c in prev.at)
      && (c in prev.at ==> r.at[c] == prev.at[c])
  {
  }

  /** An id outside `cids[..n]` keeps its belief, present or absent. */
  lemma {:induction false} FusedKept(d: Dict, cids: seq<nat>, n: nat, decide: nat -> Option<Pos>, c: nat)
    requires d.Valid() && n <= |cids|
    requires forall t :: 0 <= t < n ==> cids[t] != c
    ensures var r := FusedUpTo(d, cids, n, decide);
      && (c in r.at <==> c in d.at)
      && (c in d.at ==> r.at[c] == d.at[c])
  {
    if n > 0 {
      FusedKept(d, cids, n - 1, decide, c);
      FusedOther(d, cids, n, decide, c);
    }
  }

  /** With distinct ids, the id `cids[t]` receives the value decided for it
      when there is one, and keeps its belief, present or absent, otherwise. */
  lemma {:induction false} FusedWritten(d: Dict, cids: seq<nat>, n: nat, decide: nat -> Option<Pos>, t: nat)
    requires d.Valid() && t < n <= |cids|
    requires forall s, u :: 0 <= s < u < |cids| ==> cids[s] != cids[u]
    ensures var r, c := FusedUpTo(d, cids, n, decide), cids[t];
      && (decide(c).Some? ==> c in r.at && r.at[c] == decide(c).value)
      && (decide(c).None? ==> (c in r.at <==> c in d.at) && (c in d.at ==> r.at[c] == d.at[c]))
  {
    if t == n - 1 {
      FusedKept(d, cids, n - 1, decide, cids[t]);
    } else {
      FusedWritten(d, cids, n - 1, decide, t);
      FusedOther(d, cids, n, decide, cids[t]);
    }
  }

  /** The poll `update_knowledge` takes for the next id, over the fleet's current
      knowledge (agent `i`'s entry fused so far), equals the poll at the
      start of the turn: with distinct ids no earlier step touched that id. */
  lemma LivePoll(ks: seq<Dict>, i: nat, cids: seq<nat>, n: nat, decide: nat -> Option<Pos>)
    requires i < |ks| && ks[i].Valid() && n < |cids|
    requires forall s, u :: 0 <= s < u < |cids| ==> cids[s] != cids[u]
    ensures Poll(ks[i := FusedUpTo(ks[i], cids, n, decide)], cids[n]) == Poll(ks, cids[n])
  {
    FusedKept(ks[i], cids, n, decide, cids[n]);
    PollLocal(ks, ks[i := FusedUpTo(ks[i], cids, n, decide)], cids[n]);
  }

  /** One agent's turn: the fleet after agent `i` fuses its shared ids. */
  function TakeTurn(ks: seq<Dict>, ps: seq<Pos>, bs: seq<real>, roll: (nat, nat) -> real, i: nat): (r: seq<Dict>)
    requires AllValid(ks) && |ks| == |ps| == |bs| && i < |ks|
    ensures |r| == |ks| && AllValid(r)
  {
    var shared := Shared(ks, ps, bs, roll, i);
    ks[i := FusedUpTo(ks[i], shared.keys, |shared.keys|, Decision(ks, |ks|))]
  }

  /** In its turn agent `i` never loses a belief: each one is kept or
      replaced by an agreed value. */
  lemma TurnKeeps(ks: seq<Dict>, ps: seq<Pos>, bs: seq<real>, roll: (nat, nat) -> real, i: nat, k: nat, c: nat)
    requires AllValid(ks) && |ks| == |ps| == |bs| && i < |ks| && k < |ks|
    requires c in ks[k].at
    ensures c in TakeTurn(ks, ps, bs, roll, i)[k].at
  {
    var shared := Shared(ks, ps, bs, roll, i);
    if k == i {
      if t :| 0 <= t < |shared.keys| && shared.keys[t] == c {
        FusedWritten(ks[i], shared.keys, |shared.keys|, Decision(ks, |ks|), t);
      } else {
        FusedKept(ks[i], shared.keys, |shared.keys|, Decision(ks, |ks|), c);
      }
    }
  }

  /** In its turn agent `i` learns only ids some agent heard from already
      knew, and only values that are either its own or the agreed value of
      the fleet's poll. */
  lemma TurnSources(ks: seq<Dict>, ps: seq<Pos>, bs: seq<real>, roll: (nat, nat) -> real, i: nat, c: nat)
    requires AllValid(ks) && |ks| == |ps| == |bs| && i < |ks|
    requires c in TakeTurn(ks, ps, bs, roll, i)[i].at
    ensures c in ks[i].at || exists j :: 0 <= j < |ks| && Heard(ps, bs, roll, i, j) && c in ks[j].at
    ensures var v := TakeTurn(ks, ps, bs, roll, i)[i].at[c];
      (c in ks[i].at && v == ks[i].at[c]) || Agreed(Poll(ks, c), |ks|) == Some(v)
  {
    var shared := Shared(ks, ps, bs, roll, i);
    SharedKeys(ks, ps, bs, roll, i, |ks|);
    if t :| 0 <= t < |shared.keys| && shared.keys[t] == c {
      FusedWritten(ks[i], shared.keys, |shared.keys|, Decision(ks, |ks|), t);
    } else {
      FusedKept(ks[i], shared.keys, |shared.keys|, Decision(ks, |ks|), c);
    }
  }

  /** The poll of on-grid beliefs is on the grid. */
  lemma PollOnGrid(ks: seq<Dict>, cid: nat, size: int)
    requires OnGrid(ks, size)
    ensures forall q :: 0 <= q < |Poll(ks, cid)| ==> InGrid(Poll(ks, cid)[q], size)
  {
    var ps := Poll(ks, cid);
    forall q | 0 <= q < |ps|
      ensures InGrid(ps[q], size)
    {
      PollSound(ks, cid, ps[q]);
    }
  }

  /** A turn keeps every belief on the grid. */
  lemma TurnOnGrid(ks: seq<Dict>, ps: seq<Pos>, bs: seq<real>, roll: (nat, nat) -> real, i: nat, size: int)
    requires AllValid(ks) && |ks| == |ps| == |bs| && i < |ks|
    requires OnGrid(ks, size)
    ensures OnGrid(TakeTurn(ks, ps, bs, roll, i), size)
  {
    var r := TakeTurn(ks, ps, bs, roll, i);
    assert BeliefsOnGrid(ks[i], size);
    forall c | c in r[i].at
      ensures InGrid(r[i].at[c], size)
    {
      TurnSources(ks, ps, bs, roll, i, c);
      var polled := Poll(ks, c);
      if !(c in ks[i].at && r[i].at[c] == ks[i].at[c]) {
        PollOnGrid(ks, c, size);
        MeanOnGrid(polled, size);
      }
    }
  }

  /** The rest of the consensus pass from agent `i` on: agents `i`, `i+1`,
      ... take their turns in list order, each on the fleet as the earlier
      turns left it. */
  function PassFrom(ks: seq<Dict>, ps: seq<Pos>, bs: seq<real>, roll: (nat, nat) -> real, i: nat): (r: seq<Dict>)
    requires AllValid(ks) && |ks| == |ps| == |bs| && i <= |ks|
    ensures |r| == |ks| && AllValid(r)
    decreases |ks| - i, 1
  {
    if i == |ks| then ks else PassAfter(ks, ps, bs, roll, i)
  }

  /** The rest of the pass once agent `i` has taken its turn. */
  function PassAfter(ks: seq<Dict>, ps: seq<Pos>, bs: seq<real>, roll: (nat, nat) -> real, i: nat): (r: seq<Dict>)
    requires AllValid(ks) && |ks| == |ps| == |bs| && i < |ks|
    ensures |r| == |ks| && AllValid(r)
    decreases |ks| - i, 0
  {
    PassFrom(TakeTurn(ks, ps, bs, roll, i), ps, bs, roll, i + 1)
  }

  /** `update_knowledge(agents)`: the whole pass. */
  function Pass(ks: seq<Dict>, ps: seq<Pos>, bs: seq<real>, roll: (nat, nat) -> real): (r: seq<Dict>)
    requires AllValid(ks) && |ks| == |ps| == |bs|
    ensures |r| == |ks| && AllValid(r)
  {
    PassFrom(ks, ps, bs, roll, 0)
  }

  /** The consensus pass never removes a belief. */
  lemma {:induction false} PassKeeps(ks: seq<Dict>, ps: seq<Pos>, bs: seq<real>, roll: (nat, nat) -> real,
                                     i: nat, k: nat, c: nat)
    requires AllValid(ks) && |ks| == |ps| == |bs| && i <= |ks| && k < |ks|
    requires c in ks[k].at
    ensures c in PassFrom(ks, ps, bs, roll, i)[k].at
    decreases |ks| - i
  {
    if i < |ks| {
      TurnKeeps(ks, ps, bs, roll, i, k, c);
      PassKeeps(TakeTurn(ks, ps, bs, roll, i), ps, bs, roll, i + 1, k, c);
    }
  }

  /** The consensus pass never invents a customer id: every id an agent
      believes in afterwards was believed in by some agent before. */
  lemma {:induction false} PassSources(ks: seq<Dict>, ps: seq<Pos>, bs: seq<real>, roll: (nat, nat) -> real,
                                       i: nat, k: nat, c: nat)
    requires AllValid(ks) && |ks| == |ps| == |bs| && i <= |ks| && k < |ks|
    requires c in PassFrom(ks, ps, bs, roll, i)[k].at
    ensures exists l :: 0 <= l < |ks| && c in ks[l].at
    decreases |ks| - i
  {
    if i == |ks| {
      assert c in ks[k].at;
    } else {
      var next := TakeTurn(ks, ps, bs, roll, i);
      PassSources(next, ps, bs, roll, i + 1, k, c);
      var l :| 0 <= l < |ks| && c in next[l].at;
      if l == i {
        TurnSources(ks, ps, bs, roll, i, c);
      } else {
        assert c in ks[l].at;
      }
    }
  }

  /** The consensus pass keeps every belief on the grid. */
  lemma PassOnGrid(ks: seq<Dict>, ps: seq<Pos>, bs: seq<real>, roll: (nat, nat) -> real, i: nat, size: int)
    requires AllValid(ks) && |ks| == |ps| == |bs| && i <= |ks|
    requires OnGrid(ks, size)
    ensures OnGrid(PassFrom(ks, ps, bs, roll, i), size)
  {
    var r := PassFrom(ks, ps, bs, roll, i);
    forall k, c | 0 <= k < |r| && c in r[k].at
      ensures InGrid(r[k].at[c], size)
    {
      PassOnGridAt(ks, ps, bs, roll, i, size, k, c);
    }
  }

  lemma {:induction false} PassOnGridAt(ks: seq<Dict>, ps: seq<Pos>, bs: seq<real>, roll: (nat, nat) -> real,
                                        i: nat, size: int, k: nat, c: nat)
    requires AllValid(ks) && |ks| == |ps| == |bs| && i <= |ks| && k < |ks|
    requires OnGrid(ks, size)
    requires c in PassFrom(ks, ps, bs, roll, i)[k].at
    ensures InGrid(PassFrom(ks, ps, bs, roll, i)[k].at[c], size)
    decreases |ks| - i
  {
    if i < |ks| {
      TurnOnGrid(ks, ps, bs, roll, i, size);
      PassOnGridAt(TakeTurn(ks, ps, bs, roll, i), ps, bs, roll, i + 1, size, k, c);
    } else {
      assert BeliefsOnGrid(ks[k], size);
    }
  }

  // ---------------------------------------------------------------------------
  // The message cooldown

  /** A message cooldown after one `share_knowledge` call when `asked`. */
  function Cooled(c: nat, asked: bool): (r: nat)
  {
    if asked then Max(c - 1, 0) else c
  }

  /** How many of the agents `0 .. n-1` ask agent `j` for its knowledge. */
  function AskersUpTo(ps: seq<Pos>, j: nat, n: nat): (r: nat)
    requires j < |ps| && n <= |ps|
    ensures r <= n
    ensures j < n ==> r < n
  {
    if n == 0 then 0
    else AskersUpTo(ps, j, n - 1) + (if Asks(ps, n - 1, j) then 1 else 0)
  }

  /** How many agents ask agent `j` in a whole pass. */
  function Askers(ps: seq<Pos>, j: nat): (r: nat)
    requires j < |ps|
    ensures r < |ps|
  {
    AskersUpTo(ps, j, |ps|)
  }

  /** An agent with nobody within communication range is never asked. */
  lemma {:induction false} AloneUnasked(ps: seq<Pos>, j: nat, n: nat)
    requires j < |ps| && n <= |ps|
    requires forall i :: 0 <= i < |ps| && i != j ==> !Neighbours(ps[i], ps[j])
    ensures AskersUpTo(ps, j, n) == 0
  {
    if n > 0 {
      AloneUnasked(ps, j, n - 1);
    }
  }

  /** Every other agent within range asks: the count is the number of
      neighbours of `j` among `0 .. n-1`. */
  lemma {:induction false} AskersAll(ps: seq<Pos>, j: nat, n: nat)
    requires j < |ps| && n <= |ps|
    requires forall i :: 0 <= i < |ps| ==> Neighbours(ps[i], ps[j])
    ensures AskersUpTo(ps, j, n) == if j < n then n - 1 else n
  {
    if n > 0 {
      AskersAll(ps, j, n - 1);
    }
  }

  /** One more ask lowers a cooldown already lowered `a` times once more. */
  lemma CooledStep(c: int, a: int, asked: bool)
    ensures Cooled(Max(c - a, 0), asked) == Max(c - (a + if asked then 1 else 0), 0)
  {
  }

  // ---------------------------------------------------------------------------
  // The fleet object

  /** The agents' knowledge dictionaries, in list order. */
  function Knowledges(agents: seq<Agent>): (r: seq<Dict>)
    reads agents
    ensures |r| == |agents|
    ensures forall k :: 0 <= k < |agents| ==> r[k] == agents[k].knowledge
  {
    seq(|agents|, k requires 0 <= k < |agents| reads agents => agents[k].knowledge)
  }

  function Positions(agents: seq<Agent>): (r: seq<Pos>)
    reads agents
    ensures |r| == |agents|
    ensures forall k :: 0 <= k < |agents| ==> r[k] == agents[k].pos
  {
    seq(|agents|, k requires 0 <= k < |agents| reads agents => agents[k].pos)
  }

  function Cooldowns(agents: seq<Agent>): (r: seq<nat>)
    reads agents
    ensures |r| == |agents|
    ensures forall k :: 0 <= k < |agents| ==> r[k] == agents[k].messageCooldown
  {
    seq(|agents|, k requires 0 <= k < |agents| reads agents => agents[k].messageCooldown)
  }

  function Batteries(agents: seq<Agent>): (r: seq<real>)
    reads agents
    ensures |r| == |agents|
    ensures forall k :: 0 <= k < |agents| ==> r[k] == agents[k].battery
  {
    seq(|agents|, k requires 0 <= k < |agents| reads agents => agents[k].battery)
  }

  /** No agent appears twice in the list. */
  predicate Distinct(agents: seq<Agent>)
  {
    forall k, l :: 0 <= k < l < |agents| ==> agents[k] != agents[l]
  }

  class Consensus {
    const agents: seq<Agent>

    /** Every agent's knowledge is a well-formed dictionary, and the list
        holds distinct agents, so that `agent != other` singles out the
        other positions in the list. */
    ghost predicate Valid()
      reads agents`knowledge
    {
      && (forall k :: 0 <= k < |agents| ==> agents[k].knowledge.Valid())
      && Distinct(agents)
    }

    constructor (agents: seq<Agent>)
      ensures this.agents == agents
    {
      this.agents := agents;
    }

    /** `update_knowledge`: every agent in list order gathers the reports of
        the agents within range and fuses the agreed values into its own
        knowledge. `roll(i, j)` is the draw of agent `j`'s report to agent
        `i`. Each agent's cooldown falls once per agent that asks it. */
    method UpdateKnowledge(roll: (nat, nat) -> real)
      requires Valid()
      modifies agents`knowledge, agents`messageCooldown
      ensures Valid()
      ensures Knowledges(agents) ==
              Pass(old(Knowledges(agents)), old(Positions(agents)), old(Batteries(agents)), roll)
      ensures forall j :: 0 <= j < |agents| ==>
                agents[j].messageCooldown ==
                Max(old(agents[j].messageCooldown) - Askers(old(Positions(agents)), j), 0)
    {
      ghost var k0 := Knowledges(agents);
      ghost var ps := Positions(agents);
      ghost var bs := Batteries(agents);
      ghost var cd := Cooldowns(agents);
      Start(roll);
      ghost var ks := Visits(roll, k0, ps, bs, cd);
      Finish(k0, ks, ps, bs, cd, roll);
      assert forall j :: 0 <= j < |agents| ==> cd[j] == old(agents[j].messageCooldown);
    }

    /** The outer loop starts from the agents' current state. */
    lemma Start(roll: (nat, nat) -> real)
      requires Valid()
      ensures Progress(Knowledges(agents), Knowledges(agents), Positions(agents), Batteries(agents),
                       Cooldowns(agents), roll, 0)
    {
    }

    /** The state the outer loop ends in is the one `UpdateKnowledge` promises. */
    lemma Finish(k0: seq<Dict>, ks: seq<Dict>, ps: seq<Pos>, bs: seq<real>, cd: seq<nat>, roll: (nat, nat) -> real)
      requires Distinct(agents) && Progress(k0, ks, ps, bs, cd, roll, |agents|)
      ensures Valid() && Knowledges(agents) == Pass(k0, ps, bs, roll)
      ensures forall j :: 0 <= j < |agents| ==> agents[j].messageCooldown == Max(cd[j] - Askers(ps, j), 0)
    {
      assert PassFrom(ks, ps, bs, roll, |ks|) == ks;
      assert Knowledges(agents) == ks;
    }

    /** Agent `k` holds `ks[k]`, for every `k`. */
    ghost predicate Knows(ks: seq<Dict>)
      reads agents`knowledge
    {
      |ks| == |agents| && forall k :: 0 <= k < |agents| ==> agents[k].knowledge == ks[k]
    }

    /** Agent `k` stands at `ps[k]` with battery `bs[k]`, for every `k`. */
    ghost predicate Stands(ps: seq<Pos>, bs: seq<real>)
      reads agents`pos, agents`battery
    {
      && |ps| == |bs| == |agents|
      && forall k :: 0 <= k < |agents| ==> agents[k].pos == ps[k] && agents[k].battery == bs[k]
    }

    /** Every cooldown, from `cd`, has fallen once per asker among agents `0 .. n-1`. */
    ghost predicate CooledUpTo(cd: seq<nat>, ps: seq<Pos>, n: nat)
      reads agents`messageCooldown
    {
      && |cd| == |ps| == |agents| && n <= |ps|
      && forall j :: 0 <= j < |agents| ==> agents[j].messageCooldown == Max(cd[j] - AskersUpTo(ps, j, n), 0)
    }

    /** The state of the outer loop of `update_knowledge` before agent `i`'s
        turn: the agents hold `ks`, from which the rest of the pass leads to
        the pass over the knowledge `k0` at the start; positions and
        batteries are still `ps` and `bs`, and the cooldowns, `cd` at the
        start, have fallen once per asker among agents `0 .. i-1`. */
    ghost predicate Progress(k0: seq<Dict>, ks: seq<Dict>, ps: seq<Pos>, bs: seq<real>, cd: seq<nat>,
                             roll: (nat, nat) -> real, i: nat)
      reads agents`knowledge, agents`pos, agents`battery, agents`messageCooldown
    {
      && i <= |agents| && |k0| == |agents|
      && AllValid(k0) && AllValid(ks) && Knows(ks) && Stands(ps, bs) && CooledUpTo(cd, ps, i)
      && PassFrom(ks, ps, bs, roll, i) == Pass(k0, ps, bs, roll)
    }

    /** The outer loop of `update_knowledge`, over the agents' knowledge
        `k0`, positions `ps`, batteries `bs` and cooldowns `cd` at its start. */
    method Visits(roll: (nat, nat) -> real, ghost k0: seq<Dict>, ghost ps: seq<Pos>, ghost bs: seq<real>, ghost cd: seq<nat>)
      returns (ghost ks: seq<Dict>)
      requires Distinct(agents) && Progress(k0, k0, ps, bs, cd, roll, 0)
      modifies agents`knowledge, agents`messageCooldown
      ensures Progress(k0, ks, ps, bs, cd, roll, |agents|)
    {
      ks := k0;
      var i := 0;
      while i < |agents|
        invariant Progress(k0, ks, ps, bs, cd, roll, i)
      {
        ks := Visit(i, roll, k0, ks, ps, bs, cd);
        i := i + 1;
      }
    }

    /** One pass of the outer loop: agent `i` gathers and fuses, which takes
        the knowledge list to `TakeTurn` of the old one and lowers once more
        the cooldown of every agent `i` asks. */
    method Visit(i: nat, roll: (nat, nat) -> real, ghost k0: seq<Dict>,
                 ghost ks: seq<Dict>, ghost ps: seq<Pos>, ghost bs: seq<real>, ghost cd: seq<nat>)
      returns (ghost next: seq<Dict>)
      requires Distinct(agents) && i < |agents| && Progress(k0, ks, ps, bs, cd, roll, i)
      modifies agents`knowledge, agents`messageCooldown
      ensures Progress(k0, next, ps, bs, cd, roll, i + 1)
    {
      var shared := Round(i, roll, ks, ps, bs, cd);
      next := TakeTurn(ks, ps, bs, roll, i);
      assert PassFrom(ks, ps, bs, roll, i) == PassAfter(ks, ps, bs, roll, i) == PassFrom(next, ps, bs, roll, i + 1);
    }

    /** Agent `i` gathers `shared` and fuses it into its own knowledge. */
    method Round(i: nat, roll: (nat, nat) -> real,
                 ghost ks: seq<Dict>, ghost ps: seq<Pos>, ghost bs: seq<real>, ghost cd: seq<nat>)
      returns (shared: Dict)
      requires Distinct(agents) && i < |agents| && AllValid(ks) && Knows(ks) && Stands(ps, bs)
      requires CooledUpTo(cd, ps, i)
      modifies agents`knowledge, agents`messageCooldown
      ensures shared == Shared(ks, ps, bs, roll, i)
      ensures Knows(ks[i := FusedUpTo(ks[i], shared.keys, |shared.keys|, Decision(ks, |ks|))])
      ensures CooledUpTo(cd, ps, i + 1)
    {
      ghost var now := Cooldowns(agents);
      shared := Gather(i, roll, ks, ps, bs, now);
      CooledNext(cd, now, ps, i);
      Fuse(i, agents[i], shared, ks);
    }

    /** Agent `i`'s round lowers the cooldown of each agent it asks once more. */
    lemma CooledNext(cd: seq<nat>, now: seq<nat>, ps: seq<Pos>, i: nat)
      requires |cd| == |now| == |ps| == |agents| && i < |ps|
      requires forall j :: 0 <= j < |agents| ==> now[j] == Max(cd[j] - AskersUpTo(ps, j, i), 0)
      requires AskedUpTo(now, ps, i, |agents|)
      ensures CooledUpTo(cd, ps, i + 1)
    {
      forall j | 0 <= j < |agents|
        ensures agents[j].messageCooldown == Max(cd[j] - AskersUpTo(ps, j, i + 1), 0)
      {
        CooledStep(cd[j], AskersUpTo(ps, j, i), Asks(ps, i, j));
      }
    }

    /** Starting from the cooldowns `cd`, exactly the agents among `0 .. n-1`
        that agent `i` asks have had their cooldown lowered once. */
    ghost predicate AskedUpTo(cd: seq<nat>, ps: seq<Pos>, i: nat, n: nat)
      reads agents`messageCooldown
    {
      && |cd| == |ps| == |agents| && i < |ps|
      && forall l :: 0 <= l < |agents| ==> agents[l].messageCooldown == Cooled(cd[l], l < n && Asks(ps, i, l))
    }

    /** Lines 10-13 for agent `i`: `shared` merges, in list order, the reports
        of the other agents within range; each of them is asked once.
        `ks`, `ps` and `bs` are the agents' knowledge, positions and
        batteries, which asking leaves as they are; `cd` are the cooldowns
        beforehand. */
    method Gather(i: nat, roll: (nat, nat) -> real, ghost ks: seq<Dict>, ghost ps: seq<Pos>, ghost bs: seq<real>,
                  ghost cd: seq<nat>)
      returns (shared: Dict)
      requires Distinct(agents) && AllValid(ks) && Knows(ks) && Stands(ps, bs) && AskedUpTo(cd, ps, i, 0)
      modifies agents`messageCooldown
      ensures shared == Shared(ks, ps, bs, roll, i)
      ensures AskedUpTo(cd, ps, i, |agents|)
    {
      shared := Empty;
      var j := 0;
      while j < |agents|
        invariant j <= |agents|
        invariant shared == SharedUpTo(ks, ps, bs, roll, i, j)
        invariant AskedUpTo(cd, ps, i, j)
      {
        shared := AskNext(i, j, roll, shared, ks, ps, bs, cd);
        j := j + 1;
      }
      assert j == |ks|;
    }

    /** One pass of the inner loop: agent `j` is asked when it is in range,
        and only its own cooldown may change. */
    method AskNext(i: nat, j: nat, roll: (nat, nat) -> real, shared: Dict,
                   ghost ks: seq<Dict>, ghost ps: seq<Pos>, ghost bs: seq<real>, ghost cd: seq<nat>)
      returns (merged: Dict)
      requires Distinct(agents) && AllValid(ks) && Knows(ks) && Stands(ps, bs) && i < |agents| && j < |agents|
      requires shared == SharedUpTo(ks, ps, bs, roll, i, j)
      requires AskedUpTo(cd, ps, i, j)
      modifies agents`messageCooldown
      ensures merged == SharedUpTo(ks, ps, bs, roll, i, j + 1)
      ensures AskedUpTo(cd, ps, i, j + 1)
    {
      merged := Ask(i, agents[i], j, agents[j], roll, shared, ks, ps, bs);
      forall l | 0 <= l < |agents| && l != j
        ensures agents[l].messageCooldown == old(agents[l].messageCooldown)
      {
        assert agents[l] != agents[j];
      }
    }

    /** Lines 11-13 for one `other`: when it is another agent within range,
        it is asked for its knowledge and the report is merged into `shared`. */
    method Ask(i: nat, agent: Agent, j: nat, other: Agent, roll: (nat, nat) -> real, shared: Dict,
               ghost ks: seq<Dict>, ghost ps: seq<Pos>, ghost bs: seq<real>)
      returns (merged: Dict)
      requires AllValid(ks) && |ks| == |ps| == |bs| && i < |ks| && j < |ks|
      requires agent.pos == ps[i] && other.pos == ps[j] && other.knowledge == ks[j] && other.battery == bs[j]
      requires agent == other <==> i == j
      requires shared == SharedUpTo(ks, ps, bs, roll, i, j)
      modifies other`messageCooldown
      ensures merged == SharedUpTo(ks, ps, bs, roll, i, j + 1)
      ensures other.messageCooldown == Cooled(old(other.messageCooldown), Asks(ps, i, j))
    {
      if DistSq(agent.pos, other.pos) <= CommunicationRangeSq && agent != other {
        var report := other.ShareKnowledge(roll(i, j));
        merged := Update(shared, report);
      } else {
        UpdateEmpty(shared);
        merged := shared;
      }
    }

    /** Lines 14-19 for agent `i`: for each shared id in order, the poll of
        the fleet's current knowledge decides whether the agent overwrites its
        belief with the agreed value. */
    method Fuse(i: nat, agent: Agent, shared: Dict, ghost ks: seq<Dict>)
      requires i < |agents| == |ks| && agent == agents[i] && Distinct(agents)
      requires ks[i].Valid() && shared.Valid()
      requires forall k :: 0 <= k < |agents| ==> agents[k].knowledge == ks[k]
      modifies agent`knowledge
      ensures agent.knowledge == FusedUpTo(ks[i], shared.keys, |shared.keys|, Decision(ks, |agents|))
    {
      var t := 0;
      while t < |shared.keys|
        invariant 0 <= t <= |shared.keys|
        invariant agent.knowledge == FusedUpTo(ks[i], shared.keys, t, Decision(ks, |agents|))
      {
        assert Knowledges(agents) == ks[i := agent.knowledge];
        FuseId(i, agent, shared.keys, t, ks);
        t := t + 1;
      }
    }

    /** Lines 15-19 for the id `cids[t]`: poll every agent's current belief
        about it and store the agreed value, if any, in `agent`'s knowledge.
        With distinct ids the poll sees the beliefs of the start of the turn. */
    method FuseId(i: nat, agent: Agent, cids: seq<nat>, t: nat, ghost ks: seq<Dict>)
      requires i < |agents| == |ks| && agent == agents[i] && t < |cids| && ks[i].Valid()
      requires forall s, u :: 0 <= s < u < |cids| ==> cids[s] != cids[u]
      requires Knowledges(agents) == ks[i := FusedUpTo(ks[i], cids, t, Decision(ks, |agents|))]
      modifies agent`knowledge
      ensures agent.knowledge == FusedUpTo(ks[i], cids, t + 1, Decision(ks, |agents|))
    {
      LivePoll(ks, i, cids, t, Decision(ks, |agents|));
      var cid := cids[t];
      var positions := Poll(Knowledges(agents), cid);
      var agreed := Agreed(positions, |agents|);
      if agreed.Some? {
        agent.knowledge := Put(agent.knowledge, cid, agreed.value);
      }
    }
  }
}
